/**
 * The `video_genre_cleanup` fixup: rewrites the genre list of every movie
 * and show item according to per-language rules (`change`, `remove`,
 * `if_empty`), writing to the server only when the list changes and then
 * reading it back to verify.
 */
module GenreCleanup {
  import opened Wrappers
  import opened Text
  import opened Seqs
  import opened Catalog

  /**
   * The `change` rule table: desired genre -> `None` or the list of
   * original genres changed into it, in the table's key order.
   */
  type ChangeTable = seq<(string, Option<seq<string>>)>

  /** The reversed table: original genre -> desired genres. */
  type ReversedTable = map<string, seq<string>>

  // ---------------------------------------------------------------------
  // reversed_change_dict

  /** How often `x` occurs in `s`. */
  function Count(s: seq<string>, x: string): nat {
    if s == [] then 0 else Count(s[..|s| - 1], x) + (if s[|s| - 1] == x then 1 else 0)
  }

  /** `n` copies of `d`. */
  function Repeat(d: string, n: nat): seq<string> {
    if n == 0 then [] else Repeat(d, n - 1) + [d]
  }

  /**
   * The desired genres the original genre `o` is changed into: for every
   * entry of `change` in key order, the entry's desired genre once per
   * occurrence of `o` in its list (`None` counts as an empty list).
   */
  function DesiredFor(change: ChangeTable, o: string): seq<string> {
    if change == [] then []
    else
      var last := change[|change| - 1];
      DesiredFor(change[..|change| - 1], o)
        + (match last.1 case None => [] case Some(orgs) => Repeat(last.0, Count(orgs, o)))
  }

  /** The original genres named in some list of `change`. */
  function Originals(change: ChangeTable): set<string> {
    set i, o | 0 <= i < |change| && change[i].1.Some? && o in change[i].1.value :: o
  }

  /**
   * `m` after appending `d` to the entry of every element of `orgs`, in
   * order, creating missing entries (the inner loop of
   * `reversed_change_dict`).
   */
  function AddDesired(m: ReversedTable, d: string, orgs: seq<string>): ReversedTable {
    if orgs == [] then m
    else
      var m' := AddDesired(m, d, orgs[..|orgs| - 1]);
      var o := orgs[|orgs| - 1];
      m'[o := (if o in m' then m'[o] else []) + [d]]
  }

  /** The table the loops of `reversed_change_dict` build, entry by entry. */
  function Reversed(change: ChangeTable): ReversedTable {
    if change == [] then map[]
    else
      var last := change[|change| - 1];
      var m := Reversed(change[..|change| - 1]);
      match last.1
      case None => m
      case Some(orgs) => if orgs == [] then m else AddDesired(m, last.0, orgs)
  }

  /**
   * `reversed_change_dict(change)`: maps every original genre to the
   * desired genres it is changed into, once per occurrence, in key order.
   */
  method ReversedChangeDict(change: ChangeTable) returns (rev: ReversedTable)
    ensures rev == Reversed(change)
    ensures rev.Keys == Originals(change)
    ensures forall o :: DesiredFor(change, o) == Entry(rev, o)
  {
    rev := map[];
    for i := 0 to |change|
      invariant rev == Reversed(change[..i])
    {
      var desired := change[i].0;
      assert change[..i + 1][..i] == change[..i];
      match change[i].1 {
        case None =>
        case Some(orgs) =>
          if orgs != [] {
            ghost var m0 := rev;
            for j := 0 to |orgs|
              invariant rev == AddDesired(m0, desired, orgs[..j])
            {
              var org := orgs[j];
              assert orgs[..j + 1][..j] == orgs[..j];
              if org !in rev {
                rev := rev[org := []];
              }
              rev := rev[org := rev[org] + [desired]];
            }
            assert orgs[..|orgs|] == orgs;
          }
      }
    }
    assert change[..|change|] == change;
    ReversedMeaning(change);
  }

  /** The entry of `o` in a reversed table; a missing key reads as no genres. */
  function Entry(m: ReversedTable, o: string): seq<string> {
    if o in m then m[o] else []
  }

  /** AddDesired adds exactly the listed genres as keys. */
  lemma {:induction false} AddDesiredKeys(m: ReversedTable, d: string, orgs: seq<string>)
    ensures AddDesired(m, d, orgs).Keys == m.Keys + (set y | y in orgs)
  {
    if orgs != [] {
      var init := orgs[..|orgs| - 1];
      var x := orgs[|orgs| - 1];
      AddDesiredKeys(m, d, init);
      assert AddDesired(m, d, orgs).Keys == AddDesired(m, d, init).Keys + {x};
      assert orgs == init + [x];
      assert (set y | y in orgs) == (set y | y in init) + {x};
    }
  }

  /** AddDesired appends `d` to the entry of `o` once per occurrence of `o`. */
  lemma {:induction false} AddDesiredEntry(m: ReversedTable, d: string, orgs: seq<string>, o: string)
    ensures Entry(AddDesired(m, d, orgs), o) == Entry(m, o) + Repeat(d, Count(orgs, o))
  {
    if orgs != [] {
      var init := orgs[..|orgs| - 1];
      var x := orgs[|orgs| - 1];
      AddDesiredEntry(m, d, init, o);
      assert Count(orgs, o) == Count(init, o) + (if x == o then 1 else 0);
      if o == x {
        assert Repeat(d, Count(init, o) + 1) == Repeat(d, Count(init, o)) + [d];
      }
    }
  }

  /**
   * The table built by `reversed_change_dict` has exactly the originals as
   * keys, and maps each to its desired genres in key order.
   */
  lemma {:induction false} ReversedMeaning(change: ChangeTable)
    ensures Reversed(change).Keys == Originals(change)
    ensures forall o :: DesiredFor(change, o) == Entry(Reversed(change), o)
  {
    if change != [] {
      var init := change[..|change| - 1];
      ReversedMeaning(init);
      OriginalsSnoc(change);
      var last := change[|change| - 1];
      match last.1 {
        case None =>
        case Some(orgs) =>
          AddDesiredKeys(Reversed(init), last.0, orgs);
          forall o ensures DesiredFor(change, o) == Entry(Reversed(change), o) {
            AddDesiredEntry(Reversed(init), last.0, orgs, o);
            if orgs == [] {
              assert Count(orgs, o) == 0;
            }
          }
      }
    }
  }

  /** The originals of a table are those of its prefix plus its last list. */
  lemma OriginalsSnoc(change: ChangeTable)
    requires change != []
    ensures Originals(change) == Originals(change[..|change| - 1])
      + (match change[|change| - 1].1 case None => {} case Some(orgs) => set y | y in orgs)
  {
    var init := change[..|change| - 1];
    var last := change[|change| - 1];
    var lastSet := match last.1 case None => {} case Some(orgs) => set y | y in orgs;
    forall o | o in Originals(change)
      ensures o in Originals(init) + lastSet
    {
      var i :| 0 <= i < |change| && change[i].1.Some? && o in change[i].1.value;
      if i < |change| - 1 {
        assert init[i] == change[i];
      } else {
        var k :| 0 <= k < |change[i].1.value| && change[i].1.value[k] == o;
      }
    }
    forall o | o in Originals(init) + lastSet
      ensures o in Originals(change)
    {
      if o in Originals(init) {
        var i :| 0 <= i < |init| && init[i].1.Some? && o in init[i].1.value;
        assert change[i] == init[i];
      } else {
        assert change[|change| - 1].1.Some? && o in change[|change| - 1].1.value;
      }
    }
  }

  // ---------------------------------------------------------------------
  // The genre computation of process_item

  /** The cleanup rules of one language, with the reversed change table. */
  datatype Rules = Rules(rev: ReversedTable, remove: seq<string>, ifEmpty: Option<string>)

  /** Python truthiness of `if_empty`: set and not the empty string. */
  predicate Truthy(v: Option<string>) {
    v.Some? && v.value != ""
  }

  /** The genres one stored genre `g` contributes on its own, in order. */
  function Contribution(g: string, rules: Rules): seq<string> {
    if g == "" then []
    else if rules.ifEmpty == Some(g) then []
    else if g in rules.remove then []
    else if g in rules.rev then rules.rev[g]
    else [g]
  }

  /**
   * The list built from the stored genres before the `if_empty` default:
   * each genre's contribution, appended only where not yet present.
   */
  function Consolidated(act: seq<string>, rules: Rules): seq<string> {
    if act == [] then []
    else AppendNew(Consolidated(act[..|act| - 1], rules), Contribution(act[|act| - 1], rules))
  }

  /** The new genre list: the consolidated list, or `[if_empty]` if that is empty. */
  function NewGenres(act: seq<string>, rules: Rules): seq<string> {
    var c := Consolidated(act, rules);
    if c == [] && Truthy(rules.ifEmpty) then [rules.ifEmpty.value] else c
  }

  /**
   * The loop of `process_item` that builds `new_genre_strs`: it computes
   * the new genre list.
   */
  method ComputeNewGenres(act: seq<string>, rules: Rules) returns (newGenres: seq<string>)
    ensures newGenres == NewGenres(act, rules)
  {
    newGenres := [];
    for i := 0 to |act|
      invariant newGenres == Consolidated(act[..i], rules)
    {
      var g := act[i];
      assert act[..i + 1][..i] == act[..i];
      if g == "" {
        continue;
      }
      if rules.ifEmpty == Some(g) {
        continue;
      }
      if g in rules.remove {
        continue;
      }
      if g in rules.rev {
        var desired := rules.rev[g];
        for j := 0 to |desired|
          invariant newGenres == AppendNew(Consolidated(act[..i], rules), desired[..j])
        {
          AppendNewStep(Consolidated(act[..i], rules), desired, j);
          if desired[j] !in newGenres {
            newGenres := newGenres + [desired[j]];
          }
        }
        assert desired[..|desired|] == desired;
        continue;
      }
      if g !in newGenres {
        newGenres := newGenres + [g];
      }
      AppendNewStep(Consolidated(act[..i], rules), [g], 0);
    }
    assert act[..|act|] == act;
    if newGenres == [] && Truthy(rules.ifEmpty) {
      newGenres := newGenres + [rules.ifEmpty.value];
    }
  }

  /** The new genre list never holds a genre twice. */
  lemma {:induction false} ConsolidatedNoDup(act: seq<string>, rules: Rules)
    ensures NoDup(Consolidated(act, rules))
    ensures NoDup(NewGenres(act, rules))
  {
    if act != [] {
      ConsolidatedNoDup(act[..|act| - 1], rules);
    }
  }

  /**
   * A genre is in the consolidated list exactly when some stored genre
   * contributes it: the stored genre is not empty, not `if_empty`, not in
   * `remove`, and either is changed into it or is kept as itself.
   */
  lemma {:induction false} ConsolidatedMembers(act: seq<string>, rules: Rules, x: string)
    ensures x in Consolidated(act, rules) <==> exists i :: 0 <= i < |act| && x in Contribution(act[i], rules)
  {
    if act != [] {
      var init := act[..|act| - 1];
      ConsolidatedMembers(init, rules, x);
      AppendNewMembers(Consolidated(init, rules), Contribution(act[|act| - 1], rules));
      if x in Consolidated(act, rules) && x !in Consolidated(init, rules) {
        assert x in Contribution(act[|act| - 1], rules);
      }
      if exists i :: 0 <= i < |act| && x in Contribution(act[i], rules) {
        var i :| 0 <= i < |act| && x in Contribution(act[i], rules);
        if i < |act| - 1 {
          assert init[i] == act[i];
        }
      }
    }
  }

  /**
   * The default genre: the new list is `[if_empty]` exactly when no stored
   * genre contributes anything and `if_empty` is truthy; otherwise it is the
   * consolidated list.
   */
  lemma IfEmptyDefault(act: seq<string>, rules: Rules)
    ensures (forall i :: 0 <= i < |act| ==> Contribution(act[i], rules) == []) && Truthy(rules.ifEmpty)
            ==> NewGenres(act, rules) == [rules.ifEmpty.value]
    ensures (exists i :: 0 <= i < |act| && Contribution(act[i], rules) != [])
            ==> NewGenres(act, rules) == Consolidated(act, rules) != []
  {
    var c := Consolidated(act, rules);
    if c != [] {
      ConsolidatedMembers(act, rules, c[0]);
    }
    if exists i :: 0 <= i < |act| && Contribution(act[i], rules) != [] {
      var i :| 0 <= i < |act| && Contribution(act[i], rules) != [];
      ConsolidatedMembers(act, rules, Contribution(act[i], rules)[0]);
    }
  }

  /**
   * The rules under which the rewrite is idempotent: every desired genre is
   * non-empty, not `if_empty`, not removed and not itself changed.
   */
  predicate StableRules(rules: Rules) {
    forall o, d :: o in rules.rev && d in rules.rev[o] ==>
      d != "" && rules.ifEmpty != Some(d) && d !in rules.remove && d !in rules.rev
  }

  /** A genre that a second pass keeps unchanged. */
  predicate Kept(g: string, rules: Rules) {
    Contribution(g, rules) == [g]
  }

  /** Every genre of the consolidated list is kept by a second pass. */
  lemma {:induction false} ConsolidatedKept(act: seq<string>, rules: Rules)
    requires StableRules(rules)
    ensures forall x :: x in Consolidated(act, rules) ==> Kept(x, rules)
  {
    forall x | x in Consolidated(act, rules)
      ensures Kept(x, rules)
    {
      ConsolidatedMembers(act, rules, x);
      var i :| 0 <= i < |act| && x in Contribution(act[i], rules);
      var g := act[i];
      if g in rules.rev && g !in rules.remove && g != "" && rules.ifEmpty != Some(g) {
        assert x in rules.rev[g];
      }
    }
  }

  /** A duplicate-free list of kept genres consolidates to itself. */
  lemma {:induction false} ConsolidatedFixpoint(s: seq<string>, rules: Rules)
    requires NoDup(s)
    requires forall x :: x in s ==> Kept(x, rules)
    ensures Consolidated(s, rules) == s
  {
    if s != [] {
      var init := s[..|s| - 1];
      assert NoDup(init);
      ConsolidatedFixpoint(init, rules);
      var last := s[|s| - 1];
      assert last !in init;
      assert last in s;
      assert Contribution(last, rules) == [last];
      assert [last][..0] == [];
      assert AppendNew(init, [last]) == init + [last];
      assert s == init + [last];
    }
  }

  /**
   * Under stable rules the rewrite is idempotent: cleaning up an already
   * cleaned-up list gives the same list, so a second run writes nothing.
   */
  lemma NewGenresIdempotent(act: seq<string>, rules: Rules)
    requires StableRules(rules)
    ensures NewGenres(NewGenres(act, rules), rules) == NewGenres(act, rules)
  {
    var c := Consolidated(act, rules);
    ConsolidatedNoDup(act, rules);
    ConsolidatedKept(act, rules);
    if c == [] && Truthy(rules.ifEmpty) {
      var e := [rules.ifEmpty.value];
      assert Contribution(e[0], rules) == [];
      assert e[..0] == [];
      assert Consolidated(e, rules) == [];
    } else {
      ConsolidatedFixpoint(c, rules);
    }
  }

  /** A one-genre list consolidates to that genre's contribution. */
  lemma ConsolidatedOne(g: string, rules: Rules)
    requires NoDup(Contribution(g, rules))
    ensures Consolidated([g], rules) == Contribution(g, rules)
  {
    assert [g][..0] == [];
    AppendNewFresh([], Contribution(g, rules));
  }

  /** A change table whose desired genre is itself changed again. */
  const ChainChange: ChangeTable := [("Action", Some(["Drama"])), ("Thriller", Some(["Action"]))]

  /** `reversed_change_dict` of the chained table. */
  lemma ChainReversed()
    ensures Reversed(ChainChange) == map["Drama" := ["Action"], "Action" := ["Thriller"]]
  {
    assert ChainChange[..1] == [("Action", Some(["Drama"]))] && ChainChange[..1][..0] == [];
    assert ["Drama"][..0] == [] && ["Action"][..0] == [];
    var m0: ReversedTable := map[];
    assert AddDesired(m0, "Action", ["Drama"][..0]) == m0;
    assert [] + ["Action"] == ["Action"];
    var m1 := AddDesired(m0, "Action", ["Drama"]);
    assert m1 == m0["Drama" := [] + ["Action"]];
    assert m1 == map["Drama" := ["Action"]];
    assert Reversed(ChainChange[..1]) == m1;
    assert Reversed(ChainChange) == AddDesired(m1, "Thriller", ["Action"]);
    assert AddDesired(m1, "Thriller", ["Action"][..0]) == m1;
    assert "Action" !in m1 && [] + ["Thriller"] == ["Thriller"];
    assert AddDesired(m1, "Thriller", ["Action"]) == m1["Action" := [] + ["Thriller"]];
  }

  /** Without side conditions a second pass can change the list again. */
  lemma NotIdempotentInGeneral()
    ensures var rules := Rules(Reversed(ChainChange), [], None);
            NewGenres(NewGenres(["Drama"], rules), rules) != NewGenres(["Drama"], rules)
  {
    ChainReversed();
    var rules := Rules(Reversed(ChainChange), [], None);
    assert Contribution("Drama", rules) == ["Action"];
    ConsolidatedOne("Drama", rules);
    assert Contribution("Action", rules) == ["Thriller"];
    ConsolidatedOne("Action", rules);
  }

  /** The `change` table of an example configuration. */
  const ExampleChange: ChangeTable := [("Action", Some(["Action Film", "Action/Adventure"]))]

  /** The reversed table of the example, as `reversed_change_dict` builds it. */
  lemma ExampleReversed()
    ensures Reversed(ExampleChange).Keys == {"Action Film", "Action/Adventure"}
    ensures Reversed(ExampleChange)["Action Film"] == ["Action"]
  {
    var orgs := ["Action Film", "Action/Adventure"];
    assert ExampleChange[..0] == [];
    assert Reversed(ExampleChange) == AddDesired(map[], "Action", orgs);
    AddDesiredKeys(map[], "Action", orgs);
    assert (set y | y in orgs) == {"Action Film", "Action/Adventure"};
    AddDesiredEntry(map[], "Action", orgs, "Action Film");
    assert orgs[..1] == ["Action Film"] && orgs[..1][..0] == [];
    assert Count(orgs[..1], "Action Film") == 1;
    assert Count(orgs, "Action Film") == 1;
    assert Repeat("Action", 1) == ["Action"];
  }

  /** The rules of the example. */
  function ExampleRules(): Rules {
    Rules(Reversed(ExampleChange), ["Short"], Some("Unknown"))
  }

  /** A non-empty consolidated list is the new list. */
  lemma NewGenresOfNonEmpty(act: seq<string>, rules: Rules)
    requires Consolidated(act, rules) != []
    ensures NewGenres(act, rules) == Consolidated(act, rules)
  {
  }

  /** What each stored genre of the example contributes. */
  lemma ExampleContributions()
    ensures Contribution("Action Film", ExampleRules()) == ["Action"]
    ensures Contribution("Short", ExampleRules()) == []
    ensures Contribution("Drama", ExampleRules()) == ["Drama"]
  {
    ExampleReversed();
  }

  /**
   * An example: with `change` = {"Action":
   * ["Action Film", "Action/Adventure"]}, `remove` = ["Short"] and
   * `if_empty` = "Unknown", ["Action Film", "Short", "Drama"] becomes
   * ["Action", "Drama"].
   */
  lemma WorkedExample()
    ensures NewGenres(["Action Film", "Short", "Drama"], ExampleRules()) == ["Action", "Drama"]
  {
    ExampleContributions();
    var rules := ExampleRules();
    var a := ["Action Film", "Short", "Drama"];
    assert a[..1] == ["Action Film"] && a[..2] == ["Action Film", "Short"];
    assert Consolidated(a[..1], rules) == ["Action"] by {
      assert a[..1][..0] == [] && ["Action"][..0] == [];
    }
    assert Consolidated(a[..2], rules) == ["Action"] by {
      assert a[..2][..1] == a[..1];
    }
    assert Consolidated(a, rules) == ["Action", "Drama"] by {
      assert ["Drama"][..0] == [];
      assert AppendNew(["Action"], ["Drama"]) == ["Action", "Drama"];
    }
    NewGenresOfNonEmpty(a, rules);
  }

  /** In the same example, ["Short"] becomes ["Unknown"]. */
  lemma WorkedExampleDefault()
    ensures NewGenres(["Short"], ExampleRules()) == ["Unknown"]
  {
    ExampleContributions();
    assert ["Short"][..0] == [];
    assert Consolidated(["Short"], ExampleRules()) == [];
  }

  // ---------------------------------------------------------------------
  // The edit request of process_item

  /**
   * The edit parameters: delete the comma-joined actual genres, then add
   * `genre[i].tag.tag` = the i-th new genre, for every i in list order.
   */
  function GenreEditFields(act: seq<string>, newGenres: seq<string>): (r: seq<Field>)
    ensures |r| == |newGenres| + 1
    decreases |newGenres|
  {
    if newGenres == [] then [(GenreDeleteKey, Join(act, ","))]
    else
      var m := |newGenres| - 1;
      GenreEditFields(act, newGenres[..m]) + [(GenreKey(m), newGenres[m])]
  }

  /** Parameter 0 deletes the actual genres; parameter k + 1 adds the k-th new genre. */
  lemma {:induction false} GenreEditFieldsAt(act: seq<string>, newGenres: seq<string>, k: nat)
    requires k <= |newGenres|
    ensures GenreEditFields(act, newGenres)[k]
            == if k == 0 then (GenreDeleteKey, Join(act, ",")) else (GenreKey(k - 1), newGenres[k - 1])
    decreases |newGenres|
  {
    if k < |newGenres| {
      GenreEditFieldsAt(act, newGenres[..|newGenres| - 1], k);
    }
  }

  /** Different indexes give different genre parameter names. */
  lemma GenreKeyInjective(a: nat, b: nat)
    ensures GenreKey(a) == GenreKey(b) ==> a == b
  {
    if GenreKey(a) == GenreKey(b) {
      var sa, sb := NatToString(a), NatToString(b);
      assert |sa| == |sb|;
      assert GenreKey(a)[6..6 + |sa|] == sa;
      assert GenreKey(b)[6..6 + |sb|] == sb;
      NatToStringInjective(a, b);
    }
  }

  /** No genre-add parameter is the delete parameter. */
  lemma GenreKeyNotDelete(i: nat)
    ensures GenreKey(i) != GenreDeleteKey
  {
    assert GenreKey(i)[6] == NatToString(i)[0];
    assert IsDigit(GenreKey(i)[6]);
  }

  /** `genre[i].tag.tag` names the parameter at position i + 1 and no other. */
  lemma GenreKeyOnlyAt(act: seq<string>, newGenres: seq<string>, i: nat)
    ensures forall k :: 0 <= k < |newGenres| + 1 && k != i + 1 ==> GenreEditFields(act, newGenres)[k].0 != GenreKey(i)
  {
    var fields := GenreEditFields(act, newGenres);
    GenreKeyNotDelete(i);
    forall k | 1 <= k < |newGenres| + 1 && k != i + 1
      ensures fields[k].0 != GenreKey(i)
    {
      GenreEditFieldsAt(act, newGenres, k);
      GenreKeyInjective(k - 1, i);
    }
  }

  /** As the server reads the request, `genre[i].tag.tag` is the i-th new genre, if any. */
  lemma LookupGenreKey(act: seq<string>, newGenres: seq<string>, i: nat)
    ensures Lookup(GenreEditFields(act, newGenres), GenreKey(i))
            == if i < |newGenres| then Some(newGenres[i]) else None
  {
    var fields := GenreEditFields(act, newGenres);
    GenreKeyOnlyAt(act, newGenres, i);
    if i < |newGenres| {
      GenreEditFieldsAt(act, newGenres, i + 1);
      LookupAt(fields, GenreKey(i), i + 1);
    } else {
      LookupMeaning(fields, GenreKey(i));
    }
  }

  /** The genre edit sets no title: no parameter of it is `title.value`. */
  lemma GenreEditSetsNoTitle(act: seq<string>, newGenres: seq<string>)
    ensures Lookup(GenreEditFields(act, newGenres), TitleValueKey) == None
  {
    var fields := GenreEditFields(act, newGenres);
    LookupMeaning(fields, TitleValueKey);
    GenreEditFieldsAt(act, newGenres, 0);
    assert fields[0].0[0] == 'g';
    forall k | 1 <= k < |fields|
      ensures fields[k].0 != TitleValueKey
    {
      GenreEditFieldsAt(act, newGenres, k);
      assert fields[k].0[0] == 'g';
    }
  }

  /**
   * The edit request carries the new genre list: as the server reads it,
   * it deletes the comma-joined actual genres and adds exactly `newGenres`,
   * in order.
   */
  lemma GenreRequestRoundTrip(act: seq<string>, newGenres: seq<string>)
    ensures Lookup(GenreEditFields(act, newGenres), GenreDeleteKey) == Some(Join(act, ","))
    ensures AddedGenres(GenreEditFields(act, newGenres), 0) == newGenres
    ensures Lookup(GenreEditFields(act, newGenres), TitleValueKey) == None
  {
    GenreEditFieldsAt(act, newGenres, 0);
    LookupAt(GenreEditFields(act, newGenres), GenreDeleteKey, 0);
    GenreEditSetsNoTitle(act, newGenres);
    var fields := GenreEditFields(act, newGenres);
    forall j: nat
      ensures Lookup(fields, GenreKey(j)) == if j < |newGenres| then Some(newGenres[j]) else None
    {
      LookupGenreKey(act, newGenres, j);
    }
    AddedGenresFrom(fields, newGenres, 0);
    assert newGenres[0..] == newGenres;
  }

  /** The loop of `process_item` that builds the edit parameters. */
  method BuildEditFields(act: seq<string>, newGenres: seq<string>) returns (fields: seq<Field>)
    ensures fields == GenreEditFields(act, newGenres)
  {
    fields := [(GenreDeleteKey, Join(act, ","))];
    for i := 0 to |newGenres|
      invariant fields == GenreEditFields(act, newGenres[..i])
    {
      assert newGenres[..i + 1][..i] == newGenres[..i];
      fields := fields + [(GenreKey(i), newGenres[i])];
    }
    assert newGenres[..|newGenres|] == newGenres;
  }

  /**
   * The state of an item after `process_item`, given its state `s` before
   * and the new genre list `target` computed from it: when `target`
   * differs from the stored list (order counts) and this is not a dry run,
   * exactly one delete-and-re-add edit was sent, and the server now stores
   * `target` unless it rejected or ignored the edit; nothing else changed.
   */
  function EditedTo(s: ItemState, target: seq<string>, kind: string, ratingKey: string, dryrun: bool): ItemState {
    var write := target != s.genres && !dryrun;
    s.(log := s.log + (if write then [Call.Edit(kind, ratingKey, GenreEditFields(s.genres, target))] else []),
       genres := if write && !s.rejectsEdits && !s.ignoresEdits then target else s.genres)
  }

  /** `process_item` returns 1: an edit to `target` is due and it does not take. */
  predicate FailsTo(s: ItemState, target: seq<string>, dryrun: bool) {
    target != s.genres && !dryrun && (s.rejectsEdits || s.ignoresEdits)
  }

  /** The state `process_item` leaves the item `it` in, from its state `s`, under `rules`. */
  function Cleaned(it: Item, s: ItemState, rules: Rules, dryrun: bool): ItemState {
    EditedTo(s, NewGenres(s.genres, rules), it.kind, it.ratingKey, dryrun)
  }

  /** `process_item` returns 1 on an item in the state `s`, under `rules`. */
  predicate CleanFails(s: ItemState, rules: Rules, dryrun: bool) {
    FailsTo(s, NewGenres(s.genres, rules), dryrun)
  }

  /** What `process_item` does to an item under `rules`. */
  function GenreEffect(rules: Rules, dryrun: bool): Effect {
    Effect((it: Item, s: ItemState) => Cleaned(it, s, rules, dryrun),
           (it: Item, s: ItemState) => CleanFails(s, rules, dryrun))
  }

  /** A dry run leaves an item's state as it was. */
  lemma EditedToDry(s: ItemState, target: seq<string>, kind: string, ratingKey: string)
    ensures EditedTo(s, target, kind, ratingKey, true) == s
  {
    assert s.log + [] == s.log;
  }

  /** In a dry run every processed item keeps its state: no edit is sent. */
  lemma DryRunKeepsStates(w: Work, pre: seq<ItemState>, rules: Rules, rc: int, n: nat)
    requires Outcome(w, pre, GenreEffect(rules, true), rc, n)
    ensures States(w.items[..n]) == pre[..n]
  {
    var e := GenreEffect(rules, true);
    forall it: Item, s: ItemState
      ensures e.after(it, s) == s
    {
      EditedToDry(s, NewGenres(s.genres, rules), it.kind, it.ratingKey);
    }
    AllDoneIdle(pre, w.items[..n], e);
  }

  /**
   * `process_item` of the genre cleanup: computes the new genre list and,
   * when it differs from the stored one and this is not a dry run, sends
   * one delete-and-re-add edit, then reads the genres back. Returns 1 when
   * the edit raises or the read-back list differs.
   */
  method ProcessItem(item: Item, rules: Rules, dryrun: bool) returns (rc: int)
    modifies item
    ensures StateOf(item) == EditedTo(old(StateOf(item)), NewGenres(old(item.genres), rules), item.kind, item.ratingKey, dryrun)
    ensures rc == (if FailsTo(old(StateOf(item)), NewGenres(old(item.genres), rules), dryrun) then 1 else 0)
    ensures dryrun ==> unchanged(item)
  {
    var act := item.genres;
    var newGenres := ComputeNewGenres(act, rules);
    if newGenres != act && !dryrun {
      var fields := BuildEditFields(act, newGenres);
      GenreRequestRoundTrip(act, newGenres);
      var raised := item.Edit(fields);
      if raised {
        return 1;
      }
      // Read the genres back (item.reload()) and compare.
      if item.genres != newGenres {
        return 1;
      }
    }
    return 0;
  }

  // ---------------------------------------------------------------------
  // CleanupGenre.run

  /** One entry of the `video_genre_cleanup` configuration list. */
  datatype CleanupEntry = CleanupEntry(language: string, change: ChangeTable, remove: seq<string>, ifEmpty: Option<string>)

  /** The last entry of `entries` whose language is `language`, if any. */
  function LastMatching(entries: seq<CleanupEntry>, language: string): Option<CleanupEntry> {
    if entries == [] then None
    else if entries[|entries| - 1].language == language then Some(entries[|entries| - 1])
    else LastMatching(entries[..|entries| - 1], language)
  }

  /** The rules `run` builds from a configuration entry. */
  function RulesOf(e: CleanupEntry): Rules {
    Rules(Reversed(e.change), e.remove, e.ifEmpty)
  }

  /**
   * The language selection loop of `run`: the LAST entry whose language
   * matches wins, because the loop does not stop at the first match.
   */
  method SelectCleanup(entries: seq<CleanupEntry>, language: string) returns (r: Option<CleanupEntry>)
    ensures r == LastMatching(entries, language)
    ensures r.None? <==> forall i :: 0 <= i < |entries| ==> entries[i].language != language
    ensures r.Some? ==> exists i :: 0 <= i < |entries| && entries[i] == r.value && entries[i].language == language
                          && forall j :: i < j < |entries| ==> entries[j].language != language
  {
    r := None;
    ghost var at := 0;
    for k := 0 to |entries|
      invariant r == LastMatching(entries[..k], language)
      invariant r.None? <==> forall i :: 0 <= i < k ==> entries[i].language != language
      invariant r.Some? ==> 0 <= at < k && entries[at] == r.value && entries[at].language == language
                            && forall j :: at < j < k ==> entries[j].language != language
    {
      assert entries[..k + 1][..k] == entries[..k];
      if entries[k].language == language {
        r := Some(entries[k]);
        at := k;
      }
    }
    assert entries[..|entries|] == entries;
  }

  /**
   * The item loop of one section: the movies and shows at the head of the
   * listing are processed in order; the loop stops at the first whose
   * processing fails and at the first item of another type. `pre` holds
   * the states of those items before the loop; `n` counts the processed
   * items.
   */
  method CleanupItems(items: seq<Item>, ghost pre: seq<ItemState>, ghost pool: set<Item>, rules: Rules, dryrun: bool)
    returns (rc: int, ghost n: nat)
    requires ItemSet(ItemsWork(items, false).items) <= pool
    requires Distinct(ItemsWork(items, false).items)
    requires pre == States(ItemsWork(items, false).items)
    modifies pool
    ensures var w := ItemsWork(items, false);
      Outcome(w, pre, GenreEffect(rules, dryrun), rc, n) && unchanged(pool - ItemSet(w.items[..n]))
  {
    ghost var p := PlainCount(items);
    ItemsWorkPlainCount(items);
    rc, n := CleanupPlain(items, items[..p], pre, pool, rules, dryrun);
  }

  /**
   * The item loop of one section, over the listing `items` that starts
   * with the movies and shows `xs`, followed by an item of another type
   * unless `xs` is the whole listing.
   */
  method CleanupPlain(items: seq<Item>, ghost xs: seq<Item>, ghost pre: seq<ItemState>, ghost pool: set<Item>,
                      rules: Rules, dryrun: bool)
    returns (rc: int, ghost n: nat)
    requires |xs| <= |items| && xs == items[..|xs|]
    requires forall j :: 0 <= j < |xs| ==> Plain(items[j])
    requires |xs| < |items| ==> !Plain(items[|xs|])
    requires Distinct(xs) && ItemSet(xs) <= pool && pre == States(xs)
    modifies pool
    ensures Outcome(Work(xs, |xs| < |items|), pre, GenreEffect(rules, dryrun), rc, n)
    ensures unchanged(pool - ItemSet(xs[..n]))
  {
    rc, n := 0, |xs|;
    assert xs[0..] == xs && xs[..0] == [];
    for k := 0 to |items|
      invariant k <= |xs| && rc == 0 && n == |xs|
      invariant Processed(pre, GenreEffect(rules, dryrun), xs[..k])
      invariant States(xs[k..]) == pre[k..]
      invariant unchanged(pool - ItemSet(xs[..k]))
    {
      var item := items[k];
      if !(item.kind == "movie" || item.kind == "show") {
        rc, n := 1, k;
        assert xs[..k] == xs;
        FirstFailureIs(xs, pre, k, GenreEffect(rules, dryrun));
        return;
      }
      rc, n := CleanupTurn(item, xs, k, pre, pool, rules, dryrun);
      if rc != 0 {
        FailedOutcome(xs, pre, GenreEffect(rules, dryrun), rc, n, |xs| < |items|);
        return;
      }
      n := |xs|;
    }
    assert xs[..|items|] == xs;
    LoopOutcome(Work(xs, false), pre, GenreEffect(rules, dryrun), n);
  }

  /**
   * One turn of the item loop, at `item`, the movie or show `xs[k]`, after
   * the items before it were processed without failure: `item` is
   * processed, and the loop goes on when that succeeds. When it returns 1
   * the loop ends with it, after `n` processed items.
   */
  method CleanupTurn(item: Item, ghost xs: seq<Item>, ghost k: nat, ghost pre: seq<ItemState>, ghost pool: set<Item>,
                     rules: Rules, dryrun: bool)
    returns (rc: int, ghost n: nat)
    requires k < |xs| == |pre| && item == xs[k] && Distinct(xs) && ItemSet(xs) <= pool
    requires Processed(pre, GenreEffect(rules, dryrun), xs[..k]) && States(xs[k..]) == pre[k..]
    modifies pool - ItemSet(xs[..k])
    ensures n == k + 1
    ensures rc == 0 ==>
      && Processed(pre, GenreEffect(rules, dryrun), xs[..k + 1]) && States(xs[k + 1..]) == pre[k + 1..]
      && unchanged(pool - ItemSet(xs[..k + 1]))
    ensures rc != 0 ==>
      && Outcome(Work(xs, false), pre, GenreEffect(rules, dryrun), rc, n)
      && unchanged(pool - ItemSet(xs[..n]))
  {
    TurnReady(xs, pre, k);
    rc := CleanupStep(item, xs, k, pre, rules, dryrun);
    n := k + 1;
    ItemSetSnoc(xs, k);
    TurnOutcome(xs, pre, GenreEffect(rules, dryrun), k, rc, n);
  }

  /** `item`, the movie or show `xs[k]`, is processed, after the items before it. */
  method CleanupStep(item: Item, ghost xs: seq<Item>, ghost k: nat, ghost pre: seq<ItemState>, rules: Rules, dryrun: bool)
    returns (rc: int)
    requires k < |pre| == |xs| && item == xs[k]
    requires item !in xs[..k] && pre[k] == StateOf(item)
    requires AllDone(pre, xs[..k], GenreEffect(rules, dryrun))
    modifies item
    ensures rc == (if GenreEffect(rules, dryrun).fails(item, pre[k]) then 1 else 0)
    ensures AllDone(pre, xs[..k + 1], GenreEffect(rules, dryrun))
  {
    assert item !in ItemSet(xs[..k]);
    rc := ProcessItem(item, rules, dryrun);
    assert StateOf(item) == GenreEffect(rules, dryrun).after(item, pre[k]);
    assert xs[..k + 1][..k] == xs[..k];
  }

  /**
   * One selected section, seen from the section loop: its items are listed
   * and the item loop runs over them, or the listing fails (`listing` is
   * `None`) and the section loop ends with 1. `vw` is the work of the
   * section; it follows the processed items `done` in the work `full` of
   * the whole section loop. `pre` holds the states the items of `full` had
   * before the section loop, which the items not yet processed still have.
   * When it returns 1 the section loop ends with it, after `n` processed
   * items; otherwise every item of the section was processed without
   * failure and the items after it still have their states from `pre`.
   */
  method CleanupSection(listing: Option<seq<Item>>, ghost vw: Work, ghost pool: set<Item>, ghost full: Work,
                        ghost pre: seq<ItemState>, ghost done: seq<Item>, rules: Rules, dryrun: bool)
    returns (rc: int, ghost m: nat, ghost n: nat)
    requires vw == ListingWork(listing, false)
    requires && |pre| == |full.items| && Distinct(full.items) && ItemSet(full.items) <= pool
             && done + vw.items <= full.items && (vw.stop ==> full == Work(done + vw.items, true))
             && States(full.items[|done|..]) == pre[|done|..]
    requires Processed(pre, GenreEffect(rules, dryrun), done)
    modifies pool - ItemSet(done)
    ensures && m <= |vw.items| && n == |done| + m
            && (rc != 0 ==> Outcome(full, pre, GenreEffect(rules, dryrun), rc, n) && full.items[..n] == done + vw.items[..m])
            && (rc == 0 ==> m == |vw.items| && !vw.stop)
            && (rc == 0 ==> Processed(pre, GenreEffect(rules, dryrun), done + vw.items))
            && (rc == 0 ==> States(full.items[|done + vw.items|..]) == pre[|done + vw.items|..])
            && unchanged(pool - ItemSet(done) - ItemSet(vw.items[..m]))
  {
    if listing.None? {
      rc, m, n := 1, 0, |done|;
      ChunkOutcome(full, pre, GenreEffect(rules, dryrun), done, vw, rc, m, n);
      return;
    }
    rc, m, n := CleanupListing(listing.value, vw, pool, full, pre, done, rules, dryrun);
  }

  /** `CleanupSection` when the listing gave `items`. */
  method CleanupListing(items: seq<Item>, ghost vw: Work, ghost pool: set<Item>, ghost full: Work,
                        ghost pre: seq<ItemState>, ghost done: seq<Item>, rules: Rules, dryrun: bool)
    returns (rc: int, ghost m: nat, ghost n: nat)
    requires vw == ItemsWork(items, false)
    requires && |pre| == |full.items| && Distinct(full.items) && ItemSet(full.items) <= pool
             && done + vw.items <= full.items && (vw.stop ==> full == Work(done + vw.items, true))
             && States(full.items[|done|..]) == pre[|done|..]
    requires Processed(pre, GenreEffect(rules, dryrun), done)
    modifies pool - ItemSet(done)
    ensures && m <= |vw.items| && n == |done| + m
            && (rc != 0 ==> Outcome(full, pre, GenreEffect(rules, dryrun), rc, n) && full.items[..n] == done + vw.items[..m])
            && (rc == 0 ==> m == |vw.items| && !vw.stop)
            && (rc == 0 ==> Processed(pre, GenreEffect(rules, dryrun), done + vw.items))
            && (rc == 0 ==> States(full.items[|done + vw.items|..]) == pre[|done + vw.items|..])
            && unchanged(pool - ItemSet(done) - ItemSet(vw.items[..m]))
  {
    ChunkReady(full.items, pre, done, vw.items);
    rc, m := CleanupKept(items, vw, pool, full, pre, done, rules, dryrun);
    n := |done| + m;
    ChunkOutcome(full, pre, GenreEffect(rules, dryrun), done, vw, rc, m, n);
  }

  /** `CleanupListing` before its outcome is lifted: the items processed before keep their states. */
  method CleanupKept(items: seq<Item>, ghost vw: Work, ghost pool: set<Item>, ghost full: Work,
                     ghost pre: seq<ItemState>, ghost done: seq<Item>, rules: Rules, dryrun: bool)
    returns (rc: int, ghost m: nat)
    requires vw == ItemsWork(items, false)
    requires && |done + vw.items| <= |pre| <= |full.items| && Distinct(vw.items)
             && ItemSet(vw.items) <= pool && ItemSet(done) !! ItemSet(vw.items)
             && ItemSet(vw.items) !! ItemSet(full.items[|done + vw.items|..])
             && States(vw.items) == pre[|done|..|done + vw.items|]
             && States(full.items[|done + vw.items|..]) == pre[|done + vw.items|..]
    requires Processed(pre, GenreEffect(rules, dryrun), done)
    modifies pool - ItemSet(done)
    ensures Processed(pre, GenreEffect(rules, dryrun), done)
    ensures && m <= |vw.items|
            && Outcome(vw, pre[|done|..|done + vw.items|], GenreEffect(rules, dryrun), rc, m)
            && States(full.items[|done + vw.items|..]) == pre[|done + vw.items|..]
            && unchanged(pool - ItemSet(done) - ItemSet(vw.items[..m]))
  {
    rc, m := CleanupSlice(items, vw, pool, full, pre, done, rules, dryrun);
  }

  /** `CleanupItems` on the states of the section's items, which sit at `|done|` in `pre`. */
  method CleanupSlice(items: seq<Item>, ghost vw: Work, ghost pool: set<Item>, ghost full: Work,
                      ghost pre: seq<ItemState>, ghost done: seq<Item>, rules: Rules, dryrun: bool)
    returns (rc: int, ghost m: nat)
    requires vw == ItemsWork(items, false)
    requires && |done + vw.items| <= |pre| <= |full.items| && Distinct(vw.items)
             && ItemSet(vw.items) <= pool && ItemSet(done) !! ItemSet(vw.items)
             && ItemSet(vw.items) !! ItemSet(full.items[|done + vw.items|..])
             && States(vw.items) == pre[|done|..|done + vw.items|]
             && States(full.items[|done + vw.items|..]) == pre[|done + vw.items|..]
    modifies pool - ItemSet(done)
    ensures && m <= |vw.items|
            && Outcome(vw, pre[|done|..|done + vw.items|], GenreEffect(rules, dryrun), rc, m)
            && States(full.items[|done + vw.items|..]) == pre[|done + vw.items|..]
            && unchanged(pool - ItemSet(done) - ItemSet(vw.items[..m]))
  {
    rc, m := CleanupItems(items, pre[|done|..|done + vw.items|], ItemSet(vw.items), rules, dryrun);
  }

  /**
   * The section loop of `run`, over the listed sections `all`: the items
   * of the selected sections are processed in order, and the loop stops
   * at the first item whose processing fails, at an item that is neither
   * a movie nor a show, and at a selected section whose items cannot be
   * listed. `n` counts the processed items.
   */
  method CleanupSections(all: seq<Section>, types: seq<string>, pattern: Option<string>,
                         search: (string, string) -> bool, rules: Rules, dryrun: bool) returns (rc: int, ghost n: nat)
    requires Distinct(SectionsWork(all, types, pattern, search, false).items)
    modifies ItemsOf(all)
    ensures var w := SectionsWork(all, types, pattern, search, false);
      Outcome(w, old(States(w.items)), GenreEffect(rules, dryrun), rc, n) && unchanged(ItemsOf(all) - ItemSet(w.items[..n]))
    ensures rc == 0 ==> forall it :: it in SelectedItems(all, types, pattern, search) ==> it.kind == "movie" || it.kind == "show"
  {
    rc, n := 0, 0;
    ghost var full := SectionsWork(all, types, pattern, search, false);
    ghost var pre := States(full.items);
    ghost var pool := ItemsOf(all);
    SectionsWorkWithin(all, types, pattern, search, false);
    assert full.items[0..] == full.items;
    ghost var done: seq<Item> := [];
    for s := 0 to |all|
      invariant rc == 0
      invariant SectionsWork(all[..s], types, pattern, search, false) == Work(done, false)
      invariant done <= full.items
      invariant Processed(pre, GenreEffect(rules, dryrun), done)
      invariant States(full.items[|done|..]) == pre[|done|..]
      invariant unchanged(pool - ItemSet(done))
    {
      ghost var next;
      rc, n, next := CleanupNextSection(all, s, types, pattern, search, pool, full, pre, done, rules, dryrun);
      if rc != 0 {
        break;
      }
      done := next;
    }
    if rc == 0 {
      assert all[..|all|] == all;
      n := |pre|;
      LoopOutcome(full, pre, GenreEffect(rules, dryrun), n);
      SectionsWorkComplete(all, types, pattern, search, false);
    }
  }

  /**
   * One turn of the section loop, at `all[s]`, after the selected sections
   * before it gave the processed items `done`: an unselected section is
   * skipped, and the items of a selected one are processed. When it
   * returns 1 the section loop ends with it, after `n` processed items;
   * otherwise `next` are the items processed so far.
   */
  method CleanupNextSection(all: seq<Section>, s: nat, types: seq<string>, pattern: Option<string>,
                            search: (string, string) -> bool, ghost pool: set<Item>, ghost full: Work,
                            ghost pre: seq<ItemState>, ghost done: seq<Item>, rules: Rules, dryrun: bool)
    returns (rc: int, ghost n: nat, ghost next: seq<Item>)
    requires s < |all| && full == SectionsWork(all, types, pattern, search, false)
    requires && |pre| == |full.items| && Distinct(full.items) && ItemSet(full.items) <= pool
    requires SectionsWork(all[..s], types, pattern, search, false) == Work(done, false)
    requires done <= full.items && Processed(pre, GenreEffect(rules, dryrun), done)
    requires States(full.items[|done|..]) == pre[|done|..]
    modifies pool - ItemSet(done)
    ensures rc == 0 ==>
      && SectionsWork(all[..s + 1], types, pattern, search, false) == Work(next, false)
      && next <= full.items && Processed(pre, GenreEffect(rules, dryrun), next)
      && States(full.items[|next|..]) == pre[|next|..]
      && ItemSet(done) <= ItemSet(next) && unchanged(pool - ItemSet(next))
    ensures rc != 0 ==>
      && Outcome(full, pre, GenreEffect(rules, dryrun), rc, n)
      && ItemSet(done) <= ItemSet(full.items[..n]) && unchanged(pool - ItemSet(full.items[..n]))
  {
    SectionNext(all, types, pattern, search, false, s, done);
    var section := all[s];
    if !Selected(section, types, pattern, search) {
      rc, n, next := 0, |done|, done;
      return;
    }
    ghost var vw := ListingWork(section.items, false);
    ghost var m;
    rc, m, n := CleanupSection(section.items, vw, pool, full, pre, done, rules, dryrun);
    ItemSetAppend(done, vw.items[..m]);
    if rc == 0 {
      assert vw.items[..m] == vw.items;
    }
    next := done + vw.items;
  }

  /** The items a run over `sections` may change. */
  function Listed(sections: Option<seq<Section>>): set<Item> {
    if sections.Some? then ItemsOf(sections.value) else {}
  }

  /**
   * The first steps of `run`: the rules of the cleanup entry for
   * `language`, or `None` when `language` is unset or empty, or when no
   * entry has that language (`run` then returns 1).
   */
  method CleanupRules(cleanups: seq<CleanupEntry>, language: Option<string>) returns (rules: Option<Rules>)
    ensures rules.Some? <==> language.Some? && language.value != "" && LastMatching(cleanups, language.value).Some?
    ensures rules.Some? ==> rules.value == RulesOf(LastMatching(cleanups, language.value).value)
  {
    if language.None? || language.value == "" {
      return None;
    }
    var entry := SelectCleanup(cleanups, language.value);
    if entry.None? {
      return None;
    }
    var rev := ReversedChangeDict(entry.value.change);
    rules := Some(Rules(rev, entry.value.remove, entry.value.ifEmpty));
  }

  /** The configuration lets the section loop start. */
  predicate SetUp(sections: Option<seq<Section>>, cleanups: seq<CleanupEntry>,
                  sectionTypes: SectionTypesArg, language: Option<string>) {
    && language.Some? && language.value != "" && LastMatching(cleanups, language.value).Some?
    && SectionTypes(sectionTypes).Some? && sections.Some?
  }

  /**
   * `CleanupGenre.run`. Fails (1) without a `language`, without a matching
   * cleanup entry (the last matching one is used), with an invalid section
   * type, or when listing the sections raises, before touching any item.
   * Otherwise it runs the section loop (`CleanupSections`) with the rules
   * of that entry: the items of the selected sections are processed in
   * order, `n` of them, up to and including the first whose processing
   * fails, and 0 is returned only when every item was processed without
   * failure and no section or item stopped the loop. Items are distinct
   * objects.
   */
  method Run(sections: Option<seq<Section>>, search: (string, string) -> bool, dryrun: bool,
             cleanups: seq<CleanupEntry>, sectionTypes: SectionTypesArg,
             sectionPattern: Option<string>, language: Option<string>) returns (rc: int, ghost n: nat)
    requires SetUp(sections, cleanups, sectionTypes, language) ==>
      Distinct(SectionsWork(sections.value, SectionTypes(sectionTypes).value, sectionPattern, search, false).items)
    modifies Listed(sections)
    ensures !SetUp(sections, cleanups, sectionTypes, language) ==> rc == 1 && n == 0 && unchanged(Listed(sections))
    ensures SetUp(sections, cleanups, sectionTypes, language) ==>
      var w := SectionsWork(sections.value, SectionTypes(sectionTypes).value, sectionPattern, search, false);
      var rules := RulesOf(LastMatching(cleanups, language.value).value);
      Outcome(w, old(States(w.items)), GenreEffect(rules, dryrun), rc, n) && unchanged(Listed(sections) - ItemSet(w.items[..n]))
    ensures rc == 0 ==>
      (&& sections.Some? && SectionTypes(sectionTypes).Some?
       && forall it :: it in SelectedItems(sections.value, SectionTypes(sectionTypes).value, sectionPattern, search)
            ==> it.kind == "movie" || it.kind == "show")
  {
    n := 0;
    var configured := CleanupRules(cleanups, language);
    if configured.None? {
      return 1, n;
    }
    var rules := configured.value;
    var types := SectionTypes(sectionTypes);
    if types.None? {
      return 1, n;
    }
    if sections.None? {
      return 1, n;
    }
    ghost var w := SectionsWork(sections.value, types.value, sectionPattern, search, false);
    SectionsWorkWithin(sections.value, types.value, sectionPattern, search, false);
    assert forall x :: x in ItemSet(w.items) ==> old(allocated(x)) by {
      forall x | x in ItemSet(w.items)
        ensures old(allocated(x))
      {
        var sec, k :| sec in sections.value && sec.items.Some? && 0 <= k < |sec.items.value| && sec.items.value[k] == x;
      }
    }
    assert States(w.items) == old(States(w.items));
    rc, n := CleanupSections(sections.value, types.value, sectionPattern, search, rules, dryrun);
  }
}
