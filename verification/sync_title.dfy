/**
 * The "sync title" fixup: the title field of every movie and episode is
 * set to the title tag found in its media files. A server file name is
 * turned into a local one through the configured path mappings, the
 * title tag of each local file is read with a probe (ffprobe in the
 * original program), and the item is edited only when all files agree on
 * a non-empty tag that differs from the current title.
 */
module SyncTitle {
  import opened Wrappers
  import opened Text
  import opened Paths
  import opened Catalog

  // ---------------------------------------------------------------------
  // local_path
  // ---------------------------------------------------------------------

  /** One entry of the `path_mappings` configuration. */
  datatype Mapping = Mapping(server: string, local: string)

  /** A path with every '\' turned into '/'. */
  function Slashed(p: string): (r: string)
    ensures |r| == |p| && '\\' !in r
  {
    ReplaceChar(p, '\\', '/')
  }

  /** The server root of a mapping, with '/' separators and a trailing '/'. */
  function ServerRoot(m: Mapping): (root: string)
    ensures |root| > 0 && root[|root| - 1] == '/' && '\\' !in root
    ensures |root| == |m.server| || |root| == |m.server| + 1
    ensures root[..|m.server|] == Slashed(m.server)
  {
    var r := Slashed(m.server);
    if r != [] && r[|r| - 1] == '/' then r else r + "/"
  }

  /** The mapping applies to the server path: its root is a prefix of it. */
  predicate Matches(m: Mapping, serverPath: string) {
    ServerRoot(m) <= Slashed(serverPath)
  }

  /**
   * The local path a matching mapping gives: the local root (with '/'
   * separators) joined with what follows the server root.
   */
  function Translate(m: Mapping, serverPath: string): string
    requires Matches(m, serverPath)
  {
    PathJoin(Slashed(m.local), Slashed(serverPath)[|ServerRoot(m)|..])
  }

  /** `local_path`: the first mapping in list order that matches wins. */
  function LocalPath(serverPath: string, mappings: seq<Mapping>): Option<string> {
    if mappings == [] then None
    else if Matches(mappings[0], serverPath) then Some(Translate(mappings[0], serverPath))
    else LocalPath(serverPath, mappings[1..])
  }

  /** A path is mapped exactly when some mapping matches it. */
  lemma {:induction false} LocalPathDefined(serverPath: string, mappings: seq<Mapping>)
    ensures LocalPath(serverPath, mappings).Some? <==>
      exists i :: 0 <= i < |mappings| && Matches(mappings[i], serverPath)
    decreases |mappings|
  {
    if mappings != [] && !Matches(mappings[0], serverPath) {
      var rest := mappings[1..];
      LocalPathDefined(serverPath, rest);
      assert forall i :: 1 <= i < |mappings| ==> mappings[i] == rest[i - 1];
    }
  }

  /** A mapped path is translated by the first mapping that matches it. */
  lemma {:induction false} LocalPathFirstMatch(serverPath: string, mappings: seq<Mapping>, i: nat)
    requires i < |mappings| && Matches(mappings[i], serverPath)
    requires forall j :: 0 <= j < i ==> !Matches(mappings[j], serverPath)
    ensures LocalPath(serverPath, mappings) == Some(Translate(mappings[i], serverPath))
    decreases i
  {
    if i > 0 {
      assert !Matches(mappings[0], serverPath);
      assert mappings[1..][i - 1] == mappings[i];
      forall j | 0 <= j < i - 1
        ensures !Matches(mappings[1..][j], serverPath)
      {
        assert mappings[1..][j] == mappings[j + 1];
      }
      LocalPathFirstMatch(serverPath, mappings[1..], i - 1);
    }
  }

  /**
   * A server path equal to a mapping's root written without a trailing
   * '/' is not mapped by it: the root gains a '/' and is then longer.
   */
  lemma RootItselfDoesNotMatch(root: string, local: string)
    requires root != [] && '\\' !in root && root[|root| - 1] != '/'
    ensures LocalPath(root, [Mapping(root, local)]) == None
  {
    var m := Mapping(root, local);
    assert Slashed(root)[|root| - 1] == root[|root| - 1];
    assert |ServerRoot(m)| == |root| + 1;
  }

  /**
   * The remainder after the server root ends the local path, unless it is
   * itself absolute (a doubled separator after the root), in which case
   * it replaces the local root altogether.
   */
  lemma TranslateKeepsRemainder(m: Mapping, serverPath: string)
    requires Matches(m, serverPath)
    ensures var rest := Slashed(serverPath)[|ServerRoot(m)|..];
      var r := Translate(m, serverPath);
      && (!IsAbs(rest) ==> |r| >= |rest| && r[|r| - |rest|..] == rest && r[..|Slashed(m.local)|] == Slashed(m.local))
      && (IsAbs(rest) ==> r == rest)
  {
  }

  /** The separators of the example below, with '/' for every '\'. */
  lemma ExampleSlashes()
    ensures Slashed("\\\\n") == "//n"
    ensures Slashed("\\\\n\\a.mkv") == "//n/a.mkv"
    ensures Slashed("/m") == "/m"
  {
    assert forall i :: 0 <= i < 3 ==> Slashed("\\\\n")[i] == "//n"[i];
    assert forall i :: 0 <= i < 9 ==> Slashed("\\\\n\\a.mkv")[i] == "//n/a.mkv"[i];
    assert forall i :: 0 <= i < 2 ==> Slashed("/m")[i] == "/m"[i];
  }

  /** The mapping of the example below applies to its server path and translates it. */
  lemma ExampleTranslate()
    ensures ServerRoot(Mapping("\\\\n", "/m")) == "//n/"
    ensures Matches(Mapping("\\\\n", "/m"), "\\\\n\\a.mkv")
    ensures Translate(Mapping("\\\\n", "/m"), "\\\\n\\a.mkv") == "/m/a.mkv"
  {
    ExampleSlashes();
    assert "//n/" <= "//n/a.mkv";
    assert "//n/a.mkv"[4..] == "a.mkv";
    assert PathJoin("/m", "a.mkv") == "/m/a.mkv";
  }

  /** Backslashes in the server path and in the root are normalised. */
  lemma LocalPathExample()
    ensures LocalPath("\\\\n\\a.mkv", [Mapping("\\\\n", "/m")]) == Some("/m/a.mkv")
  {
    ExampleTranslate();
    LocalPathFirstMatch("\\\\n\\a.mkv", [Mapping("\\\\n", "/m")], 0);
  }

  // ---------------------------------------------------------------------
  // Title tags and their agreement
  // ---------------------------------------------------------------------

  /**
   * What reading the title tag of a local file gives: no title tag, a
   * title, or a failure of the probe (the program prints an error).
   */
  datatype ProbeResult = NoTitle | Title(title: string) | Failed

  /**
   * The state of the agreement loop: the tag agreed so far (`None` while
   * only files without a tag were seen), or a disagreement, which makes
   * the item be skipped.
   */
  datatype Agreement<T> = Pending(tag: Option<T>) | Disagree

  /**
   * The agreement of the tags of an item's files, in order: the first tag
   * that is not `None` is taken, and any later tag that differs from it,
   * `None` included, is a disagreement.
   */
  function Agree<T(==)>(tags: seq<Option<T>>): Agreement<T> {
    if tags == [] then Pending(None)
    else
      var a := Agree(tags[..|tags| - 1]);
      var t := tags[|tags| - 1];
      match a
      case Disagree => Disagree
      case Pending(None) => Pending(t)
      case Pending(Some(x)) => if t == Some(x) then a else Disagree
  }

  /** `f` is the index of the first tag that is not `None`. */
  ghost predicate FirstTagAt<T>(tags: seq<Option<T>>, f: int) {
    0 <= f < |tags| && tags[f].Some? && forall i :: 0 <= i < f ==> tags[i].None?
  }

  lemma AgreeStep<T>(tags: seq<Option<T>>, k: nat)
    requires k < |tags|
    ensures Agree(tags[..k + 1])
         == (match Agree(tags[..k])
             case Disagree => Disagree
             case Pending(None) => Pending(tags[k])
             case Pending(Some(x)) => if tags[k] == Some(x) then Pending(Some(x)) else Disagree)
  {
    assert tags[..k + 1][..k] == tags[..k];
  }

  /**
   * The agreement, stated without the loop: no tag at all when every file
   * has none; the tag `x` exactly when the first file with a tag has `x`
   * and so does every later file.
   */
  lemma {:induction false} AgreeMeaning<T>(tags: seq<Option<T>>, x: T)
    ensures Agree(tags) == Pending(None) <==> forall i :: 0 <= i < |tags| ==> tags[i].None?
    ensures Agree(tags) == Pending(Some(x)) <==>
      exists f :: FirstTagAt(tags, f) && forall i :: f <= i < |tags| ==> tags[i] == Some(x)
    decreases |tags|
  {
    if tags != [] {
      var init := tags[..|tags| - 1];
      var t := tags[|tags| - 1];
      AgreeMeaning(init, x);
      assert forall i :: 0 <= i < |init| ==> init[i] == tags[i];
      if Agree(tags) == Pending(Some(x)) {
        if Agree(init) == Pending(None) {
          assert FirstTagAt(tags, |tags| - 1);
        } else {
          var f :| FirstTagAt(init, f) && forall i :: f <= i < |init| ==> init[i] == Some(x);
          assert FirstTagAt(tags, f);
        }
      }
      if exists f :: FirstTagAt(tags, f) && forall i :: f <= i < |tags| ==> tags[i] == Some(x) {
        var f :| FirstTagAt(tags, f) && forall i :: f <= i < |tags| ==> tags[i] == Some(x);
        if f < |tags| - 1 {
          assert FirstTagAt(init, f);
        } else {
          assert forall i :: 0 <= i < |init| ==> init[i].None?;
        }
      }
    }
  }

  /** Once the files disagree, later files change nothing. */
  lemma {:induction false} DisagreeStays<T>(tags: seq<Option<T>>, k: nat)
    requires k <= |tags| && Agree(tags[..k]) == Disagree
    ensures Agree(tags) == Disagree
    decreases |tags| - k
  {
    if k < |tags| {
      AgreeStep(tags, k);
      DisagreeStays(tags, k + 1);
    } else {
      assert tags[..k] == tags;
    }
  }

  /** A file without a tag before a tagged one is ignored; after it, it is a disagreement. */
  lemma AgreeExamples()
    ensures Agree([None, Some("X")]) == Pending(Some("X"))
    ensures Agree([Some("X"), None]) == Disagree
  {
    assert [None, Some("X")][..1] == [None];
    assert [Some("X"), None][..1] == [Some("X")];
    var single: seq<Option<string>> := [None];
    assert single[..0] == [];
    assert [Some("X")][..0] == [];
  }

  // ---------------------------------------------------------------------
  // process_item
  // ---------------------------------------------------------------------

  /** The tags of an item's files, or `Abort` when a file cannot be read. */
  datatype Gathered = Tags(tags: seq<Option<string>>) | Abort

  /**
   * Reading the title tags of the server files `parts`: a file that no
   * mapping translates, that does not exist locally or whose probe fails
   * makes the item fail.
   */
  function Gather(parts: seq<string>, mappings: seq<Mapping>, exists_: string -> bool,
                  probe: string -> ProbeResult): Gathered {
    if parts == [] then Tags([])
    else
      var g := Gather(parts[..|parts| - 1], mappings, exists_, probe);
      var local := LocalPath(parts[|parts| - 1], mappings);
      if g.Abort? || local.None? || !exists_(local.value) || probe(local.value).Failed? then Abort
      else Tags(g.tags + [if probe(local.value).Title? then Some(probe(local.value).title) else None])
  }

  lemma GatherStep(parts: seq<string>, mappings: seq<Mapping>, exists_: string -> bool,
                   probe: string -> ProbeResult, k: nat)
    requires k < |parts|
    ensures var g := Gather(parts[..k], mappings, exists_, probe);
      var local := LocalPath(parts[k], mappings);
      Gather(parts[..k + 1], mappings, exists_, probe)
      == if g.Abort? || local.None? || !exists_(local.value) || probe(local.value).Failed? then Abort
         else Tags(g.tags + [if probe(local.value).Title? then Some(probe(local.value).title) else None])
  {
    assert parts[..k + 1][..k] == parts[..k];
  }

  /** Once a file fails, the whole item fails. */
  lemma {:induction false} AbortStays(parts: seq<string>, mappings: seq<Mapping>, exists_: string -> bool,
                                      probe: string -> ProbeResult, k: nat)
    requires k <= |parts| && Gather(parts[..k], mappings, exists_, probe).Abort?
    ensures Gather(parts, mappings, exists_, probe).Abort?
    decreases |parts| - k
  {
    if k < |parts| {
      GatherStep(parts, mappings, exists_, probe, k);
      AbortStays(parts, mappings, exists_, probe, k + 1);
    } else {
      assert parts[..k] == parts;
    }
  }

  /**
   * The title to set, if any: the agreed tag, unless the files disagree,
   * the tag is missing or empty, or the title already equals it.
   */
  function NewTitle(title: string, a: Agreement<string>): (r: Option<string>)
    ensures r.Some? <==> a.Pending? && a.tag.Some? && a.tag.value != "" && a.tag.value != title
    ensures r.Some? ==> r == a.tag
  {
    if a.Disagree? || a.tag.None? || a.tag.value == "" || a.tag.value == title then None
    else a.tag
  }

  /**
   * Once the title is set to the agreed tag, the same files give no new
   * title: a second run makes no edit.
   */
  lemma NewTitleConverges(title: string, a: Agreement<string>)
    requires NewTitle(title, a).Some?
    ensures NewTitle(NewTitle(title, a).value, a) == None
  {
  }

  /** The edit request that sets and locks the title. */
  function TitleFields(title: string): seq<Field> {
    [(TitleValueKey, title), (TitleLockedKey, "1")]
  }

  /** The server reads the new title from the request and changes no genre. */
  lemma TitleFieldsRead(title: string)
    ensures Lookup(TitleFields(title), TitleValueKey) == Some(title)
    ensures Lookup(TitleFields(title), GenreDeleteKey) == None
  {
    assert TitleValueKey != GenreDeleteKey by {
      assert TitleValueKey[0] != GenreDeleteKey[0];
    }
    assert TitleLockedKey != GenreDeleteKey by {
      assert TitleLockedKey[0] != GenreDeleteKey[0];
    }
    LookupMeaning(TitleFields(title), GenreDeleteKey);
  }

  /**
   * What `run` works with besides the server: the configured path
   * mappings, which local files exist, and what probing a local file gives.
   */
  datatype Media = Media(mappings: seq<Mapping>, exists_: string -> bool, probe: string -> ProbeResult)

  /** The tags of the files of `it`, or `Abort` when one cannot be read. */
  function TagsOf(it: Item, media: Media): Gathered {
    Gather(it.parts, media.mappings, media.exists_, media.probe)
  }

  /** The title `process_item` sets on `it` when its title is `title`, if any. */
  function TitleTarget(it: Item, title: string, media: Media): Option<string> {
    var g := TagsOf(it, media);
    if g.Abort? then None else NewTitle(title, Agree(g.tags))
  }

  /**
   * The state `process_item` leaves `it` in, from its state `s`: when a new
   * title is due and this is not a dry run, exactly one edit setting it is
   * sent, and the title becomes the new one unless the server rejects or
   * ignores the edit; otherwise nothing changes.
   */
  function Retitled(it: Item, s: ItemState, media: Media, dryrun: bool): ItemState {
    var t := TitleTarget(it, s.title, media);
    if t.None? || dryrun then s
    else s.(log := s.log + [Call.Edit(it.kind, it.ratingKey, TitleFields(t.value))],
            title := if s.rejectsEdits || s.ignoresEdits then s.title else t.value)
  }

  /**
   * `process_item` returns 1: a file of `it` cannot be read, or a new title
   * is due out of dry run and the edit does not take.
   */
  predicate TitleFails(it: Item, s: ItemState, media: Media, dryrun: bool) {
    TagsOf(it, media).Abort?
    || (TitleTarget(it, s.title, media).Some? && !dryrun && (s.rejectsEdits || s.ignoresEdits))
  }

  /**
   * `process_item` for one movie or episode: read the tags of its files,
   * agree on one, and set the title to it unless dry run is on; then check
   * that the reloaded title is the new one. A failing probe makes the item
   * fail before any edit (see the findings of the README for the code as
   * written).
   */
  method ProcessItem(item: Item, media: Media, dryrun: bool) returns (rc: int)
    modifies item
    ensures StateOf(item) == Retitled(item, old(StateOf(item)), media, dryrun)
    ensures rc == (if TitleFails(item, old(StateOf(item)), media, dryrun) then 1 else 0)
    ensures dryrun ==> unchanged(item)
  {
    var parts, mappings, exists_, probe := item.parts, media.mappings, media.exists_, media.probe;
    var tags: seq<Option<string>> := [];
    for k := 0 to |parts|
      invariant Gather(parts[..k], mappings, exists_, probe) == Tags(tags)
      invariant unchanged(item)
    {
      GatherStep(parts, mappings, exists_, probe, k);
      var local := LocalPath(parts[k], mappings);
      if local.None? || !exists_(local.value) {
        AbortStays(parts, mappings, exists_, probe, k + 1);
        return 1;
      }
      var result := probe(local.value);
      if result.Failed? {
        AbortStays(parts, mappings, exists_, probe, k + 1);
        return 1;
      }
      tags := tags + [if result.Title? then Some(result.title) else None];
    }
    assert parts[..|parts|] == parts;

    var tag: Option<string> := None;
    for k := 0 to |tags|
      invariant Agree(tags[..k]) == Pending(tag)
      invariant unchanged(item)
    {
      AgreeStep(tags, k);
      if tag.None? {
        tag := tags[k];
      } else if tag != tags[k] {
        DisagreeStays(tags, k + 1);
        return 0;
      }
    }
    assert tags[..|tags|] == tags;

    if tag.None? || tag.value == "" {
      return 0;
    }
    if item.title == tag.value {
      return 0;
    }
    if !dryrun {
      var newTitle := tag.value;
      TitleFieldsRead(newTitle);
      var raised := item.Edit(TitleFields(newTitle));
      if raised {
        return 1;
      }
      if item.title != newTitle {
        return 1;
      }
    }
    return 0;
  }

  // ---------------------------------------------------------------------
  // The probe failure as the code is written
  // ---------------------------------------------------------------------

  /**
   * A tag as the code as written sees it: a title string, or the integer
   * 1 that reading the tag returns when the probe fails.
   */
  datatype Tag = Text(s: string) | ErrorCode

  /** As written, a failed probe gives the tag 1 instead of failing the item. */
  function TagAsWritten(p: ProbeResult): (t: Option<Tag>)
    ensures p.Failed? ==> t == Some(ErrorCode)
    ensures p.NoTitle? <==> t.None?
  {
    match p
    case NoTitle => None
    case Title(s) => Some(Text(s))
    case Failed => Some(ErrorCode)
  }

  /**
   * The title decision as written: `not title_tag` holds for no tag and
   * the empty string only, and the integer 1 never equals a title.
   */
  function NewTitleAsWritten(title: string, a: Agreement<Tag>): (r: Option<Tag>)
    ensures a == Pending(Some(ErrorCode)) ==> r == Some(ErrorCode)
  {
    if a.Disagree? || a.tag.None? || a.tag.value == Text("") || a.tag.value == Text(title) then None
    else a.tag
  }

  /** The value the edit request carries for a tag (the integer 1 becomes "1"). */
  function EditValue(t: Tag): string {
    match t
    case Text(s) => s
    case ErrorCode => "1"
  }

  /**
   * As written, an item with one file whose probe fails is edited (out of
   * dry run) to the title "1", whatever its title was; and the check after
   * the edit compares the reloaded title, a string, with the integer 1, so
   * it reports a failure even when the server applied the edit.
   */
  lemma ProbeFailureSetsTitleOne(title: string)
    ensures Agree([TagAsWritten(Failed)]) == Pending(Some(ErrorCode))
    ensures NewTitleAsWritten(title, Agree([TagAsWritten(Failed)])) == Some(ErrorCode)
    ensures Lookup(TitleFields(EditValue(ErrorCode)), TitleValueKey) == Some("1")
    ensures forall s :: Text(s) != ErrorCode
  {
    assert [TagAsWritten(Failed)][..0] == [];
    TitleFieldsRead("1");
  }

  /** The corrected item processing never edits an item one of whose files fails to probe. */
  lemma ProbeFailureFailsItem(parts: seq<string>, mappings: seq<Mapping>, exists_: string -> bool,
                              probe: string -> ProbeResult, k: nat)
    requires k < |parts|
    requires var local := LocalPath(parts[k], mappings);
      local.Some? && exists_(local.value) && probe(local.value).Failed?
    ensures Gather(parts, mappings, exists_, probe).Abort?
  {
    GatherStep(parts, mappings, exists_, probe, k);
    AbortStays(parts, mappings, exists_, probe, k + 1);
  }

  // ---------------------------------------------------------------------
  // run
  // ---------------------------------------------------------------------

  /** The effect of `process_item` of the title sync on one item. */
  function TitleEffect(media: Media, dryrun: bool): Effect {
    Effect((it: Item, s: ItemState) => Retitled(it, s, media, dryrun),
           (it: Item, s: ItemState) => TitleFails(it, s, media, dryrun))
  }

  /** In a dry run, every item a loop processed keeps the state it had. */
  lemma DryRunKeepsStates(w: Work, pre: seq<ItemState>, media: Media, rc: int, n: nat)
    requires Outcome(w, pre, TitleEffect(media, true), rc, n)
    ensures States(w.items[..n]) == pre[..n]
  {
    AllDoneIdle(pre, w.items[..n], TitleEffect(media, true));
  }

  /**
   * The episode loop of a show: the episodes `xs` are processed in order,
   * and the loop stops at the first whose processing fails. `pre` holds
   * their states before; `n` counts the processed episodes.
   */
  method ProcessEach(xs: seq<Item>, ghost pre: seq<ItemState>, ghost pool: set<Item>, media: Media, dryrun: bool)
    returns (rc: int, ghost n: nat)
    requires Distinct(xs) && ItemSet(xs) <= pool && pre == States(xs)
    modifies pool
    ensures Outcome(Work(xs, false), pre, TitleEffect(media, dryrun), rc, n) && unchanged(pool - ItemSet(xs[..n]))
  {
    rc, n := 0, |xs|;
    assert xs[0..] == xs && xs[..0] == [];
    for k := 0 to |xs|
      invariant rc == 0 && n == |xs|
      invariant Processed(pre, TitleEffect(media, dryrun), xs[..k])
      invariant States(xs[k..]) == pre[k..]
      invariant unchanged(pool - ItemSet(xs[..k]))
    {
      rc, n := ProcessTurn(xs, k, pre, pool, media, dryrun);
      if rc != 0 {
        break;
      }
      n := |xs|;
    }
    if rc == 0 {
      assert xs[..|xs|] == xs;
      LoopOutcome(Work(xs, false), pre, TitleEffect(media, dryrun), n);
    }
  }

  /**
   * One turn of the episode loop, at `xs[k]`, after the episodes before it
   * were processed without failure: `xs[k]` is processed, and the loop
   * goes on when that succeeds. When it returns 1 the loop ends with it,
   * after `n` processed episodes.
   */
  method ProcessTurn(xs: seq<Item>, k: nat, ghost pre: seq<ItemState>, ghost pool: set<Item>, media: Media, dryrun: bool)
    returns (rc: int, ghost n: nat)
    requires k < |xs| == |pre| && Distinct(xs) && ItemSet(xs) <= pool
    requires Processed(pre, TitleEffect(media, dryrun), xs[..k]) && States(xs[k..]) == pre[k..]
    modifies pool - ItemSet(xs[..k])
    ensures rc == 0 ==>
      && Processed(pre, TitleEffect(media, dryrun), xs[..k + 1]) && States(xs[k + 1..]) == pre[k + 1..]
      && unchanged(pool - ItemSet(xs[..k + 1]))
    ensures rc != 0 ==>
      && Outcome(Work(xs, false), pre, TitleEffect(media, dryrun), rc, n)
      && ItemSet(xs[..k]) <= ItemSet(xs[..n]) && unchanged(pool - ItemSet(xs[..n]))
  {
    TurnReady(xs, pre, k);
    rc := ProcessStep(xs, k, pre, media, dryrun);
    n := k + 1;
    ItemSetSnoc(xs, k);
    TurnOutcome(xs, pre, TitleEffect(media, dryrun), k, rc, n);
  }

  /** `xs[k]` is processed, after the items before it. */
  method ProcessStep(xs: seq<Item>, k: nat, ghost pre: seq<ItemState>, media: Media, dryrun: bool)
    returns (rc: int)
    requires k < |pre| == |xs|
    requires xs[k] !in xs[..k] && pre[k] == StateOf(xs[k])
    requires AllDone(pre, xs[..k], TitleEffect(media, dryrun))
    modifies xs[k]
    ensures rc == (if TitleEffect(media, dryrun).fails(xs[k], pre[k]) then 1 else 0)
    ensures AllDone(pre, xs[..k + 1], TitleEffect(media, dryrun))
  {
    assert xs[k] !in ItemSet(xs[..k]);
    rc := ProcessItem(xs[k], media, dryrun);
    assert xs[..k + 1][..k] == xs[..k];
  }

  /**
   * The items `run` hands to `process_item` for one listed item: a movie
   * itself, the episodes of a show; a show whose episodes cannot be listed
   * and an item of another type stop the loop.
   */
  function ItemWork(it: Item): Work {
    match Expand(it, true)
    case None => Work([], true)
    case Some(xs) => Work(xs, false)
  }

  /**
   * One listed item of a section: a movie is processed; a show has its
   * episodes listed and processed in order (`ProcessEach`); a show whose
   * episodes cannot be listed and an item of any other type end the loop
   * with 1. `pre` holds the states of the items to process; `n` counts
   * the processed ones.
   */
  method HandleItem(item: Item, ghost pre: seq<ItemState>, ghost pool: set<Item>, media: Media, dryrun: bool)
    returns (rc: int, ghost n: nat)
    requires var w := ItemWork(item); Distinct(w.items) && ItemSet(w.items) <= pool && pre == States(w.items)
    modifies pool
    ensures var w := ItemWork(item); Outcome(w, pre, TitleEffect(media, dryrun), rc, n) && unchanged(pool - ItemSet(w.items[..n]))
  {
    if item.kind == "movie" {
      assert States([item]) == [StateOf(item)];
      rc := ProcessItem(item, media, dryrun);
      n := 1;
      assert [item][..1] == [item] && [item][..0] == [];
      FirstFailureIs([item], pre, if rc == 0 then 1 else 0, TitleEffect(media, dryrun));
    } else if item.kind == "show" {
      if item.episodes.None? {
        return 1, 0;
      }
      var episodes := item.episodes.value;
      EpisodesReady(episodes, pre, pool);
      rc, n := ProcessEach(episodes, pre, pool, media, dryrun);
    } else {
      return 1, 0;
    }
  }

  /** What the episode loop needs, from the facts `HandleItem` is given about the episodes. */
  lemma EpisodesReady(xs: seq<Item>, pre: seq<ItemState>, pool: set<Item>)
    requires Distinct(xs) && ItemSet(xs) <= pool && pre == States(xs)
    ensures |pre| == |xs|
    ensures forall j :: 0 <= j < |xs| ==> xs[j] in pool && pre[j] == StateOf(xs[j])
    ensures forall j :: 0 <= j < |xs| ==> xs[j] !in xs[..j]
  {
    forall j | 0 <= j < |xs|
      ensures xs[j] in pool && pre[j] == StateOf(xs[j]) && xs[j] !in xs[..j]
    {
      StatesAt(xs, j);
      DistinctAt(xs, j);
    }
  }

  /**
   * The item loop of one section: the listed items are handled in order
   * (`HandleItem`), and the loop stops at the first item whose processing
   * fails, at a show whose episodes cannot be listed and at an item of
   * another type. `pre` holds the states of the items to process; `n`
   * counts the processed ones.
   */
  method HandleItems(items: seq<Item>, ghost pre: seq<ItemState>, ghost pool: set<Item>, media: Media, dryrun: bool)
    returns (rc: int, ghost n: nat)
    requires var w := ItemsWork(items, true); Distinct(w.items) && ItemSet(w.items) <= pool && pre == States(w.items)
    modifies pool
    ensures var w := ItemsWork(items, true); Outcome(w, pre, TitleEffect(media, dryrun), rc, n) && unchanged(pool - ItemSet(w.items[..n]))
  {
    rc, n := 0, 0;
    ghost var full := ItemsWork(items, true);
    assert full.items[0..] == full.items;
    ghost var done: seq<Item> := [];
    for k := 0 to |items|
      invariant rc == 0
      invariant ItemsWork(items[..k], true) == Work(done, false)
      invariant done <= full.items
      invariant Processed(pre, TitleEffect(media, dryrun), done)
      invariant States(full.items[|done|..]) == pre[|done|..]
      invariant unchanged(pool - ItemSet(done))
    {
      ghost var next;
      rc, n, next := HandleNextItem(items, k, pool, full, pre, done, media, dryrun);
      if rc != 0 {
        break;
      }
      done := next;
    }
    if rc == 0 {
      assert items[..|items|] == items;
      n := |pre|;
      LoopOutcome(full, pre, TitleEffect(media, dryrun), n);
    }
  }

  /**
   * One turn of the item loop, at `items[k]`, after the items before it
   * gave the processed items `done`. When it returns 1 the item loop ends
   * with it, after `n` processed items; otherwise `next` are the items
   * processed so far.
   */
  method HandleNextItem(items: seq<Item>, k: nat, ghost pool: set<Item>, ghost full: Work,
                        ghost pre: seq<ItemState>, ghost done: seq<Item>, media: Media, dryrun: bool)
    returns (rc: int, ghost n: nat, ghost next: seq<Item>)
    requires k < |items| && full == ItemsWork(items, true)
    requires && |pre| == |full.items| && Distinct(full.items) && ItemSet(full.items) <= pool
    requires ItemsWork(items[..k], true) == Work(done, false)
    requires done <= full.items && Processed(pre, TitleEffect(media, dryrun), done)
    requires States(full.items[|done|..]) == pre[|done|..]
    modifies pool - ItemSet(done)
    ensures rc == 0 ==>
      && ItemsWork(items[..k + 1], true) == Work(next, false)
      && next <= full.items && Processed(pre, TitleEffect(media, dryrun), next)
      && States(full.items[|next|..]) == pre[|next|..]
      && ItemSet(done) <= ItemSet(next) && unchanged(pool - ItemSet(next))
    ensures rc != 0 ==>
      && Outcome(full, pre, TitleEffect(media, dryrun), rc, n)
      && ItemSet(done) <= ItemSet(full.items[..n]) && unchanged(pool - ItemSet(full.items[..n]))
  {
    ItemNext(items, k, done);
    ghost var vw := ItemWork(items[k]);
    ghost var m;
    rc, m, n := ItemChunk(items[k], vw, pool, full, pre, done, media, dryrun);
    ItemSetAppend(done, vw.items[..m]);
    if rc == 0 {
      assert vw.items[..m] == vw.items;
    }
    next := done + vw.items;
  }

  /**
   * One turn of the item loop, after the items before `k` gave the items
   * `done` and no stop: the work of `items[k]` follows `done` in the whole
   * work.
   */
  lemma ItemNext(items: seq<Item>, k: nat, done: seq<Item>)
    requires k < |items| && ItemsWork(items[..k], true) == Work(done, false)
    ensures var full, vw := ItemsWork(items, true), ItemWork(items[k]);
      && ItemsWork(items[..k + 1], true) == Work(done + vw.items, vw.stop)
      && done + vw.items <= full.items
      && (vw.stop ==> full == Work(done + vw.items, true))
  {
    ItemsWorkStep(items, true, k);
    ItemsWorkPrefix(items, true, k + 1);
    if Expand(items[k], true).None? {
      assert done + [] == done;
    }
  }

  /**
   * The items of one listed item, seen from the item loop: `vw` is their
   * work; it follows the processed items `done` in the work `full` of the
   * whole loop, whose items had the states `pre` and, from `done` on,
   * still have them. When it returns 1 the loop ends with it, after `n`
   * processed items; otherwise every item of `vw` was processed without
   * failure and the items after them still have their states from `pre`.
   */
  method ItemChunk(item: Item, ghost vw: Work, ghost pool: set<Item>, ghost full: Work,
                   ghost pre: seq<ItemState>, ghost done: seq<Item>, media: Media, dryrun: bool)
    returns (rc: int, ghost m: nat, ghost n: nat)
    requires vw == ItemWork(item)
    requires && |pre| == |full.items| && Distinct(full.items) && ItemSet(full.items) <= pool
             && done + vw.items <= full.items && (vw.stop ==> full == Work(done + vw.items, true))
             && States(full.items[|done|..]) == pre[|done|..]
    requires Processed(pre, TitleEffect(media, dryrun), done)
    modifies pool - ItemSet(done)
    ensures && m <= |vw.items| && n == |done| + m
            && (rc != 0 ==> Outcome(full, pre, TitleEffect(media, dryrun), rc, n) && full.items[..n] == done + vw.items[..m])
            && (rc == 0 ==> m == |vw.items| && !vw.stop)
            && (rc == 0 ==> Processed(pre, TitleEffect(media, dryrun), done + vw.items))
            && (rc == 0 ==> States(full.items[|done + vw.items|..]) == pre[|done + vw.items|..])
            && unchanged(pool - ItemSet(done) - ItemSet(vw.items[..m]))
  {
    ChunkReady(full.items, pre, done, vw.items);
    rc, m := ItemChunkKept(item, vw, pool, full, pre, done, media, dryrun);
    n := |done| + m;
    ChunkOutcome(full, pre, TitleEffect(media, dryrun), done, vw, rc, m, n);
  }

  /** `ItemChunk` before its outcome is lifted: the items processed before keep their states. */
  method ItemChunkKept(item: Item, ghost vw: Work, ghost pool: set<Item>, ghost full: Work,
                       ghost pre: seq<ItemState>, ghost done: seq<Item>, media: Media, dryrun: bool)
    returns (rc: int, ghost m: nat)
    requires vw == ItemWork(item)
    requires && |done + vw.items| <= |pre| <= |full.items| && Distinct(vw.items)
             && ItemSet(vw.items) <= pool && ItemSet(done) !! ItemSet(vw.items)
             && ItemSet(vw.items) !! ItemSet(full.items[|done + vw.items|..])
             && States(vw.items) == pre[|done|..|done + vw.items|]
             && States(full.items[|done + vw.items|..]) == pre[|done + vw.items|..]
    requires Processed(pre, TitleEffect(media, dryrun), done)
    modifies pool - ItemSet(done)
    ensures Processed(pre, TitleEffect(media, dryrun), done)
    ensures && m <= |vw.items|
            && Outcome(vw, pre[|done|..|done + vw.items|], TitleEffect(media, dryrun), rc, m)
            && States(full.items[|done + vw.items|..]) == pre[|done + vw.items|..]
            && unchanged(pool - ItemSet(done) - ItemSet(vw.items[..m]))
  {
    rc, m := ItemChunkSlice(item, vw, pool, full, pre, done, media, dryrun);
  }

  /** `HandleItem` on the states of its items, which sit at `|done|` in `pre`. */
  method ItemChunkSlice(item: Item, ghost vw: Work, ghost pool: set<Item>, ghost full: Work,
                        ghost pre: seq<ItemState>, ghost done: seq<Item>, media: Media, dryrun: bool)
    returns (rc: int, ghost m: nat)
    requires vw == ItemWork(item)
    requires && |done + vw.items| <= |pre| <= |full.items| && Distinct(vw.items)
             && ItemSet(vw.items) <= pool && ItemSet(done) !! ItemSet(vw.items)
             && ItemSet(vw.items) !! ItemSet(full.items[|done + vw.items|..])
             && States(vw.items) == pre[|done|..|done + vw.items|]
             && States(full.items[|done + vw.items|..]) == pre[|done + vw.items|..]
    modifies pool - ItemSet(done)
    ensures && m <= |vw.items|
            && Outcome(vw, pre[|done|..|done + vw.items|], TitleEffect(media, dryrun), rc, m)
            && States(full.items[|done + vw.items|..]) == pre[|done + vw.items|..]
            && unchanged(pool - ItemSet(done) - ItemSet(vw.items[..m]))
  {
    rc, m := HandleItem(item, pre[|done|..|done + vw.items|], ItemSet(vw.items), media, dryrun);
  }

  /**
   * The section loop of `run`, over the listed sections `all`: the items
   * of the selected sections, and the episodes of their shows, are
   * processed in order, and the loop stops at the first whose processing
   * fails, at a show whose episodes cannot be listed, at an item that is
   * neither a movie nor a show, and at a selected section whose items
   * cannot be listed. `n` counts the processed items.
   */
  method TitleSections(all: seq<Section>, types: seq<string>, pattern: Option<string>,
                       search: (string, string) -> bool, media: Media, dryrun: bool) returns (rc: int, ghost n: nat)
    requires Distinct(SectionsWork(all, types, pattern, search, true).items)
    modifies ItemsAndEpisodesOf(all)
    ensures var w := SectionsWork(all, types, pattern, search, true);
      Outcome(w, old(States(w.items)), TitleEffect(media, dryrun), rc, n) && unchanged(ItemsAndEpisodesOf(all) - ItemSet(w.items[..n]))
    ensures rc == 0 ==> forall it :: it in SelectedItems(all, types, pattern, search) ==> Expand(it, true).Some?
  {
    rc, n := 0, 0;
    ghost var full := SectionsWork(all, types, pattern, search, true);
    ghost var pre := States(full.items);
    ghost var pool := ItemsAndEpisodesOf(all);
    SectionsWorkWithin(all, types, pattern, search, true);
    assert full.items[0..] == full.items;
    ghost var done: seq<Item> := [];
    for s := 0 to |all|
      invariant rc == 0
      invariant SectionsWork(all[..s], types, pattern, search, true) == Work(done, false)
      invariant done <= full.items
      invariant Processed(pre, TitleEffect(media, dryrun), done)
      invariant States(full.items[|done|..]) == pre[|done|..]
      invariant unchanged(pool - ItemSet(done))
    {
      ghost var next;
      rc, n, next := HandleNextSection(all, s, types, pattern, search, pool, full, pre, done, media, dryrun);
      if rc != 0 {
        break;
      }
      done := next;
    }
    if rc == 0 {
      assert all[..|all|] == all;
      n := |pre|;
      LoopOutcome(full, pre, TitleEffect(media, dryrun), n);
      SectionsWorkComplete(all, types, pattern, search, true);
    }
  }

  /**
   * One turn of the section loop, at `all[s]`, after the selected sections
   * before it gave the processed items `done`: an unselected section is
   * skipped, and the items of a selected one are handled. When it returns
   * 1 the section loop ends with it, after `n` processed items; otherwise
   * `next` are the items processed so far.
   */
  method HandleNextSection(all: seq<Section>, s: nat, types: seq<string>, pattern: Option<string>,
                           search: (string, string) -> bool, ghost pool: set<Item>, ghost full: Work,
                           ghost pre: seq<ItemState>, ghost done: seq<Item>, media: Media, dryrun: bool)
    returns (rc: int, ghost n: nat, ghost next: seq<Item>)
    requires s < |all| && full == SectionsWork(all, types, pattern, search, true)
    requires && |pre| == |full.items| && Distinct(full.items) && ItemSet(full.items) <= pool
    requires SectionsWork(all[..s], types, pattern, search, true) == Work(done, false)
    requires done <= full.items && Processed(pre, TitleEffect(media, dryrun), done)
    requires States(full.items[|done|..]) == pre[|done|..]
    modifies pool - ItemSet(done)
    ensures rc == 0 ==>
      && SectionsWork(all[..s + 1], types, pattern, search, true) == Work(next, false)
      && next <= full.items && Processed(pre, TitleEffect(media, dryrun), next)
      && States(full.items[|next|..]) == pre[|next|..]
      && ItemSet(done) <= ItemSet(next) && unchanged(pool - ItemSet(next))
    ensures rc != 0 ==>
      && Outcome(full, pre, TitleEffect(media, dryrun), rc, n)
      && ItemSet(done) <= ItemSet(full.items[..n]) && unchanged(pool - ItemSet(full.items[..n]))
  {
    SectionNext(all, types, pattern, search, true, s, done);
    var section := all[s];
    if !Selected(section, types, pattern, search) {
      rc, n, next := 0, |done|, done;
      return;
    }
    ghost var vw := ListingWork(section.items, true);
    ghost var m;
    rc, m, n := SectionChunk(section.items, vw, pool, full, pre, done, media, dryrun);
    ItemSetAppend(done, vw.items[..m]);
    if rc == 0 {
      assert vw.items[..m] == vw.items;
    }
    next := done + vw.items;
  }

  /**
   * One selected section, seen from the section loop: its items are
   * listed and the item loop runs over them, or the listing fails
   * (`listing` is `None`) and the section loop ends with 1. The rest is
   * as for `ItemChunk`.
   */
  method SectionChunk(listing: Option<seq<Item>>, ghost vw: Work, ghost pool: set<Item>, ghost full: Work,
                      ghost pre: seq<ItemState>, ghost done: seq<Item>, media: Media, dryrun: bool)
    returns (rc: int, ghost m: nat, ghost n: nat)
    requires vw == ListingWork(listing, true)
    requires && |pre| == |full.items| && Distinct(full.items) && ItemSet(full.items) <= pool
             && done + vw.items <= full.items && (vw.stop ==> full == Work(done + vw.items, true))
             && States(full.items[|done|..]) == pre[|done|..]
    requires Processed(pre, TitleEffect(media, dryrun), done)
    modifies pool - ItemSet(done)
    ensures && m <= |vw.items| && n == |done| + m
            && (rc != 0 ==> Outcome(full, pre, TitleEffect(media, dryrun), rc, n) && full.items[..n] == done + vw.items[..m])
            && (rc == 0 ==> m == |vw.items| && !vw.stop)
            && (rc == 0 ==> Processed(pre, TitleEffect(media, dryrun), done + vw.items))
            && (rc == 0 ==> States(full.items[|done + vw.items|..]) == pre[|done + vw.items|..])
            && unchanged(pool - ItemSet(done) - ItemSet(vw.items[..m]))
  {
    if listing.None? {
      rc, m, n := 1, 0, |done|;
      ChunkOutcome(full, pre, TitleEffect(media, dryrun), done, vw, rc, m, n);
      return;
    }
    rc, m, n := SectionListing(listing.value, vw, pool, full, pre, done, media, dryrun);
  }

  /** `SectionChunk` when the listing gave `items`. */
  method SectionListing(items: seq<Item>, ghost vw: Work, ghost pool: set<Item>, ghost full: Work,
                        ghost pre: seq<ItemState>, ghost done: seq<Item>, media: Media, dryrun: bool)
    returns (rc: int, ghost m: nat, ghost n: nat)
    requires vw == ItemsWork(items, true)
    requires && |pre| == |full.items| && Distinct(full.items) && ItemSet(full.items) <= pool
             && done + vw.items <= full.items && (vw.stop ==> full == Work(done + vw.items, true))
             && States(full.items[|done|..]) == pre[|done|..]
    requires Processed(pre, TitleEffect(media, dryrun), done)
    modifies pool - ItemSet(done)
    ensures && m <= |vw.items| && n == |done| + m
            && (rc != 0 ==> Outcome(full, pre, TitleEffect(media, dryrun), rc, n) && full.items[..n] == done + vw.items[..m])
            && (rc == 0 ==> m == |vw.items| && !vw.stop)
            && (rc == 0 ==> Processed(pre, TitleEffect(media, dryrun), done + vw.items))
            && (rc == 0 ==> States(full.items[|done + vw.items|..]) == pre[|done + vw.items|..])
            && unchanged(pool - ItemSet(done) - ItemSet(vw.items[..m]))
  {
    ChunkReady(full.items, pre, done, vw.items);
    rc, m := SectionKept(items, vw, pool, full, pre, done, media, dryrun);
    n := |done| + m;
    ChunkOutcome(full, pre, TitleEffect(media, dryrun), done, vw, rc, m, n);
  }

  /** `SectionListing` before its outcome is lifted: the items processed before keep their states. */
  method SectionKept(items: seq<Item>, ghost vw: Work, ghost pool: set<Item>, ghost full: Work,
                     ghost pre: seq<ItemState>, ghost done: seq<Item>, media: Media, dryrun: bool)
    returns (rc: int, ghost m: nat)
    requires vw == ItemsWork(items, true)
    requires && |done + vw.items| <= |pre| <= |full.items| && Distinct(vw.items)
             && ItemSet(vw.items) <= pool && ItemSet(done) !! ItemSet(vw.items)
             && ItemSet(vw.items) !! ItemSet(full.items[|done + vw.items|..])
             && States(vw.items) == pre[|done|..|done + vw.items|]
             && States(full.items[|done + vw.items|..]) == pre[|done + vw.items|..]
    requires Processed(pre, TitleEffect(media, dryrun), done)
    modifies pool - ItemSet(done)
    ensures Processed(pre, TitleEffect(media, dryrun), done)
    ensures && m <= |vw.items|
            && Outcome(vw, pre[|done|..|done + vw.items|], TitleEffect(media, dryrun), rc, m)
            && States(full.items[|done + vw.items|..]) == pre[|done + vw.items|..]
            && unchanged(pool - ItemSet(done) - ItemSet(vw.items[..m]))
  {
    rc, m := SectionSlice(items, vw, pool, full, pre, done, media, dryrun);
  }

  /** `HandleItems` on the states of the section's items, which sit at `|done|` in `pre`. */
  method SectionSlice(items: seq<Item>, ghost vw: Work, ghost pool: set<Item>, ghost full: Work,
                      ghost pre: seq<ItemState>, ghost done: seq<Item>, media: Media, dryrun: bool)
    returns (rc: int, ghost m: nat)
    requires vw == ItemsWork(items, true)
    requires && |done + vw.items| <= |pre| <= |full.items| && Distinct(vw.items)
             && ItemSet(vw.items) <= pool && ItemSet(done) !! ItemSet(vw.items)
             && ItemSet(vw.items) !! ItemSet(full.items[|done + vw.items|..])
             && States(vw.items) == pre[|done|..|done + vw.items|]
             && States(full.items[|done + vw.items|..]) == pre[|done + vw.items|..]
    modifies pool - ItemSet(done)
    ensures && m <= |vw.items|
            && Outcome(vw, pre[|done|..|done + vw.items|], TitleEffect(media, dryrun), rc, m)
            && States(full.items[|done + vw.items|..]) == pre[|done + vw.items|..]
            && unchanged(pool - ItemSet(done) - ItemSet(vw.items[..m]))
  {
    rc, m := HandleItems(items, pre[|done|..|done + vw.items|], ItemSet(vw.items), media, dryrun);
  }

  /** The items and episodes a run over `sections` may change. */
  function Listed(sections: Option<seq<Section>>): set<Item> {
    if sections.Some? then ItemsAndEpisodesOf(sections.value) else {}
  }

  /**
   * `SyncTitle.run`. Fails (1) with an invalid section type or when
   * listing the sections raises, before touching any item. Otherwise it
   * runs the section loop (`TitleSections`): the movies and the episodes
   * of the shows of the selected sections are processed in order, `n` of
   * them, up to and including the first whose processing fails, and 0 is
   * returned only when every one was processed without failure and no
   * section, show or item stopped the loop. Items are distinct objects.
   */
  method Run(sections: Option<seq<Section>>, search: (string, string) -> bool, dryrun: bool,
             media: Media, sectionTypes: SectionTypesArg, sectionPattern: Option<string>) returns (rc: int, ghost n: nat)
    requires sections.Some? && SectionTypes(sectionTypes).Some? ==>
      Distinct(SectionsWork(sections.value, SectionTypes(sectionTypes).value, sectionPattern, search, true).items)
    modifies Listed(sections)
    ensures SectionTypes(sectionTypes).None? || sections.None? ==> rc == 1 && n == 0 && unchanged(Listed(sections))
    ensures sections.Some? && SectionTypes(sectionTypes).Some? ==>
      var w := SectionsWork(sections.value, SectionTypes(sectionTypes).value, sectionPattern, search, true);
      Outcome(w, old(States(w.items)), TitleEffect(media, dryrun), rc, n) && unchanged(Listed(sections) - ItemSet(w.items[..n]))
    ensures rc == 0 ==>
      (&& sections.Some? && SectionTypes(sectionTypes).Some?
       && forall it :: it in SelectedItems(sections.value, SectionTypes(sectionTypes).value, sectionPattern, search)
            ==> Expand(it, true).Some?)
  {
    n := 0;
    var types := SectionTypes(sectionTypes);
    if types.None? {
      return 1, n;
    }
    if sections.None? {
      return 1, n;
    }
    ghost var w := SectionsWork(sections.value, types.value, sectionPattern, search, true);
    SectionsWorkWithin(sections.value, types.value, sectionPattern, search, true);
    assert forall x :: x in ItemSet(w.items) ==> old(allocated(x)) by {
      forall x | x in ItemSet(w.items)
        ensures old(allocated(x))
      {
        assert x in ItemsAndEpisodesOf(sections.value);
      }
    }
    assert States(w.items) == old(States(w.items));
    rc, n := TitleSections(sections.value, types.value, sectionPattern, search, media, dryrun);
  }
}
