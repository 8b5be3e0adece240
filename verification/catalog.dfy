/**
 * The remote media-server catalog as the fixups see it: library sections,
 * their items, and the two write calls the fixups make (`item.edit(**parms)`
 * and `item.addCollection(tag)`).
 *
 * An item is an object whose fields hold what the server currently stores.
 * Reloading an item therefore changes nothing in the model. How the server
 * answers a write is part of the item too: `rejectsEdits` makes every edit
 * raise, `ignoresEdits` makes the server accept an edit without applying it.
 * The ghost `log` records every write call, in order, so that "no write in
 * dry run" and "write only when changed" can be stated.
 */
module Catalog {
  import opened Wrappers
  import opened Text

  /** One `key=value` parameter of an edit request. */
  type Field = (string, string)

  /** A write call made against one item. */
  datatype Call =
    | Edit(kind: string, id: string, fields: seq<Field>)
    | AddCollection(tag: string)

  /** The parameter that deletes genres (`genre[].tag.tag-`). */
  const GenreDeleteKey: string := "genre[].tag.tag-"

  /** The parameter that adds the `i`-th genre (`genre[i].tag.tag`). */
  function GenreKey(i: nat): string {
    "genre[" + NatToString(i) + "].tag.tag"
  }

  /** The parameters that set and lock the title. */
  const TitleValueKey: string := "title.value"
  const TitleLockedKey: string := "title.locked"

  /** The value of the first parameter named `k`, if any. */
  function Lookup(fields: seq<Field>, k: string): Option<string> {
    if fields == [] then None
    else if fields[0].0 == k then Some(fields[0].1)
    else Lookup(fields[1..], k)
  }

  /** A parameter is read exactly when the request names it, with a value given for it. */
  lemma {:induction false} LookupMeaning(fields: seq<Field>, k: string)
    ensures Lookup(fields, k).Some? <==> exists i :: 0 <= i < |fields| && fields[i].0 == k
    ensures Lookup(fields, k).Some? ==> exists i :: 0 <= i < |fields| && fields[i] == (k, Lookup(fields, k).value)
  {
    if fields != [] && fields[0].0 != k {
      var rest := fields[1..];
      LookupMeaning(rest, k);
      assert forall i :: 1 <= i < |fields| ==> fields[i] == rest[i - 1];
    }
  }

  /** The first parameter named `k` decides: its value is the one looked up. */
  lemma {:induction false} LookupAt(fields: seq<Field>, k: string, j: nat)
    requires j < |fields| && fields[j].0 == k
    requires forall l :: 0 <= l < j ==> fields[l].0 != k
    ensures Lookup(fields, k) == Some(fields[j].1)
  {
    if j > 0 {
      LookupAt(fields[1..], k, j - 1);
    }
  }

  /**
   * How the server reads the added genres of an edit request: the values
   * of `genre[0].tag.tag`, `genre[1].tag.tag`, ... up to the first index
   * that is missing (at most one index per parameter).
   */
  function AddedGenres(fields: seq<Field>, i: nat): seq<string>
    decreases |fields| - i
  {
    if i < |fields| && Lookup(fields, GenreKey(i)).Some?
    then [Lookup(fields, GenreKey(i)).value] + AddedGenres(fields, i + 1)
    else []
  }

  /**
   * A request whose `genre[j].tag.tag` is the j-th of `gs` for every index
   * of `gs`, and absent past its end, adds `gs` from index `i` on.
   */
  lemma {:induction false} AddedGenresFrom(fields: seq<Field>, gs: seq<string>, i: nat)
    requires i <= |gs| < |fields|
    requires forall j: nat :: Lookup(fields, GenreKey(j)) == if j < |gs| then Some(gs[j]) else None
    ensures AddedGenres(fields, i) == gs[i..]
    decreases |gs| - i
  {
    if i < |gs| {
      assert Lookup(fields, GenreKey(i)) == Some(gs[i]);
      AddedGenresFrom(fields, gs, i + 1);
      assert gs[i..] == [gs[i]] + gs[i + 1..];
    } else {
      assert Lookup(fields, GenreKey(i)) == None;
    }
  }

  /** A catalog item: a movie, a show or an episode. */
  class Item {
    /** `item.type`: "movie", "show" or "episode". */
    const kind: string
    /** `item.ratingKey`, the id an edit request names. */
    const ratingKey: string
    /** `item.key`, a path such as "/library/metadata/4711". */
    const key: string
    /** `item.section().title`. */
    const sectionTitle: string
    /** `item.year`, `None` when the server has none. */
    const year: Option<int>
    /** The server file of each media part, in `iterParts()` order. */
    const parts: seq<string>
    /** The answer of `item.episodes()` for a show; `None` when the call raises. */
    const episodes: Option<seq<Item>>

    var title: string
    /** The tags of `item.genres`, in server order. */
    var genres: seq<string>
    /** The tags of `item.collections`, in server order. */
    var collections: seq<string>

    /** The server raises on every edit of this item. */
    var rejectsEdits: bool
    /** The server accepts edits of this item but does not apply them. */
    var ignoresEdits: bool

    /** Every write call made on this item, in order. */
    ghost var log: seq<Call>

    constructor (kind: string, ratingKey: string, key: string, sectionTitle: string,
                 year: Option<int>, parts: seq<string>, episodes: Option<seq<Item>>,
                 title: string, genres: seq<string>, collections: seq<string>,
                 rejectsEdits: bool, ignoresEdits: bool)
      ensures this.kind == kind && this.ratingKey == ratingKey && this.key == key
      ensures this.sectionTitle == sectionTitle && this.year == year
      ensures this.parts == parts && this.episodes == episodes
      ensures this.title == title && this.genres == genres && this.collections == collections
      ensures this.rejectsEdits == rejectsEdits && this.ignoresEdits == ignoresEdits
      ensures log == []
    {
      this.kind, this.ratingKey, this.key, this.sectionTitle := kind, ratingKey, key, sectionTitle;
      this.year, this.parts, this.episodes := year, parts, episodes;
      this.title, this.genres, this.collections := title, genres, collections;
      this.rejectsEdits, this.ignoresEdits := rejectsEdits, ignoresEdits;
      log := [];
    }

    /**
     * `item.edit(type=..., id=..., **fields)`. Raises when the server
     * rejects edits. Otherwise, unless the server ignores it, a
     * `title.value` parameter sets the title and a genre-delete parameter
     * replaces the genre list with the added genres.
     */
    method Edit(fields: seq<Field>) returns (raised: bool)
      modifies this
      ensures raised == rejectsEdits
      ensures log == old(log) + [Call.Edit(kind, ratingKey, fields)]
      ensures var applied := !raised && !ignoresEdits;
        && title == (if applied && Lookup(fields, TitleValueKey).Some?
                     then Lookup(fields, TitleValueKey).value else old(title))
        && genres == (if applied && Lookup(fields, GenreDeleteKey).Some?
                      then AddedGenres(fields, 0) else old(genres))
      ensures collections == old(collections)
      ensures rejectsEdits == old(rejectsEdits) && ignoresEdits == old(ignoresEdits)
    {
      log := log + [Call.Edit(kind, ratingKey, fields)];
      raised := rejectsEdits;
      if !raised && !ignoresEdits {
        var t := Lookup(fields, TitleValueKey);
        if t.Some? {
          title := t.value;
        }
        if Lookup(fields, GenreDeleteKey).Some? {
          genres := AddedGenres(fields, 0);
        }
      }
    }

    /** `item.addCollection(tag)`. */
    method AddCollection(tag: string)
      modifies this
      ensures log == old(log) + [Call.AddCollection(tag)]
      ensures collections == (if ignoresEdits then old(collections) else old(collections) + [tag])
      ensures title == old(title) && genres == old(genres)
      ensures rejectsEdits == old(rejectsEdits) && ignoresEdits == old(ignoresEdits)
    {
      log := log + [Call.AddCollection(tag)];
      if !ignoresEdits {
        collections := collections + [tag];
      }
    }
  }

  /**
   * A library section: its type, its title and the answer of
   * `section.all()` (`None` when the call raises).
   */
  datatype Section = Section(kind: string, title: string, items: Option<seq<Item>>)

  /** The items listed in the sections, when listing succeeds. */
  function ItemsOf(sections: seq<Section>): set<Item> {
    set s, it | s in sections && s.items.Some? && it in s.items.value :: it
  }

  /** The listed items together with the episodes of listed shows. */
  function ItemsAndEpisodesOf(sections: seq<Section>): set<Item> {
    ItemsOf(sections) +
    set s, it, ep | s in sections && s.items.Some? && it in s.items.value
                    && it.episodes.Some? && ep in it.episodes.value :: ep
  }

  /** The `section_types` argument: `None`, one string, or a list. */
  datatype SectionTypesArg = Unset | One(name: string) | Many(names: seq<string>)

  predicate ValidSectionType(t: string) {
    t == "movie" || t == "show"
  }

  /**
   * The section types to process: `None` means movie and show, a string
   * means that one type; any type other than movie or show is an error.
   */
  function SectionTypes(arg: SectionTypesArg): (r: Option<seq<string>>)
    ensures r.Some? ==> forall t :: t in r.value ==> ValidSectionType(t)
    ensures arg.Unset? ==> r == Some(["movie", "show"])
    ensures arg.One? ==> (r.Some? <==> ValidSectionType(arg.name)) && (r.Some? ==> r.value == [arg.name])
    ensures arg.Many? ==>
      (r.Some? <==> forall t :: t in arg.names ==> ValidSectionType(t)) && (r.Some? ==> r.value == arg.names)
  {
    var types := match arg
      case Unset => ["movie", "show"]
      case One(t) => [t]
      case Many(ts) => ts;
    if forall t :: t in types ==> ValidSectionType(t) then Some(types) else None
  }

  /**
   * Whether a section is processed: its type is one of `types` and, when a
   * pattern is given, `search(pattern, title)` finds it (`re.search`).
   */
  predicate Selected(s: Section, types: seq<string>, pattern: Option<string>,
                     search: (string, string) -> bool) {
    s.kind in types && (pattern.None? || search(pattern.value, s.title))
  }

  /** The items of the selected sections, when listing them succeeds. */
  function SelectedItems(sections: seq<Section>, types: seq<string>, pattern: Option<string>,
                         search: (string, string) -> bool): set<Item> {
    set s, it | s in sections && Selected(s, types, pattern, search) && s.items.Some?
                && it in s.items.value :: it
  }

  /** The episodes of a show, when listing them succeeds. */
  function EpisodesOf(item: Item): set<Item> {
    if item.episodes.Some? then set e | e in item.episodes.value else {}
  }

  /** The items listed by one call of `section.all()` or `item.episodes()`, as a set. */
  function ItemSet(xs: seq<Item>): set<Item> {
    set x | x in xs
  }

  /**
   * No item occurs twice (the server client builds a fresh object per
   * listed item): the last item does not occur before it, and the items
   * before it are distinct.
   */
  predicate Distinct(xs: seq<Item>)
    decreases |xs|
  {
    xs == [] || (xs[|xs| - 1] !in xs[..|xs| - 1] && Distinct(xs[..|xs| - 1]))
  }

  /** In a list without repeats, no item occurs before its own position. */
  lemma {:induction false} DistinctAt(xs: seq<Item>, j: nat)
    requires Distinct(xs) && j < |xs|
    ensures xs[j] !in xs[..j]
    decreases |xs|
  {
    var m := |xs| - 1;
    if j < m {
      DistinctAt(xs[..m], j);
      assert xs[..m][..j] == xs[..j];
    }
  }

  /** In a list without repeats, items at different positions differ. */
  lemma {:induction false} DistinctPairs(xs: seq<Item>)
    requires Distinct(xs)
    ensures forall i, j :: 0 <= i < j < |xs| ==> xs[i] != xs[j]
    decreases |xs|
  {
    if xs != [] {
      var m := |xs| - 1;
      DistinctPairs(xs[..m]);
      forall i, j | 0 <= i < j < |xs|
        ensures xs[i] != xs[j]
      {
        if j < m {
          assert xs[..m][i] == xs[i] && xs[..m][j] == xs[j];
        } else {
          assert xs[..m][i] == xs[i];
        }
      }
    }
  }

  /** A list whose items at different positions differ has no repeats. */
  lemma {:induction false} PairsDistinct(xs: seq<Item>)
    requires forall i, j :: 0 <= i < j < |xs| ==> xs[i] != xs[j]
    ensures Distinct(xs)
    decreases |xs|
  {
    if xs != [] {
      var m := |xs| - 1;
      forall i, j | 0 <= i < j < m
        ensures xs[..m][i] != xs[..m][j]
      {
        assert xs[..m][i] == xs[i] && xs[..m][j] == xs[j];
      }
      PairsDistinct(xs[..m]);
      forall i | 0 <= i < m
        ensures xs[..m][i] != xs[m]
      {
        assert xs[..m][i] == xs[i];
      }
    }
  }

  /** Both halves of a list without repeats are without repeats and share no item. */
  lemma DistinctAppend(a: seq<Item>, b: seq<Item>)
    requires Distinct(a + b)
    ensures Distinct(a) && Distinct(b) && ItemSet(a) !! ItemSet(b)
  {
    DistinctPairs(a + b);
    forall i, j | 0 <= i < j < |a|
      ensures a[i] != a[j]
    {
      assert (a + b)[i] == a[i] && (a + b)[j] == a[j];
    }
    forall i, j | 0 <= i < j < |b|
      ensures b[i] != b[j]
    {
      assert (a + b)[|a| + i] == b[i] && (a + b)[|a| + j] == b[j];
    }
    PairsDistinct(a);
    PairsDistinct(b);
    forall x | x in ItemSet(a)
      ensures x !in ItemSet(b)
    {
      var i :| 0 <= i < |a| && a[i] == x;
      assert (a + b)[i] == x;
      forall j | 0 <= j < |b|
        ensures b[j] != x
      {
        assert (a + b)[|a| + j] == b[j];
      }
    }
  }

  /** The mutable state of an item at one moment. */
  datatype ItemState = ItemState(title: string, genres: seq<string>, collections: seq<string>,
                                 rejectsEdits: bool, ignoresEdits: bool, log: seq<Call>)

  ghost function StateOf(it: Item): ItemState
    reads it
  {
    ItemState(it.title, it.genres, it.collections, it.rejectsEdits, it.ignoresEdits, it.log)
  }

  /**
   * The items `run` hands to `process_item` for one listed item: a movie
   * itself; a show itself or, when `episodes` is set, its episodes
   * (`None` when listing them raises); `None`, an error, for any other
   * item type.
   */
  function Expand(it: Item, episodes: bool): (r: Option<seq<Item>>)
    ensures r.None? <==> !(it.kind == "movie" || (it.kind == "show" && (!episodes || it.episodes.Some?)))
  {
    if it.kind == "movie" then Some([it])
    else if it.kind == "show" then (if episodes then it.episodes else Some([it]))
    else None
  }

  /**
   * The work of a `run` loop: the items processed, in order, and whether
   * the loop then stops with return code 1 (an item of another type, or a
   * listing that raised) instead of running to the end.
   */
  datatype Work = Work(items: seq<Item>, stop: bool)

  /** The work of the item loop of one section. */
  function ItemsWork(items: seq<Item>, episodes: bool): Work {
    if items == [] then Work([], false)
    else
      var w := ItemsWork(items[..|items| - 1], episodes);
      if w.stop then w
      else match Expand(items[|items| - 1], episodes)
        case None => Work(w.items, true)
        case Some(xs) => Work(w.items + xs, false)
  }

  /** The work of one selected section: a listing that fails stops the loop. */
  function ListingWork(listing: Option<seq<Item>>, episodes: bool): Work {
    if listing.None? then Work([], true) else ItemsWork(listing.value, episodes)
  }

  /** The work of the section loop: unselected sections are skipped. */
  function SectionsWork(sections: seq<Section>, types: seq<string>, pattern: Option<string>,
                        search: (string, string) -> bool, episodes: bool): Work {
    if sections == [] then Work([], false)
    else
      var w := SectionsWork(sections[..|sections| - 1], types, pattern, search, episodes);
      var s := sections[|sections| - 1];
      if w.stop || !Selected(s, types, pattern, search) then w
      else
        var v := ListingWork(s.items, episodes);
        Work(w.items + v.items, v.stop)
  }

  /** One turn of the item loop. */
  lemma ItemsWorkStep(items: seq<Item>, episodes: bool, k: nat)
    requires k < |items|
    ensures ItemsWork(items[..k + 1], episodes)
         == (var w := ItemsWork(items[..k], episodes);
             if w.stop then w
             else match Expand(items[k], episodes)
               case None => Work(w.items, true)
               case Some(xs) => Work(w.items + xs, false))
  {
    assert items[..k + 1][..k] == items[..k];
  }

  /** The work of the first `k` items starts the whole work, and a stop ends it. */
  lemma {:induction false} ItemsWorkPrefix(items: seq<Item>, episodes: bool, k: nat)
    requires k <= |items|
    ensures var p, w := ItemsWork(items[..k], episodes), ItemsWork(items, episodes);
      p.items <= w.items && (p.stop ==> w == p)
    decreases |items| - k
  {
    if k < |items| {
      ItemsWorkStep(items, episodes, k);
      ItemsWorkPrefix(items, episodes, k + 1);
    } else {
      assert items[..k] == items;
    }
  }

  /** One turn of the section loop. */
  lemma SectionsWorkStep(sections: seq<Section>, types: seq<string>, pattern: Option<string>,
                         search: (string, string) -> bool, episodes: bool, k: nat)
    requires k < |sections|
    ensures SectionsWork(sections[..k + 1], types, pattern, search, episodes)
         == (var w := SectionsWork(sections[..k], types, pattern, search, episodes);
             var s := sections[k];
             if w.stop || !Selected(s, types, pattern, search) then w
             else
               var v := ListingWork(s.items, episodes);
               Work(w.items + v.items, v.stop))
  {
    assert sections[..k + 1][..k] == sections[..k];
  }

  /** The work of the first `k` sections starts the whole work, and a stop ends it. */
  lemma {:induction false} SectionsWorkPrefix(sections: seq<Section>, types: seq<string>, pattern: Option<string>,
                                              search: (string, string) -> bool, episodes: bool, k: nat)
    requires k <= |sections|
    ensures var p, w := SectionsWork(sections[..k], types, pattern, search, episodes),
                        SectionsWork(sections, types, pattern, search, episodes);
      p.items <= w.items && (p.stop ==> w == p)
    decreases |sections| - k
  {
    if k < |sections| {
      SectionsWorkStep(sections, types, pattern, search, episodes, k);
      SectionsWorkPrefix(sections, types, pattern, search, episodes, k + 1);
    } else {
      assert sections[..k] == sections;
    }
  }

  /**
   * One turn of the section loop, after the selected sections before `s`
   * gave the items `done` and no stop: an unselected section adds nothing,
   * and the work of a selected one follows `done` in the whole work.
   */
  lemma SectionNext(all: seq<Section>, types: seq<string>, pattern: Option<string>,
                    search: (string, string) -> bool, episodes: bool, s: nat, done: seq<Item>)
    requires s < |all| && SectionsWork(all[..s], types, pattern, search, episodes) == Work(done, false)
    ensures var full, vw := SectionsWork(all, types, pattern, search, episodes), ListingWork(all[s].items, episodes);
      && (!Selected(all[s], types, pattern, search) ==> SectionsWork(all[..s + 1], types, pattern, search, episodes) == Work(done, false))
      && (Selected(all[s], types, pattern, search) ==>
            && SectionsWork(all[..s + 1], types, pattern, search, episodes) == Work(done + vw.items, vw.stop)
            && done + vw.items <= full.items
            && (vw.stop ==> full == Work(done + vw.items, true)))
  {
    SectionsWorkStep(all, types, pattern, search, episodes, s);
    SectionsWorkPrefix(all, types, pattern, search, episodes, s + 1);
  }

  /** An item loop that does not stop has an expansion for every item. */
  lemma {:induction false} ItemsWorkComplete(items: seq<Item>, episodes: bool)
    requires !ItemsWork(items, episodes).stop
    ensures forall it :: it in items ==> Expand(it, episodes).Some?
    decreases |items|
  {
    if items != [] {
      var init := items[..|items| - 1];
      ItemsWorkComplete(init, episodes);
      assert items == init + [items[|items| - 1]];
    }
  }

  /**
   * A section loop that does not stop lists every selected section and
   * has an expansion for every item of them.
   */
  lemma {:induction false} SectionsWorkComplete(sections: seq<Section>, types: seq<string>, pattern: Option<string>,
                                                search: (string, string) -> bool, episodes: bool)
    requires !SectionsWork(sections, types, pattern, search, episodes).stop
    ensures forall s :: s in sections && Selected(s, types, pattern, search) ==> s.items.Some?
    ensures forall it :: it in SelectedItems(sections, types, pattern, search) ==> Expand(it, episodes).Some?
    decreases |sections|
  {
    if sections != [] {
      var init := sections[..|sections| - 1];
      var last := sections[|sections| - 1];
      SectionsWorkComplete(init, types, pattern, search, episodes);
      assert sections == init + [last];
      if Selected(last, types, pattern, search) {
        ItemsWorkComplete(last.items.value, episodes);
      }
      forall it | it in SelectedItems(sections, types, pattern, search)
        ensures Expand(it, episodes).Some?
      {
        var s :| s in sections && Selected(s, types, pattern, search) && s.items.Some? && it in s.items.value;
        if s != last {
          assert it in SelectedItems(init, types, pattern, search);
        }
      }
    }
  }

  /** The episodes of the listed shows of `items`, when listing them succeeds. */
  function EpisodeSet(items: seq<Item>): set<Item> {
    set it, ep | it in items && it.episodes.Some? && ep in it.episodes.value :: ep
  }

  /** The item loop processes only listed items and, with `episodes`, their episodes. */
  lemma {:induction false} ItemsWorkWithin(items: seq<Item>, episodes: bool)
    ensures ItemSet(ItemsWork(items, episodes).items) <= ItemSet(items) + (if episodes then EpisodeSet(items) else {})
    decreases |items|
  {
    if items != [] {
      var init := items[..|items| - 1];
      var last := items[|items| - 1];
      var bound := ItemSet(items) + (if episodes then EpisodeSet(items) else {});
      ItemsWorkWithin(init, episodes);
      assert items == init + [last];
      assert ItemSet(init) <= ItemSet(items);
      assert EpisodeSet(init) <= EpisodeSet(items);
      var w := ItemsWork(init, episodes);
      assert ItemSet(w.items) <= bound;
      if !w.stop && Expand(last, episodes).Some? {
        var xs := Expand(last, episodes).value;
        forall x | x in xs
          ensures x in bound
        {
          if !episodes || last.kind != "show" {
            assert x == last;
          }
        }
        assert ItemSet(w.items + xs) <= bound;
      }
    }
  }

  /** The section loop processes only items of the sections and, with `episodes`, their episodes. */
  lemma {:induction false} SectionsWorkWithin(sections: seq<Section>, types: seq<string>, pattern: Option<string>,
                                              search: (string, string) -> bool, episodes: bool)
    ensures ItemSet(SectionsWork(sections, types, pattern, search, episodes).items)
         <= if episodes then ItemsAndEpisodesOf(sections) else ItemsOf(sections)
    decreases |sections|
  {
    if sections != [] {
      var init := sections[..|sections| - 1];
      var last := sections[|sections| - 1];
      var bound := if episodes then ItemsAndEpisodesOf(sections) else ItemsOf(sections);
      SectionsWorkWithin(init, types, pattern, search, episodes);
      assert sections == init + [last];
      assert ItemsOf(init) <= ItemsOf(sections);
      assert ItemsAndEpisodesOf(init) <= ItemsAndEpisodesOf(sections);
      var w := SectionsWork(init, types, pattern, search, episodes);
      if !w.stop && Selected(last, types, pattern, search) && last.items.Some? {
        var items := last.items.value;
        ItemsWorkWithin(items, episodes);
        forall x | x in ItemSet(ItemsWork(items, episodes).items)
          ensures x in bound
        {
          if x in ItemSet(items) {
            assert last in sections && x in items;
          } else {
            var it, ep :| it in items && it.episodes.Some? && ep in it.episodes.value && ep == x;
            assert last in sections && it in items;
          }
        }
        assert ItemSet(w.items + ItemsWork(items, episodes).items) <= bound;
      }
    }
  }

  /** A movie or a show: an item the item loop processes itself. */
  predicate Plain(it: Item) {
    it.kind == "movie" || it.kind == "show"
  }

  /** Without episodes, while every item is plain the item loop processes them all, in order. */
  lemma {:induction false} ItemsWorkPlain(items: seq<Item>, k: nat)
    requires k <= |items|
    requires forall j :: 0 <= j < k ==> Plain(items[j])
    ensures ItemsWork(items[..k], false) == Work(items[..k], false)
    decreases k
  {
    if k > 0 {
      ItemsWorkPlain(items, k - 1);
      ItemsWorkStep(items, false, k - 1);
      assert items[..k - 1] + [items[k - 1]] == items[..k];
    }
  }

  /** The number of movies and shows at the head of `items`. */
  function PlainCount(items: seq<Item>): (p: nat)
    ensures p <= |items|
    ensures forall j :: 0 <= j < p ==> Plain(items[j])
    ensures p < |items| ==> !Plain(items[p])
    decreases |items|
  {
    if items == [] || !Plain(items[0]) then 0 else 1 + PlainCount(items[1..])
  }

  /**
   * Without episodes, the item loop processes the movies and shows at the
   * head of the listing, and stops at the first item of another type.
   */
  lemma ItemsWorkPlainCount(items: seq<Item>)
    ensures ItemsWork(items, false) == Work(items[..PlainCount(items)], PlainCount(items) < |items|)
  {
    var p := PlainCount(items);
    if p < |items| {
      PlainStop(items, p);
    } else {
      ItemsWorkPlain(items, p);
      assert items[..p] == items;
    }
  }

  /** Without episodes, the first item that is not plain stops the item loop after the items before it. */
  lemma PlainStop(items: seq<Item>, k: nat)
    requires k < |items|
    requires forall j :: 0 <= j < k ==> Plain(items[j])
    requires !Plain(items[k])
    ensures ItemsWork(items, false) == Work(items[..k], true)
  {
    ItemsWorkPlain(items, k);
    ItemsWorkStep(items, false, k);
    ItemsWorkPrefix(items, false, k + 1);
  }

  /** The states of `xs`, in order. */
  ghost function States(xs: seq<Item>): (r: seq<ItemState>)
    reads ItemSet(xs)
    ensures |r| == |xs|
  {
    if xs == [] then [] else States(xs[..|xs| - 1]) + [StateOf(xs[|xs| - 1])]
  }

  /**
   * The facts the item loop of one section relies on, about the items
   * `PlainCount` counts: they are the items the loop visits, they are in
   * `pool`, they are distinct, and `States` lists their states.
   */
  lemma PlainReady(items: seq<Item>, pool: set<Item>)
    requires ItemSet(ItemsWork(items, false).items) <= pool
    requires Distinct(ItemsWork(items, false).items)
    ensures var p := PlainCount(items);
      var w := ItemsWork(items, false);
      && w == Work(items[..p], p < |items|)
      && (forall j :: 0 <= j < p ==> items[j] in pool)
      && (forall j :: 0 <= j < p ==> States(w.items)[j] == StateOf(items[j]))
      && (forall j :: 0 <= j < p ==> items[j] !in items[..j])
  {
    var p := PlainCount(items);
    ItemsWorkPlainCount(items);
    var w := ItemsWork(items, false);
    forall j | 0 <= j < p
      ensures items[j] in pool && States(w.items)[j] == StateOf(items[j])
    {
      assert w.items[j] == items[j];
      StatesAt(w.items, j);
    }
    forall j | 0 <= j < p
      ensures items[j] !in items[..j]
    {
      DistinctAt(w.items, j);
      TakeTake(items, p, j);
    }
  }

  lemma TakeTake(xs: seq<Item>, p: nat, n: nat)
    requires n <= p <= |xs|
    ensures xs[..p][..n] == xs[..n]
  {
  }

  lemma {:induction false} StatesAre(xs: seq<Item>, post: seq<ItemState>)
    requires |post| == |xs|
    requires forall j :: 0 <= j < |xs| ==> StateOf(xs[j]) == post[j]
    ensures States(xs) == post
    decreases |xs|
  {
    if xs != [] {
      var m := |xs| - 1;
      StatesAre(xs[..m], post[..m]);
    }
  }

  /** The states of a concatenation are the states of its parts, in order. */
  lemma {:induction false} StatesAppend(xs: seq<Item>, ys: seq<Item>)
    ensures States(xs + ys) == States(xs) + States(ys)
    decreases |ys|
  {
    if ys == [] {
      assert xs + ys == xs;
    } else {
      var zs := ys[..|ys| - 1];
      assert (xs + ys)[..|xs + ys| - 1] == xs + zs;
      StatesAppend(xs, zs);
    }
  }

  /**
   * In a list without repeats that starts with `done + v`, the items of `v`
   * are distinct and apart from the items of `done` and from the items
   * after them.
   */
  lemma DistinctMiddle(xs: seq<Item>, done: seq<Item>, v: seq<Item>)
    requires Distinct(xs) && done + v <= xs
    ensures Distinct(v) && ItemSet(done) !! ItemSet(v) && ItemSet(v) !! ItemSet(xs[|done + v|..])
    ensures ItemSet(v) <= ItemSet(xs)
  {
    var rest := xs[|done + v|..];
    assert xs == (done + v) + rest;
    DistinctAppend(done + v, rest);
    DistinctAppend(done, v);
    assert ItemSet(v) <= ItemSet(done + v);
  }

  /** The entry of `States(xs)` at `i` is the state of `xs[i]`. */
  lemma {:induction false} StatesAt(xs: seq<Item>, i: nat)
    requires i < |xs|
    ensures States(xs)[i] == StateOf(xs[i])
    decreases |xs|
  {
    if i < |xs| - 1 {
      StatesAt(xs[..|xs| - 1], i);
    }
  }

  /** The items of the first `k + 1` entries of `xs` add `xs[k]` to those of the first `k`. */
  lemma ItemSetSnoc(xs: seq<Item>, k: nat)
    requires k < |xs|
    ensures ItemSet(xs[..k + 1]) == ItemSet(xs[..k]) + {xs[k]}
  {
    assert xs[..k + 1] == xs[..k] + [xs[k]];
  }

  /** The items of a concatenation are the items of its parts. */
  lemma ItemSetAppend(xs: seq<Item>, ys: seq<Item>)
    ensures ItemSet(xs + ys) == ItemSet(xs) + ItemSet(ys)
  {
  }

  /** The first items of a list that starts with `xs + ys`. */
  lemma PrefixTake(full: seq<Item>, xs: seq<Item>, ys: seq<Item>, m: nat)
    requires xs + ys <= full && m <= |ys|
    ensures full[..|xs| + m] == xs + ys[..m]
  {
    assert full[..|xs| + m] == (xs + ys)[..|xs| + m];
  }

  /**
   * What a loop over the part `v` of a work `xs` needs before it starts,
   * after the items `done` and when the items of `xs` from `done` on still
   * have the states `pre` lists: the items of `v` have the states `pre`
   * lists at their positions, the items after them too, and `v` is apart
   * from what comes before and after it.
   */
  lemma ChunkReady(xs: seq<Item>, pre: seq<ItemState>, done: seq<Item>, v: seq<Item>)
    requires |pre| == |xs| && Distinct(xs) && done + v <= xs
    requires States(xs[|done|..]) == pre[|done|..]
    ensures States(v) == pre[|done|..|done + v|]
    ensures States(xs[|done + v|..]) == pre[|done + v|..]
    ensures Distinct(v) && ItemSet(done) !! ItemSet(v) && ItemSet(v) !! ItemSet(xs[|done + v|..])
    ensures ItemSet(v) <= ItemSet(xs)
  {
    ChunkStates(xs, pre, done, v);
    DistinctMiddle(xs, done, v);
  }

  /** The states part of `ChunkReady`. */
  lemma ChunkStates(xs: seq<Item>, pre: seq<ItemState>, done: seq<Item>, v: seq<Item>)
    requires |pre| == |xs| && done + v <= xs
    requires States(xs[|done|..]) == pre[|done|..]
    ensures States(v) == pre[|done|..|done + v|]
    ensures States(xs[|done + v|..]) == pre[|done + v|..]
  {
    var d, e := |done|, |done + v|;
    var rest := xs[e..];
    assert xs[d..] == v + rest;
    StatesAppend(v, rest);
    assert pre[d..] == pre[d..e] + pre[e..];
    AppendCancel(States(v), States(rest), pre[d..e], pre[e..]);
  }

  /** Two concatenations that agree, whose first parts have one length, agree part by part. */
  lemma AppendCancel<T>(a: seq<T>, b: seq<T>, c: seq<T>, d: seq<T>)
    requires a + b == c + d && |a| == |c|
    ensures a == c && b == d
  {
    assert a == (a + b)[..|a|] && c == (c + d)[..|a|];
    assert b == (a + b)[|a|..] && d == (c + d)[|a|..];
  }

  /**
   * What the `process_item` of a fixup does to one item: the state it
   * leaves the item in, from the item and its state before, and whether
   * it returns 1.
   */
  datatype Effect = Effect(after: (Item, ItemState) -> ItemState, fails: (Item, ItemState) -> bool)

  /**
   * Every item of `xs` is in the state `e` leaves it in, from its state in
   * `pre`, position by position.
   */
  ghost predicate AllDone(pre: seq<ItemState>, xs: seq<Item>, e: Effect)
    reads ItemSet(xs)
    decreases |xs|
  {
    && |xs| <= |pre|
    && (xs != [] ==>
      var m := |xs| - 1;
      AllDone(pre, xs[..m], e) && StateOf(xs[m]) == e.after(xs[m], pre[m]))
  }

  /**
   * The position of the first item of `xs`, whose states are `pre`, on
   * which `e` fails, or `|xs|`.
   */
  function FirstFailure(xs: seq<Item>, pre: seq<ItemState>, e: Effect): (f: nat)
    requires |xs| == |pre|
    ensures f <= |xs|
    decreases |xs|
  {
    if xs == [] then 0
    else
      var m := |xs| - 1;
      var f0 := FirstFailure(xs[..m], pre[..m], e);
      if f0 < m then f0
      else if e.fails(xs[m], pre[m]) then m
      else |xs|
  }

  /**
   * The items `done`, at the head of a work whose items had the states
   * `pre`, were processed without failure, and each was left in the state
   * `e` leaves it in.
   */
  ghost predicate Processed(pre: seq<ItemState>, e: Effect, done: seq<Item>)
    reads ItemSet(done)
  {
    && |done| <= |pre|
    && (forall j :: 0 <= j < |done| ==> !e.fails(done[j], pre[j]))
    && AllDone(pre, done, e)
  }

  /**
   * The outcome of a `run` loop over the work `w`, whose items had the
   * states `pre`: the items are processed in order up to and including the
   * first on which `e` fails, `n` of them, each left in the state `e`
   * leaves it in, and the loop returns 1 exactly when an item failed or
   * the work stops early, 0 otherwise.
   */
  ghost predicate Outcome(w: Work, pre: seq<ItemState>, e: Effect, rc: int, n: nat)
    reads ItemSet(w.items)
  {
    && |pre| == |w.items|
    && var f := FirstFailure(w.items, pre, e);
    && n == (if f < |pre| then f + 1 else |pre|)
    && rc == (if f < |pre| || w.stop then 1 else 0)
    && AllDone(pre, w.items[..n], e)
  }

  /**
   * `f` is the first failure when no item before it fails and, unless it
   * is `|xs|`, the item at `f` fails.
   */
  lemma {:induction false} FirstFailureIs(xs: seq<Item>, pre: seq<ItemState>, f: nat, e: Effect)
    requires |xs| == |pre| && f <= |xs|
    requires forall j :: 0 <= j < f ==> !e.fails(xs[j], pre[j])
    requires f < |xs| ==> e.fails(xs[f], pre[f])
    ensures FirstFailure(xs, pre, e) == f
    decreases |xs|
  {
    if xs != [] {
      var m := |xs| - 1;
      FirstFailureIs(xs[..m], pre[..m], if f <= m then f else m, e);
    }
  }

  /** No item before the first failure fails, and the item at it does. */
  lemma {:induction false} FirstFailureMeaning(xs: seq<Item>, pre: seq<ItemState>, e: Effect)
    requires |xs| == |pre|
    ensures var f := FirstFailure(xs, pre, e);
      && (forall j :: 0 <= j < f ==> !e.fails(xs[j], pre[j]))
      && (f < |xs| ==> e.fails(xs[f], pre[f]))
    decreases |xs|
  {
    if xs != [] {
      var m := |xs| - 1;
      FirstFailureMeaning(xs[..m], pre[..m], e);
    }
  }

  /**
   * What `Outcome` says without the recursion: 0 exactly when the work
   * runs to its end and no item fails, and then every item was processed;
   * otherwise the items before the last processed one succeeded, and the
   * loop stopped right after a failing item or at the end of a work that
   * stops.
   */
  lemma OutcomeMeaning(w: Work, pre: seq<ItemState>, e: Effect, rc: int, n: nat)
    requires Outcome(w, pre, e, rc, n)
    ensures rc == 0 || rc == 1
    ensures rc == 0 <==> !w.stop && forall j :: 0 <= j < |w.items| ==> !e.fails(w.items[j], pre[j])
    ensures rc == 0 ==> n == |w.items|
    ensures n <= |w.items| && forall j :: 0 <= j < n - 1 ==> !e.fails(w.items[j], pre[j])
    ensures n < |w.items| ==> 0 < n && e.fails(w.items[n - 1], pre[n - 1])
  {
    FirstFailureMeaning(w.items, pre, e);
  }

  /** What `AllDone` says about one item: it is in the state `e` leaves it in, from its state in `pre`. */
  lemma {:induction false} AllDoneAt(pre: seq<ItemState>, xs: seq<Item>, e: Effect, j: nat)
    requires AllDone(pre, xs, e) && j < |xs|
    ensures StateOf(xs[j]) == e.after(xs[j], pre[j])
    decreases |xs|
  {
    var m := |xs| - 1;
    if j < m {
      AllDoneAt(pre, xs[..m], e, j);
      assert xs[..m][j] == xs[j];
    }
  }

  /** An effect that leaves every state as it is, as a dry run does, changes no processed item. */
  lemma {:induction false} AllDoneIdle(pre: seq<ItemState>, xs: seq<Item>, e: Effect)
    requires forall it, s :: e.after(it, s) == s
    requires AllDone(pre, xs, e)
    ensures States(xs) == pre[..|xs|]
    decreases |xs|
  {
    if xs != [] {
      var m := |xs| - 1;
      AllDoneIdle(pre, xs[..m], e);
      assert pre[..|xs|] == pre[..m] + [pre[m]];
    }
  }

  /**
   * Items `xs` processed from positions 0 on, followed by items `ys`
   * processed from the states that start at position `|xs|`.
   */
  lemma {:induction false} AllDoneAppend(pre: seq<ItemState>, xs: seq<Item>, ys: seq<Item>, end: nat, e: Effect)
    requires |xs| + |ys| <= end <= |pre|
    requires AllDone(pre, xs, e)
    requires AllDone(pre[|xs|..end], ys, e)
    ensures AllDone(pre, xs + ys, e)
    decreases |ys|
  {
    if ys == [] {
      assert xs + ys == xs;
    } else {
      var m := |ys| - 1;
      AllDoneAppend(pre, xs, ys[..m], end, e);
      assert (xs + ys)[..|xs| + m] == xs + ys[..m];
      assert (xs + ys)[|xs| + m] == ys[m];
    }
  }

  /**
   * The first failure among the items `v` that follow the items `done`,
   * none of which fails, at the head of `xs`: it is the first failure of
   * `xs`, and when there is none no item of `done + v` fails.
   */
  lemma FirstFailureOffset(xs: seq<Item>, pre: seq<ItemState>, done: seq<Item>, v: seq<Item>, e: Effect)
    requires |pre| == |xs| && done + v <= xs
    requires forall j :: 0 <= j < |done| ==> !e.fails(done[j], pre[j])
    ensures var fv := FirstFailure(v, pre[|done|..|done + v|], e);
      && (fv < |v| ==> FirstFailure(xs, pre, e) == |done| + fv)
      && (fv == |v| ==> forall j :: 0 <= j < |done + v| ==> !e.fails((done + v)[j], pre[j]))
  {
    var d, end := |done|, |done + v|;
    var pv := pre[d..end];
    FirstFailureMeaning(v, pv, e);
    var fv := FirstFailure(v, pv, e);
    forall j | 0 <= j < d + fv
      ensures !e.fails(xs[j], pre[j]) && !e.fails((done + v)[j], pre[j])
    {
      assert xs[j] == (done + v)[j];
      if j >= d {
        assert (done + v)[j] == v[j - d] && pre[j] == pv[j - d];
      }
    }
    if fv < |v| {
      assert xs[d + fv] == v[fv] && pre[d + fv] == pv[fv];
      FirstFailureIs(xs, pre, d + fv, e);
    }
  }

  /** A loop that ran to its end without failure ends with 0 and every item processed. */
  lemma LoopOutcome(full: Work, pre: seq<ItemState>, e: Effect, n: nat)
    requires |pre| == |full.items| == n && !full.stop
    requires Processed(pre, e, full.items)
    ensures Outcome(full, pre, e, 0, n)
  {
    assert full.items[..n] == full.items;
    FirstFailureIs(full.items, pre, |pre|, e);
  }

  /**
   * What a loop over the part `vw` of a work, which follows the processed
   * items `done` in the whole work `full`, contributes: when it returns 1
   * the whole loop ends with it, and otherwise every item of the part was
   * processed without failure.
   */
  lemma ChunkOutcome(full: Work, pre: seq<ItemState>, e: Effect, done: seq<Item>, vw: Work, rc: int, m: nat, n: nat)
    requires |pre| == |full.items| && done + vw.items <= full.items && n == |done| + m
    requires vw.stop ==> full == Work(done + vw.items, true)
    requires Processed(pre, e, done)
    requires Outcome(vw, pre[|done|..|done + vw.items|], e, rc, m)
    ensures rc != 0 ==> Outcome(full, pre, e, rc, n) && full.items[..n] == done + vw.items[..m]
    ensures rc == 0 ==> m == |vw.items| && !vw.stop
    ensures rc == 0 ==> Processed(pre, e, done + vw.items)
  {
    if rc != 0 {
      ChunkStops(full, pre, e, done, vw, rc, m, n);
    } else {
      ChunkPasses(full, pre, e, done, vw, m);
    }
  }

  /** `ChunkOutcome` when the loop over the part returns 1. */
  lemma ChunkStops(full: Work, pre: seq<ItemState>, e: Effect, done: seq<Item>, vw: Work, rc: int, m: nat, n: nat)
    requires |pre| == |full.items| && done + vw.items <= full.items && n == |done| + m
    requires vw.stop ==> full == Work(done + vw.items, true)
    requires Processed(pre, e, done)
    requires Outcome(vw, pre[|done|..|done + vw.items|], e, rc, m) && rc != 0
    ensures Outcome(full, pre, e, rc, n) && full.items[..n] == done + vw.items[..m]
  {
    var d, end, v := |done|, |done + vw.items|, vw.items;
    AllDoneAppend(pre, done, v[..m], end, e);
    FirstFailureOffset(full.items, pre, done, v, e);
    PrefixTake(full.items, done, v, m);
    var f := FirstFailure(full.items, pre, e);
    var fv := FirstFailure(v, pre[d..end], e);
    if fv < end - d {
      assert f == d + fv && n == f + 1;
    } else {
      FirstFailureIs(full.items, pre, |pre|, e);
      assert f == |pre| == n;
    }
  }

  /** `ChunkOutcome` when the loop over the part returns 0. */
  lemma ChunkPasses(full: Work, pre: seq<ItemState>, e: Effect, done: seq<Item>, vw: Work, m: nat)
    requires |pre| == |full.items| && done + vw.items <= full.items
    requires Processed(pre, e, done)
    requires Outcome(vw, pre[|done|..|done + vw.items|], e, 0, m)
    ensures m == |vw.items| && !vw.stop && Processed(pre, e, done + vw.items)
  {
    var end, v := |done + vw.items|, vw.items;
    assert v[..m] == v;
    AllDoneAppend(pre, done, v, end, e);
    FirstFailureOffset(full.items, pre, done, v, e);
  }

  /** The facts a turn of a loop over the distinct items `xs` needs at `k`. */
  lemma TurnReady(xs: seq<Item>, pre: seq<ItemState>, k: nat)
    requires k < |xs| == |pre| && Distinct(xs) && States(xs[k..]) == pre[k..]
    ensures xs[k] !in xs[..k] && pre[k] == StateOf(xs[k])
    ensures xs[k] !in ItemSet(xs[k + 1..]) && States(xs[k + 1..]) == pre[k + 1..]
  {
    DistinctAt(xs, k);
    assert xs[k..] == [xs[k]] + xs[k + 1..];
    StatesAppend([xs[k]], xs[k + 1..]);
    AppendCancel(States([xs[k]]), States(xs[k + 1..]), [pre[k]], pre[k + 1..]);
    DistinctMiddle(xs, xs[..k], [xs[k]]);
  }

  /**
   * One turn of a loop over the items `xs`, all of them its work: after
   * `xs[k]` is processed, the loop goes on when it succeeds and otherwise
   * ends with 1, after `k + 1` items.
   */
  lemma TurnOutcome(xs: seq<Item>, pre: seq<ItemState>, e: Effect, k: nat, rc: int, n: nat)
    requires k < |xs| == |pre| && n == k + 1
    requires Processed(pre, e, xs[..k]) && AllDone(pre, xs[..k + 1], e)
    requires rc == (if e.fails(xs[k], pre[k]) then 1 else 0)
    ensures rc == 0 ==> Processed(pre, e, xs[..k + 1])
    ensures rc != 0 ==> Outcome(Work(xs, false), pre, e, rc, n)
  {
    assert forall j :: 0 <= j < k ==> xs[..k][j] == xs[j];
    if rc != 0 {
      FirstFailureIs(xs, pre, k, e);
    }
  }

  /** A loop that ends with a failed item has the same outcome whether or not its work stops early. */
  lemma FailedOutcome(xs: seq<Item>, pre: seq<ItemState>, e: Effect, rc: int, n: nat, stop: bool)
    requires Outcome(Work(xs, false), pre, e, rc, n) && rc != 0
    ensures Outcome(Work(xs, stop), pre, e, rc, n)
  {
  }

  /**
   * The value `step` carries through the items `xs`, whose states were
   * `pre`, in order, from `a`: what a fixup that keeps a record across
   * items (such as a collections file) holds after them.
   */
  function Fold<A>(a: A, xs: seq<Item>, pre: seq<ItemState>, step: (A, Item, ItemState) -> A): A
    requires |xs| <= |pre|
    decreases |xs|
  {
    if xs == [] then a
    else
      var m := |xs| - 1;
      step(Fold(a, xs[..m], pre, step), xs[m], pre[m])
  }

  /**
   * Every item of `xs` is in the state `after` gives it from its state in
   * `pre` and the record right after its own step, position by position.
   */
  ghost predicate AllFolded<A>(a: A, pre: seq<ItemState>, xs: seq<Item>, step: (A, Item, ItemState) -> A,
                               after: (A, Item, ItemState) -> ItemState)
    reads ItemSet(xs)
    decreases |xs|
  {
    && |xs| <= |pre|
    && (xs != [] ==>
      var m := |xs| - 1;
      AllFolded(a, pre, xs[..m], step, after) && StateOf(xs[m]) == after(Fold(a, xs, pre, step), xs[m], pre[m]))
  }

  /** One more item folded: the record after `xs[..k + 1]` is one step from the one after `xs[..k]`. */
  lemma FoldSnoc<A>(a: A, xs: seq<Item>, pre: seq<ItemState>, step: (A, Item, ItemState) -> A, k: nat)
    requires k < |xs| <= |pre|
    ensures Fold(a, xs[..k + 1], pre, step) == step(Fold(a, xs[..k], pre, step), xs[k], pre[k])
  {
    assert xs[..k + 1][..k] == xs[..k];
  }

  /** One more item in the state `after` gives it keeps `AllFolded`. */
  lemma AllFoldedSnoc<A>(a: A, pre: seq<ItemState>, xs: seq<Item>, step: (A, Item, ItemState) -> A,
                         after: (A, Item, ItemState) -> ItemState, k: nat)
    requires k < |xs| <= |pre| && AllFolded(a, pre, xs[..k], step, after)
    requires StateOf(xs[k]) == after(Fold(a, xs[..k + 1], pre, step), xs[k], pre[k])
    ensures AllFolded(a, pre, xs[..k + 1], step, after)
  {
    assert xs[..k + 1][..k] == xs[..k];
  }

  /** Folding `xs` and then `ys`, from the states that start at `|xs|`, folds `xs + ys`. */
  lemma {:induction false} FoldAppend<A>(a: A, pre: seq<ItemState>, xs: seq<Item>, ys: seq<Item>, end: nat,
                                         step: (A, Item, ItemState) -> A)
    requires |xs| + |ys| <= end <= |pre|
    ensures Fold(a, xs + ys, pre, step) == Fold(Fold(a, xs, pre, step), ys, pre[|xs|..end], step)
    decreases |ys|
  {
    if ys == [] {
      assert xs + ys == xs;
    } else {
      var m := |ys| - 1;
      FoldAppend(a, pre, xs, ys[..m], end, step);
      assert (xs + ys)[..|xs| + m] == xs + ys[..m];
      assert (xs + ys)[|xs| + m] == ys[m];
    }
  }

  /** The items `xs`, then the items `ys` folded from the record `xs` left. */
  lemma {:induction false} AllFoldedAppend<A>(a: A, pre: seq<ItemState>, xs: seq<Item>, ys: seq<Item>, end: nat,
                                              step: (A, Item, ItemState) -> A, after: (A, Item, ItemState) -> ItemState)
    requires |xs| + |ys| <= end <= |pre|
    requires AllFolded(a, pre, xs, step, after)
    requires AllFolded(Fold(a, xs, pre, step), pre[|xs|..end], ys, step, after)
    ensures AllFolded(a, pre, xs + ys, step, after)
    decreases |ys|
  {
    if ys == [] {
      assert xs + ys == xs;
    } else {
      var m := |ys| - 1;
      AllFoldedAppend(a, pre, xs, ys[..m], end, step, after);
      assert (xs + ys)[..|xs| + m] == xs + ys[..m];
      assert (xs + ys)[|xs| + m] == ys[m];
      FoldAppend(a, pre, xs, ys, end, step);
    }
  }

  /** What `AllFolded` says about the item at `j`. */
  lemma {:induction false} AllFoldedAt<A>(a: A, pre: seq<ItemState>, xs: seq<Item>, step: (A, Item, ItemState) -> A,
                                          after: (A, Item, ItemState) -> ItemState, j: nat)
    requires AllFolded(a, pre, xs, step, after) && j < |xs|
    ensures StateOf(xs[j]) == after(Fold(a, xs[..j + 1], pre, step), xs[j], pre[j])
    decreases |xs|
  {
    var m := |xs| - 1;
    if j < m {
      AllFoldedAt(a, pre, xs[..m], step, after, j);
      assert xs[..m][..j + 1] == xs[..j + 1];
    } else {
      assert xs[..j + 1] == xs;
    }
  }

  /** When `after` leaves every state as it is, as a dry run does, no folded item changes. */
  lemma {:induction false} AllFoldedIdle<A>(a: A, pre: seq<ItemState>, xs: seq<Item>, step: (A, Item, ItemState) -> A,
                                            after: (A, Item, ItemState) -> ItemState)
    requires forall r, it, s :: after(r, it, s) == s
    requires AllFolded(a, pre, xs, step, after)
    ensures States(xs) == pre[..|xs|]
    decreases |xs|
  {
    if xs != [] {
      var m := |xs| - 1;
      AllFoldedIdle(a, pre, xs[..m], step, after);
      assert pre[..|xs|] == pre[..m] + [pre[m]];
    }
  }
}
