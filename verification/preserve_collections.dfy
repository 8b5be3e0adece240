/**
 * The "preserve collections" fixup: a collections file remembers, per
 * item id, the section, title, year and collection names of every movie
 * and show. Each run merges the server's collections into the file and
 * restores on the server every remembered collection the item lost.
 */
module PreserveCollections {
  import opened Wrappers
  import opened Seqs
  import opened Paths
  import opened Catalog

  /** One item of the collections file. Missing keys read as `None`. */
  datatype CacheEntry = CacheEntry(section: Option<string>, title: Option<string>,
                                   year: Option<int>, collections: seq<string>)

  /** `item.key.split('/')[-1]`: the text after the last '/'. */
  function ItemId(key: string): string {
    if key == [] || key[|key| - 1] == '/' then ""
    else ItemId(key[..|key| - 1]) + [key[|key| - 1]]
  }

  /**
   * The id is the suffix of the key after its last '/': it holds no '/',
   * and it is the whole key or the character before it is a '/'.
   */
  lemma {:induction false} ItemIdMeaning(key: string)
    ensures var id := ItemId(key);
      && |id| <= |key|
      && (forall i :: 0 <= i < |id| ==> id[i] == key[|key| - |id| + i] && id[i] != '/')
      && (|id| == |key| || key[|key| - |id| - 1] == '/')
    decreases |key|
  {
    if key != [] && key[|key| - 1] != '/' {
      var init := key[..|key| - 1];
      ItemIdMeaning(init);
      var id0 := ItemId(init);
      assert forall i :: 0 <= i < |init| ==> key[i] == init[i];
    }
  }

  /** The id of "/library/metadata/4711" is "4711". */
  lemma ItemIdExample()
    ensures ItemId("/library/metadata/4711") == "4711"
  {
    var dir := "/library/metadata/";
    assert ItemId(dir) == "";
    assert (dir + "4")[..|dir|] == dir;
    assert ItemId(dir + "4") == "4";
    assert (dir + "47")[..|dir| + 1] == dir + "4";
    assert ItemId(dir + "47") == "47";
    assert (dir + "471")[..|dir| + 2] == dir + "47";
    assert ItemId(dir + "471") == "471";
    assert (dir + "4711")[..|dir| + 3] == dir + "471";
    assert dir + "4711" == "/library/metadata/4711";
  }

  /**
   * The collections the restore step adds to the item: the cached names
   * that the item does not have, in cache order, each once.
   */
  function Restored(live: seq<string>, cached: seq<string>): seq<string> {
    if cached == [] then []
    else
      var r := Restored(live, cached[..|cached| - 1]);
      var c := cached[|cached| - 1];
      if c in live || c in r then r else r + [c]
  }

  /** Restored holds exactly the cached names the item lacks, each once. */
  lemma {:induction false} RestoredMeaning(live: seq<string>, cached: seq<string>)
    ensures forall c :: c in Restored(live, cached) <==> c in cached && c !in live
    ensures NoDup(Restored(live, cached))
    decreases |cached|
  {
    if cached != [] {
      var init := cached[..|cached| - 1];
      RestoredMeaning(live, init);
      assert cached == init + [cached[|cached| - 1]];
    }
  }

  /** One step of Restored: what the restore loop does with the next name. */
  lemma RestoredStep(live: seq<string>, cached: seq<string>, k: nat)
    requires k < |cached|
    ensures Restored(live, cached[..k + 1])
         == (var r := Restored(live, cached[..k]);
             if cached[k] in live || cached[k] in r then r else r + [cached[k]])
  {
    assert cached[..k + 1][..k] == cached[..k];
  }

  /** The `addCollection` calls that restore `tags`, in order. */
  function AddCalls(tags: seq<string>): seq<Call> {
    seq(|tags|, i requires 0 <= i < |tags| => Call.AddCollection(tags[i]))
  }

  /**
   * The collections file after processing an item with id `id`: an entry is
   * created for a new id, section, title and year are refreshed when they
   * drifted, and the item's collections are appended to the cached ones.
   */
  function Merge(entries: map<string, CacheEntry>, id: string, section: string, title: string,
                 year: Option<int>, live: seq<string>): map<string, CacheEntry> {
    entries[id := CacheEntry(Some(section), Some(title), year, AppendNew(CachedFor(entries, id), live))]
  }

  /**
   * Merging adds the id if it is new and touches no other id; the entry
   * carries the item's section, title and year, and its collections are
   * the cached ones, in their order, followed by the item's new ones.
   */
  lemma MergeMeaning(entries: map<string, CacheEntry>, id: string, section: string, title: string,
                     year: Option<int>, live: seq<string>)
    ensures var r := Merge(entries, id, section, title, year, live);
      && r.Keys == entries.Keys + {id}
      && (forall k :: k in entries && k != id ==> r[k] == entries[k])
      && r[id].section == Some(section) && r[id].title == Some(title) && r[id].year == year
      && (forall c :: c in r[id].collections <==> c in live || (id in entries && c in entries[id].collections))
      && (id in entries ==>
            |entries[id].collections| <= |r[id].collections|
            && r[id].collections[..|entries[id].collections|] == entries[id].collections)
  {
    AppendNewMembers(if id in entries then entries[id].collections else [], live);
  }

  /** Append to `acc`, in order, each element of `xs` it does not hold yet. */
  method AppendMissing(acc: seq<string>, xs: seq<string>) returns (r: seq<string>)
    ensures r == AppendNew(acc, xs)
  {
    r := acc;
    for k := 0 to |xs|
      invariant r == AppendNew(acc, xs[..k])
    {
      AppendNewStep(acc, xs, k);
      if xs[k] !in r {
        r := r + [xs[k]];
      }
    }
    assert xs[..|xs|] == xs;
  }

  /** The collections dictionary `coll_dict`, shared by all items of a run. */
  class CollectionDict {
    var entries: map<string, CacheEntry>

    constructor (entries: map<string, CacheEntry>)
      ensures this.entries == entries
    {
      this.entries := entries;
    }
  }

  /** `a` may grow into `b`: no id and no cached collection is lost. */
  ghost predicate Grows(a: map<string, CacheEntry>, b: map<string, CacheEntry>) {
    a.Keys <= b.Keys &&
    forall k :: k in a ==>
      |a[k].collections| <= |b[k].collections| &&
      b[k].collections[..|a[k].collections|] == a[k].collections
  }

  lemma GrowsTransitive(a: map<string, CacheEntry>, b: map<string, CacheEntry>, c: map<string, CacheEntry>)
    requires Grows(a, b) && Grows(b, c)
    ensures Grows(a, c)
  {
    forall k | k in a
      ensures c[k].collections[..|a[k].collections|] == a[k].collections
    {
      assert c[k].collections[..|b[k].collections|][..|a[k].collections|]
          == c[k].collections[..|a[k].collections|];
    }
  }

  lemma GrowsReflexive(a: map<string, CacheEntry>)
    ensures Grows(a, a)
  {
  }

  /** Merging an item never loses anything from the collections file. */
  lemma MergeGrows(entries: map<string, CacheEntry>, id: string, section: string, title: string,
                   year: Option<int>, live: seq<string>)
    ensures Grows(entries, Merge(entries, id, section, title, year, live))
  {
    MergeMeaning(entries, id, section, title, year, live);
  }

  /**
   * The state `process_item` leaves an item in, from its state `s`, when
   * the collections file caches `cached` for it after the merge: unless in
   * dry run, each restored name is added on the server and, when the
   * server applies it, to the item.
   */
  function Restoring(s: ItemState, cached: seq<string>, dryrun: bool): ItemState {
    if dryrun then s
    else
      var restore := Restored(s.collections, cached);
      s.(log := s.log + AddCalls(restore),
         collections := if s.ignoresEdits then s.collections else s.collections + restore)
  }

  /**
   * `process_item`: merge the item into the collections dictionary, then
   * restore on the server every cached collection the item lacks (no
   * server call in dry run). The item's collection list is read after a
   * reload, which the model's item already reflects.
   */
  method ProcessItem(dict: CollectionDict, item: Item, dryrun: bool)
    modifies dict, item
    ensures dict.entries == Merge(old(dict.entries), ItemId(item.key), item.sectionTitle, old(item.title), item.year,
                                  old(item.collections))
    ensures StateOf(item) == Restoring(old(StateOf(item)), CachedFor(dict.entries, ItemId(item.key)), dryrun)
    ensures dryrun ==> unchanged(item)
  {
    var live := item.collections;
    var id := ItemId(item.key);
    var merged := MergeItem(dict, id, item.sectionTitle, item.title, item.year, live);
    RestoreCollections(item, merged, dryrun);
  }

  /**
   * The first half of `process_item`: create or refresh the item's entry
   * and append the item's collections to the cached ones; returns the
   * entry's new collection list.
   */
  method MergeItem(dict: CollectionDict, id: string, section: string, title: string,
                   year: Option<int>, live: seq<string>) returns (merged: seq<string>)
    modifies dict
    ensures dict.entries == Merge(old(dict.entries), id, section, title, year, live)
    ensures merged == dict.entries[id].collections
  {
    var fileItem: CacheEntry;
    if id !in dict.entries {
      fileItem := CacheEntry(Some(section), Some(title), year, []);
    } else {
      fileItem := dict.entries[id];
      if Some(section) != fileItem.section || Some(title) != fileItem.title || year != fileItem.year {
        fileItem := fileItem.(section := Some(section), title := Some(title), year := year);
      }
    }
    assert fileItem.section == Some(section) && fileItem.title == Some(title) && fileItem.year == year;
    // Sync collections from the server to the file.
    merged := AppendMissing(fileItem.collections, live);
    dict.entries := dict.entries[id := fileItem.(collections := merged)];
  }

  /**
   * What one merge and restore guarantee together: the file only grows,
   * the item's collections are saved, and afterwards the item holds
   * exactly the cached names.
   */
  lemma MergeFacts(entries: map<string, CacheEntry>, id: string, section: string, title: string,
                   year: Option<int>, live: seq<string>)
    ensures var r := Merge(entries, id, section, title, year, live);
      && Grows(entries, r)
      && Saved(r, id, live)
      && forall c :: c in live + Restored(live, r[id].collections) <==> c in r[id].collections
  {
    MergeGrows(entries, id, section, title, year, live);
    MergeMeaning(entries, id, section, title, year, live);
    RestoredMeaning(live, Merge(entries, id, section, title, year, live)[id].collections);
  }

  /**
   * The second half of `process_item`: each cached name the item lacks is
   * appended to the item's list and, unless in dry run, added on the server.
   */
  method RestoreCollections(item: Item, cached: seq<string>, dryrun: bool)
    modifies item
    ensures var live := old(item.collections);
      var restore := Restored(live, cached);
      && item.log == old(item.log) + (if dryrun then [] else AddCalls(restore))
      && item.collections == (if dryrun || item.ignoresEdits then live else live + restore)
    ensures item.title == old(item.title) && item.genres == old(item.genres)
    ensures item.rejectsEdits == old(item.rejectsEdits) && item.ignoresEdits == old(item.ignoresEdits)
    ensures dryrun ==> unchanged(item)
  {
    var live := item.collections;
    var itemColls := live;
    ghost var added: seq<string> := [];
    for k := 0 to |cached|
      invariant added == Restored(live, cached[..k]) && itemColls == live + added
      invariant !dryrun ==> item.log == old(item.log) + AddCalls(added)
      invariant !dryrun ==> item.collections == (if item.ignoresEdits then live else itemColls)
      invariant item.title == old(item.title) && item.genres == old(item.genres)
      invariant item.rejectsEdits == old(item.rejectsEdits) && item.ignoresEdits == old(item.ignoresEdits)
      invariant dryrun ==> unchanged(item)
    {
      RestoredStep(live, cached, k);
      var coll := cached[k];
      if coll !in itemColls {
        AddCallsSnoc(added, coll);
        itemColls, added := itemColls + [coll], added + [coll];
        if !dryrun {
          item.AddCollection(coll);
        }
      }
    }
    assert cached[..|cached|] == cached;
  }

  lemma AddCallsSnoc(tags: seq<string>, tag: string)
    ensures AddCalls(tags + [tag]) == AddCalls(tags) + [Call.AddCollection(tag)]
  {
  }

  /**
   * Processing the same item a second time, with nothing changed in
   * between, restores nothing and leaves its cached collections as they
   * are: the first pass brings server and file into agreement.
   */
  lemma SecondPassQuiet(cached: seq<string>, live: seq<string>)
    ensures var merged := AppendNew(cached, live);
      var live2 := live + Restored(live, merged);
      && AppendNew(merged, live2) == merged
      && Restored(live2, AppendNew(merged, live2)) == []
  {
    var merged := AppendNew(cached, live);
    var live2 := live + Restored(live, merged);
    RestoredMeaning(live, merged);
    AppendNewMembers(cached, live);
    AppendNewPresent(merged, live2);
    RestoredNothing(live2, merged);
  }

  /** Nothing is restored when the item already has every cached name. */
  lemma {:induction false} RestoredNothing(live: seq<string>, cached: seq<string>)
    requires forall c :: c in cached ==> c in live
    ensures Restored(live, cached) == []
    decreases |cached|
  {
    if cached != [] {
      RestoredNothing(live, cached[..|cached| - 1]);
    }
  }

  /** A tag only the server has is saved to the file, and nothing is restored. */
  lemma CacheSavesNewTag()
    ensures AppendNew(["Classics"], ["Classics", "Noir"]) == ["Classics", "Noir"]
    ensures Restored(["Classics", "Noir"], ["Classics", "Noir"]) == []
  {
    var both := ["Classics", "Noir"];
    assert both[..1] == ["Classics"];
    AppendNewPresent(["Classics"], ["Classics"]);
    AppendNewStep(["Classics"], both, 1);
    RestoredNothing(both, both);
  }

  /** A tag only the file has is restored with one call, and the file is unchanged. */
  lemma CacheRestoresMissingTag()
    ensures AppendNew(["Classics", "Noir"], ["Classics"]) == ["Classics", "Noir"]
    ensures Restored(["Classics"], ["Classics", "Noir"]) == ["Noir"]
  {
    var both := ["Classics", "Noir"];
    assert both[..1] == ["Classics"];
    AppendNewPresent(both, ["Classics"]);
    RestoredNothing(["Classics"], both[..1]);
    RestoredStep(["Classics"], both, 1);
  }

  /** The content of the collections file at the start of a run. */
  datatype LoadResult =
    | NotFound
    | Loaded(content: Option<map<string, CacheEntry>>)
    | OpenError
    | ParseError

  /** The entries a load result starts the run with; `None` on an error. */
  function InitialEntries(load: LoadResult): (r: Option<map<string, CacheEntry>>)
    ensures r.None? <==> load.OpenError? || load.ParseError?
    ensures load.NotFound? || load == Loaded(None) ==> r == Some(map[])
    ensures load.Loaded? && load.content.Some? ==> r == load.content
  {
    match load
    case NotFound => Some(map[])
    case Loaded(c) => if c.None? then Some(map[]) else c
    case OpenError => None
    case ParseError => None
  }

  /**
   * The collections file path: an absolute name as is, a relative one
   * relative to the directory of the configuration file.
   */
  function CollectionsPath(collFile: string, configPath: string): (p: string)
    ensures IsAbs(collFile) ==> p == collFile
    ensures !IsAbs(collFile) ==> |p| >= |collFile| && p[|p| - |collFile|..] == collFile
    ensures !IsAbs(collFile) ==> |p| >= |Dirname(configPath)| && p[..|Dirname(configPath)|] == Dirname(configPath)
  {
    if IsAbs(collFile) then collFile
    else
      var p := PathJoin(Dirname(configPath), collFile);
      assert |p| >= |collFile|;
      p
  }

  /**
   * A relative file name is placed in the config file's directory: the
   * directory of the resulting path is the config file's directory, and a
   * config file given without a directory leaves the name as it is.
   */
  lemma CollectionsPathInConfigDir(collFile: string, configPath: string)
    requires collFile != [] && forall i :: 0 <= i < |collFile| ==> collFile[i] != '/'
    ensures Dirname(configPath) == [] ==> CollectionsPath(collFile, configPath) == collFile
    ensures var d := Dirname(configPath);
      d != [] && d[|d| - 1] != '/' ==> Dirname(CollectionsPath(collFile, configPath)) == d
  {
    var d := Dirname(configPath);
    if d != [] && d[|d| - 1] != '/' {
      DirnameOfJoin(d, collFile);
    }
  }

  /** Every name of `cs` is cached for `id`. */
  ghost predicate Saved(entries: map<string, CacheEntry>, id: string, cs: seq<string>) {
    id in entries && forall c :: c in cs ==> c in entries[id].collections
  }

  lemma SavedGrows(a: map<string, CacheEntry>, b: map<string, CacheEntry>, id: string, cs: seq<string>)
    requires Saved(a, id, cs) && Grows(a, b)
    ensures Saved(b, id, cs)
  {
    forall c | c in cs
      ensures c in b[id].collections
    {
      var k :| 0 <= k < |a[id].collections| && a[id].collections[k] == c;
      assert b[id].collections[..|a[id].collections|][k] == c;
    }
  }


  /** What the collections file caches for `id`; nothing when the id is new. */
  function CachedFor(entries: map<string, CacheEntry>, id: string): seq<string> {
    if id in entries then entries[id].collections else []
  }

  /** The change one processed item makes to the collections file. */
  function FileStep(): (map<string, CacheEntry>, Item, ItemState) -> map<string, CacheEntry> {
    (e: map<string, CacheEntry>, it: Item, s: ItemState) =>
      Merge(e, ItemId(it.key), it.sectionTitle, s.title, it.year, s.collections)
  }

  /** The state a processed item is left in, from the file right after its merge. */
  function RestoreStep(dryrun: bool): (map<string, CacheEntry>, Item, ItemState) -> ItemState {
    (e: map<string, CacheEntry>, it: Item, s: ItemState) => Restoring(s, CachedFor(e, ItemId(it.key)), dryrun)
  }

  /** The collections file only grows while items are processed. */
  lemma {:induction false} FileGrows(entries: map<string, CacheEntry>, xs: seq<Item>, pre: seq<ItemState>)
    requires |xs| <= |pre|
    ensures Grows(entries, Fold(entries, xs, pre, FileStep()))
    decreases |xs|
  {
    if xs == [] {
      GrowsReflexive(entries);
    } else {
      var m := |xs| - 1;
      var before := Fold(entries, xs[..m], pre, FileStep());
      FileGrows(entries, xs[..m], pre);
      MergeGrows(before, ItemId(xs[m].key), xs[m].sectionTitle, pre[m].title, xs[m].year, pre[m].collections);
      GrowsTransitive(entries, before, Fold(entries, xs, pre, FileStep()));
    }
  }

  /**
   * Once the items are processed, the file caches under each item's id
   * every collection the item had before: no collection is forgotten.
   */
  lemma {:induction false} FileSaves(entries: map<string, CacheEntry>, xs: seq<Item>, pre: seq<ItemState>)
    requires |xs| <= |pre|
    ensures forall j :: 0 <= j < |xs| ==> Saved(Fold(entries, xs, pre, FileStep()), ItemId(xs[j].key), pre[j].collections)
    decreases |xs|
  {
    if xs != [] {
      var m := |xs| - 1;
      var before := Fold(entries, xs[..m], pre, FileStep());
      var after := Fold(entries, xs, pre, FileStep());
      FileSaves(entries, xs[..m], pre);
      MergeFacts(before, ItemId(xs[m].key), xs[m].sectionTitle, pre[m].title, xs[m].year, pre[m].collections);
      forall j | 0 <= j < m
        ensures Saved(after, ItemId(xs[j].key), pre[j].collections)
      {
        assert xs[..m][j] == xs[j];
        SavedGrows(before, after, ItemId(xs[j].key), pre[j].collections);
      }
    }
  }

  /** A dry run leaves every processed item as it was (the file is still updated). */
  lemma PreservedDry(entries: map<string, CacheEntry>, pre: seq<ItemState>, xs: seq<Item>)
    requires AllFolded(entries, pre, xs, FileStep(), RestoreStep(true))
    ensures States(xs) == pre[..|xs|]
  {
    AllFoldedIdle(entries, pre, xs, FileStep(), RestoreStep(true));
  }

  /**
   * After a real run, a processed item the server applies edits to keeps
   * its collections and holds exactly the ones the file cached for it at
   * its turn: the ones it had and every remembered one it had lost.
   */
  lemma PreservedRestores(entries: map<string, CacheEntry>, pre: seq<ItemState>, xs: seq<Item>, j: nat)
    requires AllFolded(entries, pre, xs, FileStep(), RestoreStep(false)) && j < |xs| && !pre[j].ignoresEdits
    ensures var cached := CachedFor(Fold(entries, xs[..j + 1], pre, FileStep()), ItemId(xs[j].key));
      && pre[j].collections <= xs[j].collections
      && forall c :: c in xs[j].collections <==> c in cached
  {
    AllFoldedAt(entries, pre, xs, FileStep(), RestoreStep(false), j);
    var before := Fold(entries, xs[..j], pre, FileStep());
    assert xs[..j + 1][..j] == xs[..j];
    MergeFacts(before, ItemId(xs[j].key), xs[j].sectionTitle, pre[j].title, xs[j].year, pre[j].collections);
  }

  /**
   * `process_item` on `item`, the item at `k` of a loop over `xs` that
   * started from the file `start`: the file and the item reach the state
   * that processing `xs[..k + 1]` in order leaves them in.
   */
  method PreserveStep(dict: CollectionDict, item: Item, ghost xs: seq<Item>, ghost k: nat,
                      ghost start: map<string, CacheEntry>, ghost pre: seq<ItemState>, dryrun: bool)
    requires k < |xs| <= |pre| && item == xs[k]
    requires item !in xs[..k] && pre[k] == StateOf(item)
    requires dict.entries == Fold(start, xs[..k], pre, FileStep()) && AllFolded(start, pre, xs[..k], FileStep(), RestoreStep(dryrun))
    modifies dict, item
    ensures dict.entries == Fold(start, xs[..k + 1], pre, FileStep()) && AllFolded(start, pre, xs[..k + 1], FileStep(), RestoreStep(dryrun))
  {
    assert item !in ItemSet(xs[..k]);
    ghost var before := dict.entries;
    ProcessItem(dict, item, dryrun);
    FoldSnoc(start, xs, pre, FileStep(), k);
    assert dict.entries == FileStep()(before, item, pre[k]);
    assert StateOf(item) == RestoreStep(dryrun)(dict.entries, item, pre[k]);
    AllFoldedSnoc(start, pre, xs, FileStep(), RestoreStep(dryrun), k);
  }

  /**
   * One turn of the item loop, at `item`, the movie or show at `k` of the
   * distinct items `xs` the loop processes.
   */
  method PreserveTurn(dict: CollectionDict, item: Item, ghost xs: seq<Item>, ghost k: nat,
                      ghost start: map<string, CacheEntry>, ghost pre: seq<ItemState>, ghost pool: set<Item>,
                      dryrun: bool)
    requires k < |xs| == |pre| && item == xs[k] && Distinct(xs) && ItemSet(xs) <= pool
    requires dict.entries == Fold(start, xs[..k], pre, FileStep()) && AllFolded(start, pre, xs[..k], FileStep(), RestoreStep(dryrun))
    requires States(xs[k..]) == pre[k..]
    modifies dict, pool - ItemSet(xs[..k])
    ensures dict.entries == Fold(start, xs[..k + 1], pre, FileStep()) && AllFolded(start, pre, xs[..k + 1], FileStep(), RestoreStep(dryrun))
    ensures States(xs[k + 1..]) == pre[k + 1..] && unchanged(pool - ItemSet(xs[..k + 1]))
  {
    TurnReady(xs, pre, k);
    PreserveStep(dict, item, xs, k, start, pre, dryrun);
    ItemSetSnoc(xs, k);
  }

  /**
   * The item loop of one section: the movies and shows at the head of the
   * listing are processed in order, from the states `pre`, and the first
   * item of another type ends the loop with `ok` false. `process_item`
   * always returns 0, so no processed item stops the loop. The file
   * receives every processed item's merge, each processed item is left as
   * `process_item` leaves it, and no other item changes.
   */
  method ProcessSectionItems(dict: CollectionDict, items: seq<Item>, ghost pre: seq<ItemState>,
                             ghost pool: set<Item>, dryrun: bool)
    returns (ok: bool)
    requires ItemSet(ItemsWork(items, false).items) <= pool
    requires Distinct(ItemsWork(items, false).items)
    requires pre == States(ItemsWork(items, false).items)
    modifies dict, pool
    ensures var w := ItemsWork(items, false);
      && ok == !w.stop
      && dict.entries == Fold(old(dict.entries), w.items, pre, FileStep())
      && AllFolded(old(dict.entries), pre, w.items, FileStep(), RestoreStep(dryrun))
      && unchanged(pool - ItemSet(w.items))
  {
    ghost var p := PlainCount(items);
    ItemsWorkPlainCount(items);
    ok := PreservePlain(dict, items, items[..p], pre, pool, dryrun);
  }

  /**
   * The item loop of one section, over the listing `items` that starts
   * with the movies and shows `xs`, followed by an item of another type
   * unless `xs` is the whole listing.
   */
  method PreservePlain(dict: CollectionDict, items: seq<Item>, ghost xs: seq<Item>, ghost pre: seq<ItemState>,
                       ghost pool: set<Item>, dryrun: bool)
    returns (ok: bool)
    requires |xs| <= |items| && xs == items[..|xs|]
    requires forall j :: 0 <= j < |xs| ==> Plain(items[j])
    requires |xs| < |items| ==> !Plain(items[|xs|])
    requires Distinct(xs) && ItemSet(xs) <= pool && pre == States(xs)
    modifies dict, pool
    ensures ok == (|xs| == |items|)
    ensures dict.entries == Fold(old(dict.entries), xs, pre, FileStep())
    ensures AllFolded(old(dict.entries), pre, xs, FileStep(), RestoreStep(dryrun))
    ensures unchanged(pool - ItemSet(xs))
  {
    ghost var start := dict.entries;
    assert xs[0..] == xs && xs[..0] == [];
    for k := 0 to |items|
      invariant k <= |xs|
      invariant dict.entries == Fold(start, xs[..k], pre, FileStep())
      invariant AllFolded(start, pre, xs[..k], FileStep(), RestoreStep(dryrun))
      invariant States(xs[k..]) == pre[k..]
      invariant unchanged(pool - ItemSet(xs[..k]))
    {
      var item := items[k];
      if !(item.kind == "movie" || item.kind == "show") {
        assert xs[..k] == xs;
        return false;
      }
      PreserveTurn(dict, item, xs, k, start, pre, pool, dryrun);
    }
    assert xs[..|items|] == xs;
    return true;
  }

  /**
   * The section loop of `run`, over the listed sections `all`: the movies
   * and shows of the selected sections are processed in order, and the
   * loop stops (`ok` false) at a selected section whose items cannot be
   * listed and at an item that is neither a movie nor a show. Every item
   * before the stop is processed, the file receives their merges, and no
   * other item changes.
   */
  method PreserveSections(dict: CollectionDict, all: seq<Section>, types: seq<string>, pattern: Option<string>,
                          search: (string, string) -> bool, dryrun: bool) returns (ok: bool)
    requires Distinct(SectionsWork(all, types, pattern, search, false).items)
    modifies dict, ItemsOf(all)
    ensures var w := SectionsWork(all, types, pattern, search, false);
      var pre := old(States(w.items));
      && ok == !w.stop
      && dict.entries == Fold(old(dict.entries), w.items, pre, FileStep())
      && AllFolded(old(dict.entries), pre, w.items, FileStep(), RestoreStep(dryrun))
      && unchanged(ItemsOf(all) - ItemSet(w.items))
    ensures ok ==> forall it :: it in SelectedItems(all, types, pattern, search) ==> it.kind == "movie" || it.kind == "show"
  {
    ok := true;
    ghost var full := SectionsWork(all, types, pattern, search, false);
    ghost var pre := States(full.items);
    ghost var start := dict.entries;
    ghost var pool := ItemsOf(all);
    SectionsWorkWithin(all, types, pattern, search, false);
    assert full.items[0..] == full.items && full.items[..0] == [];
    ghost var done: seq<Item> := [];
    for s := 0 to |all|
      invariant ok
      invariant SectionsWork(all[..s], types, pattern, search, false) == Work(done, false)
      invariant done <= full.items
      invariant dict.entries == Fold(start, done, pre, FileStep()) && AllFolded(start, pre, done, FileStep(), RestoreStep(dryrun))
      invariant States(full.items[|done|..]) == pre[|done|..]
      invariant unchanged(pool - ItemSet(done))
    {
      ok, done := PreserveNextSection(dict, all, s, types, pattern, search, pool, full, start, pre, done, dryrun);
      if !ok {
        break;
      }
    }
    if ok {
      assert all[..|all|] == all;
      SectionsWorkComplete(all, types, pattern, search, false);
    }
  }

  /**
   * One turn of the section loop, at `all[s]`, after the selected sections
   * before it gave the processed items `done`: an unselected section is
   * skipped, and the items of a selected one are processed. `next` are the
   * items processed so far; when `ok` is false they are the whole work and
   * the section loop ends.
   */
  method PreserveNextSection(dict: CollectionDict, all: seq<Section>, s: nat, types: seq<string>,
                             pattern: Option<string>, search: (string, string) -> bool, ghost pool: set<Item>,
                             ghost full: Work, ghost start: map<string, CacheEntry>, ghost pre: seq<ItemState>,
                             ghost done: seq<Item>, dryrun: bool)
    returns (ok: bool, ghost next: seq<Item>)
    requires s < |all| && full == SectionsWork(all, types, pattern, search, false)
    requires |pre| == |full.items| && Distinct(full.items) && ItemSet(full.items) <= pool
    requires SectionsWork(all[..s], types, pattern, search, false) == Work(done, false) && done <= full.items
    requires dict.entries == Fold(start, done, pre, FileStep()) && AllFolded(start, pre, done, FileStep(), RestoreStep(dryrun))
    requires States(full.items[|done|..]) == pre[|done|..]
    modifies dict, pool - ItemSet(done)
    ensures next <= full.items
    ensures dict.entries == Fold(start, next, pre, FileStep()) && AllFolded(start, pre, next, FileStep(), RestoreStep(dryrun))
    ensures States(full.items[|next|..]) == pre[|next|..]
    ensures ItemSet(done) <= ItemSet(next) && unchanged(pool - ItemSet(next))
    ensures ok ==> SectionsWork(all[..s + 1], types, pattern, search, false) == Work(next, false)
    ensures !ok ==> full == Work(next, true)
  {
    SectionNext(all, types, pattern, search, false, s, done);
    var section := all[s];
    if !Selected(section, types, pattern, search) {
      return true, done;
    }
    ghost var vw := ListingWork(section.items, false);
    ok := PreserveSection(dict, section.items, vw, pool, full, start, pre, done, dryrun);
    ItemSetAppend(done, vw.items);
    next := done + vw.items;
  }

  /**
   * One selected section, seen from the section loop: its items are
   * listed and the item loop runs over them, or the listing fails
   * (`listing` is `None`) and the section loop ends.
   */
  method PreserveSection(dict: CollectionDict, listing: Option<seq<Item>>, ghost vw: Work, ghost pool: set<Item>,
                         ghost full: Work, ghost start: map<string, CacheEntry>, ghost pre: seq<ItemState>,
                         ghost done: seq<Item>, dryrun: bool)
    returns (ok: bool)
    requires vw == ListingWork(listing, false)
    requires && |pre| == |full.items| && Distinct(full.items) && ItemSet(full.items) <= pool
             && done + vw.items <= full.items && States(full.items[|done|..]) == pre[|done|..]
    requires dict.entries == Fold(start, done, pre, FileStep()) && AllFolded(start, pre, done, FileStep(), RestoreStep(dryrun))
    modifies dict, pool - ItemSet(done)
    ensures ok == !vw.stop
    ensures dict.entries == Fold(start, done + vw.items, pre, FileStep()) && AllFolded(start, pre, done + vw.items, FileStep(), RestoreStep(dryrun))
    ensures States(full.items[|done + vw.items|..]) == pre[|done + vw.items|..]
    ensures unchanged(pool - ItemSet(done) - ItemSet(vw.items))
  {
    if listing.None? {
      assert done + vw.items == done;
      return false;
    }
    ok := PreserveListing(dict, listing.value, vw, pool, full, start, pre, done, dryrun);
  }

  /** `PreserveSection` when the listing gave `items`. */
  method PreserveListing(dict: CollectionDict, items: seq<Item>, ghost vw: Work, ghost pool: set<Item>,
                         ghost full: Work, ghost start: map<string, CacheEntry>, ghost pre: seq<ItemState>,
                         ghost done: seq<Item>, dryrun: bool)
    returns (ok: bool)
    requires vw == ItemsWork(items, false)
    requires && |pre| == |full.items| && Distinct(full.items) && ItemSet(full.items) <= pool
             && done + vw.items <= full.items && States(full.items[|done|..]) == pre[|done|..]
    requires dict.entries == Fold(start, done, pre, FileStep()) && AllFolded(start, pre, done, FileStep(), RestoreStep(dryrun))
    modifies dict, pool - ItemSet(done)
    ensures ok == !vw.stop
    ensures dict.entries == Fold(start, done + vw.items, pre, FileStep()) && AllFolded(start, pre, done + vw.items, FileStep(), RestoreStep(dryrun))
    ensures States(full.items[|done + vw.items|..]) == pre[|done + vw.items|..]
    ensures unchanged(pool - ItemSet(done) - ItemSet(vw.items))
  {
    ChunkReady(full.items, pre, done, vw.items);
    ok := PreserveKept(dict, items, vw, pool, full, pre, done, start, dryrun);
    FoldAppend(start, pre, done, vw.items, |done + vw.items|, FileStep());
    AllFoldedAppend(start, pre, done, vw.items, |done + vw.items|, FileStep(), RestoreStep(dryrun));
  }

  /** `PreserveListing` before its outcome is lifted: the items processed before keep their states. */
  method PreserveKept(dict: CollectionDict, items: seq<Item>, ghost vw: Work, ghost pool: set<Item>,
                      ghost full: Work, ghost pre: seq<ItemState>, ghost done: seq<Item>,
                      ghost start: map<string, CacheEntry>, dryrun: bool)
    returns (ok: bool)
    requires vw == ItemsWork(items, false)
    requires && |done + vw.items| <= |pre| <= |full.items| && Distinct(vw.items)
             && ItemSet(vw.items) <= pool && ItemSet(done) !! ItemSet(vw.items)
             && ItemSet(vw.items) !! ItemSet(full.items[|done + vw.items|..])
             && States(vw.items) == pre[|done|..|done + vw.items|]
             && States(full.items[|done + vw.items|..]) == pre[|done + vw.items|..]
    requires AllFolded(start, pre, done, FileStep(), RestoreStep(dryrun))
    modifies dict, pool - ItemSet(done)
    ensures AllFolded(start, pre, done, FileStep(), RestoreStep(dryrun))
    ensures ok == !vw.stop
    ensures dict.entries == Fold(old(dict.entries), vw.items, pre[|done|..|done + vw.items|], FileStep())
    ensures AllFolded(old(dict.entries), pre[|done|..|done + vw.items|], vw.items, FileStep(), RestoreStep(dryrun))
    ensures States(full.items[|done + vw.items|..]) == pre[|done + vw.items|..]
    ensures unchanged(pool - ItemSet(done) - ItemSet(vw.items))
  {
    ok := PreserveSlice(dict, items, vw, pool, full, pre, done, dryrun);
  }

  /** The item loop on the states of the section's items, which sit at `|done|` in `pre`. */
  method PreserveSlice(dict: CollectionDict, items: seq<Item>, ghost vw: Work, ghost pool: set<Item>,
                       ghost full: Work, ghost pre: seq<ItemState>, ghost done: seq<Item>, dryrun: bool)
    returns (ok: bool)
    requires vw == ItemsWork(items, false)
    requires && |done + vw.items| <= |pre| <= |full.items| && Distinct(vw.items)
             && ItemSet(vw.items) <= pool && ItemSet(done) !! ItemSet(vw.items)
             && ItemSet(vw.items) !! ItemSet(full.items[|done + vw.items|..])
             && States(vw.items) == pre[|done|..|done + vw.items|]
             && States(full.items[|done + vw.items|..]) == pre[|done + vw.items|..]
    modifies dict, pool - ItemSet(done)
    ensures ok == !vw.stop
    ensures dict.entries == Fold(old(dict.entries), vw.items, pre[|done|..|done + vw.items|], FileStep())
    ensures AllFolded(old(dict.entries), pre[|done|..|done + vw.items|], vw.items, FileStep(), RestoreStep(dryrun))
    ensures States(full.items[|done + vw.items|..]) == pre[|done + vw.items|..]
    ensures unchanged(pool - ItemSet(done) - ItemSet(vw.items))
  {
    ok := ProcessSectionItems(dict, items, pre[|done|..|done + vw.items|], ItemSet(vw.items), dryrun);
  }

  /** The items a run over `sections` may change. */
  function Listed(sections: Option<seq<Section>>): set<Item> {
    if sections.Some? then ItemsOf(sections.value) else {}
  }

  /**
   * The configuration lets the section loop start: a collections file is
   * named and loads, the section types are valid and the sections are
   * listed.
   */
  predicate SetUp(collFile: Option<string>, configPath: string, files: string -> LoadResult,
                  sectionTypes: SectionTypesArg, sections: Option<seq<Section>>) {
    && collFile.Some? && collFile.value != ""
    && InitialEntries(files(CollectionsPath(collFile.value, configPath))).Some?
    && SectionTypes(sectionTypes).Some? && sections.Some?
  }

  /**
   * `run`: resolve and load the collections file, check the section types,
   * then run the section loop (`PreserveSections`) and, unless in dry run,
   * write the file back. Reading and writing the file are given as `files`
   * (the load outcome for a path) and `writable` (whether writing a path
   * succeeds); `final` is the dictionary at the end and `written` tells
   * whether it was saved. A failing step before the loop returns 1 and
   * touches nothing. Otherwise every movie and show of the selected
   * sections up to the loop's stop is processed in order, even in dry run
   * the dictionary receives their merges, every collection they had is in
   * it, and 0 is returned exactly when the loop ran to its end and the
   * file could be written (or need not be). Items are distinct objects.
   */
  method Run(collFile: Option<string>, configPath: string, files: string -> LoadResult,
             writable: string -> bool, sectionTypes: SectionTypesArg,
             sectionPattern: Option<string>, sections: Option<seq<Section>>,
             search: (string, string) -> bool, dryrun: bool)
    returns (rc: int, path: string, final: map<string, CacheEntry>, written: bool)
    requires sections.Some? && SectionTypes(sectionTypes).Some? ==>
      Distinct(SectionsWork(sections.value, SectionTypes(sectionTypes).value, sectionPattern, search, false).items)
    modifies Listed(sections)
    ensures rc == 0 || rc == 1
    ensures written <==> rc == 0 && !dryrun
    ensures written ==> writable(path)
    ensures collFile.Some? && collFile.value != "" ==> path == CollectionsPath(collFile.value, configPath)
    ensures !SetUp(collFile, configPath, files, sectionTypes, sections) ==> rc == 1 && unchanged(Listed(sections))
    ensures SetUp(collFile, configPath, files, sectionTypes, sections) ==>
      var w := SectionsWork(sections.value, SectionTypes(sectionTypes).value, sectionPattern, search, false);
      var pre := old(States(w.items));
      var initial := InitialEntries(files(path)).value;
      && final == Fold(initial, w.items, pre, FileStep())
      && AllFolded(initial, pre, w.items, FileStep(), RestoreStep(dryrun))
      && unchanged(Listed(sections) - ItemSet(w.items))
      && (rc == 0 <==> !w.stop && (dryrun || writable(path)))
      && Grows(initial, final)
      && forall j :: 0 <= j < |w.items| ==> Saved(final, ItemId(w.items[j].key), pre[j].collections)
    ensures rc == 0 ==>
      && SetUp(collFile, configPath, files, sectionTypes, sections)
      && forall it :: it in SelectedItems(sections.value, SectionTypes(sectionTypes).value, sectionPattern, search) ==>
           it.kind == "movie" || it.kind == "show"
  {
    path, final, written := "", map[], false;
    if collFile.None? || collFile.value == "" {
      return 1, path, final, written;
    }
    path := CollectionsPath(collFile.value, configPath);
    var initial := InitialEntries(files(path));
    if initial.None? {
      return 1, path, final, written;
    }
    var types := SectionTypes(sectionTypes);
    if types.None? {
      return 1, path, final, written;
    }
    if sections.None? {
      return 1, path, final, written;
    }
    var all := sections.value;
    ghost var w := SectionsWork(all, types.value, sectionPattern, search, false);
    SectionsWorkWithin(all, types.value, sectionPattern, search, false);
    assert forall x :: x in ItemSet(w.items) ==> old(allocated(x)) by {
      forall x | x in ItemSet(w.items)
        ensures old(allocated(x))
      {
        var sec, k :| sec in all && sec.items.Some? && 0 <= k < |sec.items.value| && sec.items.value[k] == x;
      }
    }
    assert States(w.items) == old(States(w.items));
    var dict := new CollectionDict(initial.value);
    var ok := PreserveSections(dict, all, types.value, sectionPattern, search, dryrun);
    final := dict.entries;
    FileGrows(initial.value, w.items, old(States(w.items)));
    FileSaves(initial.value, w.items, old(States(w.items)));
    if !ok {
      return 1, path, final, written;
    }
    if !dryrun {
      if !writable(path) {
        return 1, path, final, written;
      }
      written := true;
    }
    return 0, path, final, written;
  }

}
