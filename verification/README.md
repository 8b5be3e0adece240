# plexmediafixup core, modelled in Dafny

plexmediafixup runs "fixups" against a Plex Media Server library. This project models the sequential logic of three fixups and the support code around them:

- **Genre cleanup** (`video_genre_cleanup`) rewrites the genre list of every movie and show by per-language rules:
  - `change` maps a desired genre to the original genres it replaces;
  - `remove` lists genres to drop;
  - `if_empty` is the default genre when nothing is left.
  The fixup writes one delete-and-re-add edit, only when the list changed, and then reads the genres back to verify them.
- **Collection preservation** (`preserve_collections`) keeps a YAML cache file of each item's collection tags. It merges the live tags of an item into the cache. The cache only grows. Tags that are cached but missing on the server are re-added with `addCollection`.
- **Title sync** (`sync_title`) translates each media file of a movie or episode from its server path to a local path through the first matching path mapping. It reads each file's title tag, and when all files agree on a non-empty tag that differs from the title, it sets and locks the title and reads it back.
- **Fixup registry** (`FixupManager.get_fixup`) is a memoising lookup. It imports a fixup module and instantiates the first class in it that strictly derives from `Fixup`.
- **Configuration file** (`ConfigFile`) keeps the loaded data, which only a successful load sets. A validation error names the invalid item by a path such as `fixups[0].name`.

The media server is a set of `Catalog.Item` objects:
- An item's fields hold what the server stores: title, genres and collections.
- A ghost `log` records every `edit` and `addCollection` call, so "no write in dry run" and "write only when changed" are contracts.
- How the server answers a write is part of the item: `rejectsEdits` makes every edit raise, and `ignoresEdits` makes the server accept an edit without applying it.
- Reloading an item reads these fields.

Network and file-system answers are parameters of the operations:
- listing sections, items and episodes (`None` when the call raises);
- `re.search` on a section title;
- `os.path.exists`;
- the metadata probe;
- loading the cache file and whether writing it succeeds;
- the modules a fixup import yields;
- the config file's parsed document and its schema validator.

Files:
- `text.dfy`: `Option`, decimal formatting, `join` and `replace` on characters.
- `seqs.dfy`: duplicate-free lists and the "append if not yet present" idiom.
- `paths.dfy`: POSIX `os.path.join`, `dirname` and `isabs`.
- `catalog.dfy`: items, sections and the section-type check that the three fixups share.
- One file per modelled source file.

The model follows the code where the code and its docstrings differ:
- The `get_fixup` docstring (plexmediafixup/fixup.py:27-28) says that an existing fixup object for the name is returned. The code caches a new object under the class's attribute name, so a second request for the same name can create a second object; see Findings.
- The same docstring (plexmediafixup/fixup.py:44) names `ImportError` as the only error. When the imported module holds no class derived from `Fixup`, `get_fixup` returns `None` without an error.

The three `run` loops share one shape (`Catalog.Outcome`): the items of the selected sections are processed in order, and the loop ends with 1 at the first item whose processing fails, at an item of another type, and at a listing that raises. Each fixup states its per-item effect, and the loop's contract says that every item up to the stop is left as `process_item` leaves it, that no other item changes, and that 0 is returned exactly when nothing stopped the loop.

## Model

| member | source | states |
|---|---|---|
| Text.NatToString | plexmediafixup/fixups/video_genre_cleanup.py:273-275 | `'{}'.format(i)` of an index: a non-empty string of decimal digits, one digit exactly for i < 10 |
| Text.NatToStringInjective | plexmediafixup/fixups/video_genre_cleanup.py:273-275 | different indexes give different texts (through the digits-value round trip) |
| Text.ReplaceChar | plexmediafixup/fixups/sync_title.py:163-167 | `str.replace` on one character: same length; every occurrence of the character is replaced and all others are kept |
| Seqs.AppendNew | plexmediafixup/fixups/video_genre_cleanup.py:237-243 | appending the elements not yet present: the old list stays a prefix; appended elements were absent; no duplicates are introduced |
| Seqs.AppendNewFresh | plexmediafixup/fixups/preserve_collections.py:245-252 | distinct new elements are all appended, in order |
| Seqs.AppendNewPresent | plexmediafixup/fixups/preserve_collections.py:245-252 | elements that are all present change nothing |
| Seqs.AppendNewOrder | plexmediafixup/fixups/preserve_collections.py:245-252 | the appended part is exactly the elements of the new list that were absent, each once, in the order of their first occurrence in that list |
| Catalog.LookupMeaning | plexmediafixup/fixups/sync_title.py:319-328 | the server reads a parameter when, and only when, the request names it, with the value given |
| Catalog.LookupAt | plexmediafixup/fixups/sync_title.py:319-328 | when several parameters share a name, the first one decides |
| Catalog.AddedGenresFrom | plexmediafixup/fixups/video_genre_cleanup.py:273-275 | numbered genre parameters `genre[0]`, `genre[1]`, ... present up to the list's end make the server add exactly that list, in order |
| Catalog.Item.Edit | plexmediafixup/fixups/sync_title.py:326-334 | `item.edit`: raises exactly when the server rejects edits; the call is logged; when applied, `title.value` sets the title and the genre-delete parameter replaces the genres with the added ones; collections are unchanged |
| Catalog.Item.AddCollection | plexmediafixup/fixups/preserve_collections.py:263-264 | `addCollection`: logged; appends the tag unless the server ignores writes; nothing else changes |
| Catalog.SectionTypes | plexmediafixup/fixups/sync_title.py:71-80 | `None` becomes movie and show, a string becomes a one-element list, and any type other than movie or show is an error (both directions) |
| Catalog.SectionsWorkComplete | plexmediafixup/fixups/video_genre_cleanup.py:145-186 | a section loop that does not stop listed every selected section, and every item of them is processable (a movie, or a show with its episodes when those are needed) |
| Catalog.FirstFailureMeaning | plexmediafixup/fixups/video_genre_cleanup.py:171-180 | no item before the first failure fails, and the item at it does |
| Catalog.OutcomeMeaning | plexmediafixup/fixups/video_genre_cleanup.py:145-188 | a loop outcome is 0 or 1; 0 exactly when the work does not stop and no item fails, and then every item was processed; otherwise every processed item but the last succeeded, and the loop stopped right after a failing item or at the end of a work that stops |
| Catalog.AllDoneAt | plexmediafixup/fixups/video_genre_cleanup.py:171-180 | each processed item is in the state `process_item` leaves it in, from its state before the loop |
| Catalog.AllDoneIdle | plexmediafixup/fixups/video_genre_cleanup.py:171-180 | an effect that changes no state, as a dry run, leaves every processed item as it was |
| Catalog.AllFoldedAt | plexmediafixup/fixups/preserve_collections.py:147-160 | with a record kept across items, each processed item is in the state its turn leaves it in, given the record right after its turn |
| Catalog.FoldSnoc | plexmediafixup/fixups/preserve_collections.py:147-160 | the record after one more item is that item's step applied to the record before it |
| GenreCleanup.ReversedChangeDict | plexmediafixup/fixups/video_genre_cleanup.py:45-53 | the keys of the reversed table are exactly the originals in some list; each original maps to its desired genres, once per occurrence, in key order |
| GenreCleanup.ReversedMeaning | plexmediafixup/fixups/video_genre_cleanup.py:45-53 | the same two facts for the specification of the nested loop |
| GenreCleanup.ExampleReversed | plexmediafixup/fixups/video_genre_cleanup.py:45-53 | `{"Action": ["Action Film", "Action/Adventure"]}` reverses to both originals mapping to `["Action"]` |
| GenreCleanup.ComputeNewGenres | plexmediafixup/fixups/video_genre_cleanup.py:223-249 | the loop computes the specified new genre list |
| GenreCleanup.ConsolidatedNoDup | plexmediafixup/fixups/video_genre_cleanup.py:237-249 | the new genre list never holds a genre twice |
| GenreCleanup.ConsolidatedMembers | plexmediafixup/fixups/video_genre_cleanup.py:225-243 | a genre is in the list exactly when some stored genre contributes it (not empty, not `if_empty`, not removed; changed into it or kept as itself) |
| GenreCleanup.IfEmptyDefault | plexmediafixup/fixups/video_genre_cleanup.py:247-249 | the result is `[if_empty]` when nothing is contributed and `if_empty` is truthy; otherwise it is the non-empty consolidated list |
| GenreCleanup.NewGenresIdempotent | plexmediafixup/fixups/video_genre_cleanup.py:225-249 | when desired genres are non-empty, not `if_empty`, not removed and not changed again, rewriting twice equals rewriting once |
| GenreCleanup.NotIdempotentInGeneral | plexmediafixup/fixups/video_genre_cleanup.py:235-240 | with chained changes (Drama to Action to Thriller) a second rewrite changes the list again |
| GenreCleanup.ExampleContributions | plexmediafixup/fixups/video_genre_cleanup.py:227-243 | in the example configuration, "Action Film" contributes "Action", "Short" nothing and "Drama" itself |
| GenreCleanup.WorkedExample | plexmediafixup/fixups/video_genre_cleanup.py:225-249 | `["Action Film", "Short", "Drama"]` becomes `["Action", "Drama"]` |
| GenreCleanup.WorkedExampleDefault | plexmediafixup/fixups/video_genre_cleanup.py:247-249 | `["Short"]` becomes `["Unknown"]` |
| GenreCleanup.GenreKeyInjective | plexmediafixup/fixups/video_genre_cleanup.py:273-275 | different indexes give different `genre[i].tag.tag` names |
| GenreCleanup.GenreKeyNotDelete | plexmediafixup/fixups/video_genre_cleanup.py:267-275 | no add parameter is the delete parameter |
| GenreCleanup.LookupGenreKey | plexmediafixup/fixups/video_genre_cleanup.py:273-275 | in the request, `genre[i].tag.tag` is the i-th new genre, and is absent past the end |
| GenreCleanup.GenreEditSetsNoTitle | plexmediafixup/fixups/video_genre_cleanup.py:264-278 | the genre edit names no `title.value` parameter, so it leaves the title alone |
| GenreCleanup.GenreRequestRoundTrip | plexmediafixup/fixups/video_genre_cleanup.py:264-278 | as the server reads the request, it deletes the comma-joined actual genres and adds exactly the new list, in order |
| GenreCleanup.BuildEditFields | plexmediafixup/fixups/video_genre_cleanup.py:267-275 | the loop builds the specified request parameters |
| GenreCleanup.ProcessItem | plexmediafixup/fixups/video_genre_cleanup.py:220-299 | one edit is logged only when the new list differs (order-sensitive) and not in dry run; afterwards the genres are the new list, or unchanged when the edit fails; 1 exactly when the edit raises or does not stick; title and collections are untouched |
| GenreCleanup.DryRunKeepsStates | plexmediafixup/fixups/video_genre_cleanup.py:262-298 | in a dry run every processed item keeps its state |
| GenreCleanup.SelectCleanup | plexmediafixup/fixups/video_genre_cleanup.py:108-117 | no entry exactly when no language matches; otherwise the last matching entry |
| GenreCleanup.CleanupItems | plexmediafixup/fixups/video_genre_cleanup.py:171-186 | the item loop of a section: the movies and shows at its head are processed in order, each left as `process_item` leaves it (`GenreEffect`), up to and including the first that fails; an item of another type stops it with 1; no other item changes |
| GenreCleanup.CleanupPlain | plexmediafixup/fixups/video_genre_cleanup.py:171-186 | the same loop over the listing, given its movies and shows at the head |
| GenreCleanup.CleanupSections | plexmediafixup/fixups/video_genre_cleanup.py:145-188 | the section loop: the items of the selected sections are processed in order up to the stop, each left as `process_item` leaves it; the loop returns 1 exactly at a failing item, an item of another type or a listing that raises; no other item changes; 0 only when every selected item is a movie or a show |
| GenreCleanup.Run | plexmediafixup/fixups/video_genre_cleanup.py:96-188 | 1 with no change without a language, without a matching entry (the last match is used), with a bad section type, or when sections cannot be listed; otherwise the section loop's outcome with the rules of that entry |
| PreserveCollections.ItemIdMeaning | plexmediafixup/fixups/preserve_collections.py:213 | the id is the suffix of `item.key` after its last `/`: it holds no `/`, and it is the whole key or is preceded by `/` |
| PreserveCollections.ItemIdExample | plexmediafixup/fixups/preserve_collections.py:213 | `/library/metadata/4711` gives `4711` |

| PreserveCollections.MergeMeaning | plexmediafixup/fixups/preserve_collections.py:218-252 | the item's entry gets the live section, title and year; its cached tags become the old ones plus each missing live tag (old list a prefix, membership the union); every other id is unchanged |
| PreserveCollections.MergeGrows | plexmediafixup/fixups/preserve_collections.py:245-252 | the merge only grows the cache: no id is lost and every tag list keeps its old tags as a prefix |
| PreserveCollections.GrowsTransitive | plexmediafixup/fixups/preserve_collections.py:147-160 | growth composes across items |
| PreserveCollections.RestoredMeaning | plexmediafixup/fixups/preserve_collections.py:255-264 | the restored tags are exactly the cached tags the item lacks, each once |
| PreserveCollections.RestoredNothing | plexmediafixup/fixups/preserve_collections.py:255-264 | nothing is restored when the item has every cached tag |
| PreserveCollections.AppendMissing | plexmediafixup/fixups/preserve_collections.py:245-252 | the "save live tags" loop computes the specified list |
| PreserveCollections.RestoreCollections | plexmediafixup/fixups/preserve_collections.py:255-264 | one `addCollection` call per restored tag, in order and never in dry run; the item's collections become live plus restored |
| PreserveCollections.ProcessItem | plexmediafixup/fixups/preserve_collections.py:181-266 | the file becomes the merge of the item's live section, title, year and collections; the item becomes `Restoring` of its old state and the file's entry: outside dry run one `addCollection` per cached name it lacks, in order, added unless the server ignores writes; a dry run changes no item |
| PreserveCollections.MergeItem | plexmediafixup/fixups/preserve_collections.py:218-252 | the first half of `process_item`: the cache becomes the specified merge, and the entry's new tag list is returned |
| PreserveCollections.MergeFacts | plexmediafixup/fixups/preserve_collections.py:218-264 | after a merge the cache grew, the live tags are saved, and the live tags plus the restored ones are exactly the cached tags |
| PreserveCollections.SecondPassQuiet | plexmediafixup/fixups/preserve_collections.py:218-264 | processing the same item again merges nothing and restores nothing |
| PreserveCollections.CacheSavesNewTag | plexmediafixup/fixups/preserve_collections.py:245-264 | cache `["Classics"]`, server `["Classics", "Noir"]`: the cache becomes `["Classics", "Noir"]` and nothing is restored |
| PreserveCollections.CacheRestoresMissingTag | plexmediafixup/fixups/preserve_collections.py:245-264 | cache `["Classics", "Noir"]`, server `["Classics"]`: the cache is unchanged and "Noir" is restored |
| PreserveCollections.SavedGrows | plexmediafixup/fixups/preserve_collections.py:245-252 | a saved tag stays saved as the cache grows |
| PreserveCollections.InitialEntries | plexmediafixup/fixups/preserve_collections.py:84-100 | a missing file or an empty document starts an empty cache; a loaded map is used; any other open or parse error is an error (both directions) |
| PreserveCollections.CollectionsPath | plexmediafixup/fixups/preserve_collections.py:78-81 | an absolute path is used as is; a relative one ends with the given path, placed in the config file's directory |
| PreserveCollections.CollectionsPathInConfigDir | plexmediafixup/fixups/preserve_collections.py:78-81 | a plain relative file name is placed in the config file's directory: that is the directory of the result, and a config file without a directory leaves the name as it is |
| PreserveCollections.ProcessSectionItems | plexmediafixup/fixups/preserve_collections.py:147-160 | the item loop of a section: the movies and shows at its head are processed in order, the file receiving each merge in turn and each item left as its turn leaves it; it succeeds exactly when no item of another type stops it; no other item changes |
| PreserveCollections.PreservePlain | plexmediafixup/fixups/preserve_collections.py:147-160 | the same loop over the listing, given its movies and shows at the head |
| PreserveCollections.PreserveSections | plexmediafixup/fixups/preserve_collections.py:121-160 | the section loop: every item of the selected sections up to the stop is processed in order, the file receives their merges, no other item changes; it succeeds exactly when no listing raises and no item of another type is met |
| PreserveCollections.FileGrows | plexmediafixup/fixups/preserve_collections.py:147-160 | across the processed items the file only grows |
| PreserveCollections.FileSaves | plexmediafixup/fixups/preserve_collections.py:218-252 | after the loop the file caches, under each processed item's id, every collection the item had before |
| PreserveCollections.PreservedDry | plexmediafixup/fixups/preserve_collections.py:255-264 | in a dry run no processed item changes, although the file is updated |
| PreserveCollections.PreservedRestores | plexmediafixup/fixups/preserve_collections.py:218-264 | outside dry run, a processed item whose edits apply keeps its collections and then holds exactly the names the file cached for it at its turn |
| PreserveCollections.Run | plexmediafixup/fixups/preserve_collections.py:68-178 | 1 with no change without a file name, on a load error, with a bad section type, or when sections cannot be listed; otherwise the final file is the loaded one with every processed item merged in order (in dry run too), it grew, it saves every processed item's collections, each processed item is left as its turn leaves it, no other item changes; 0 exactly when the loop ran to its end and the file could be written or need not be; the file is written exactly on 0 outside dry run |
| Paths.PathJoin | plexmediafixup/fixups/preserve_collections.py:78-81 | `os.path.join`: an absolute second part replaces the first; otherwise the result starts with the first, ends with the second, and has one `/` between them |
| Paths.JoinKeepsName | plexmediafixup/fixups/preserve_collections.py:78-81 | the joined file name ends the path |
| Paths.DirnameOfJoin | plexmediafixup/fixups/preserve_collections.py:78-81 | `dirname(join(d, name)) == d` for a directory without a trailing `/` and a plain file name |
| SyncTitle.Slashed | plexmediafixup/fixups/sync_title.py:163-167 | a path with `\` turned into `/`: same length and no `\` left |
| SyncTitle.ServerRoot | plexmediafixup/fixups/sync_title.py:163-165 | the normalised root ends with `/`, holds no `\`, and is the server root plus at most one `/` |
| SyncTitle.LocalPathDefined | plexmediafixup/fixups/sync_title.py:161-175 | a path is mapped exactly when some mapping's root is a prefix of it |
| SyncTitle.LocalPathFirstMatch | plexmediafixup/fixups/sync_title.py:161-173 | the first matching mapping in list order gives the result |
| SyncTitle.RootItselfDoesNotMatch | plexmediafixup/fixups/sync_title.py:164-169 | a path equal to the root written without a trailing `/` is not mapped |
| SyncTitle.TranslateKeepsRemainder | plexmediafixup/fixups/sync_title.py:170-173 | the local path is the local root followed by the part after the server root (replaced by it when that part is absolute) |
| SyncTitle.LocalPathExample | plexmediafixup/fixups/sync_title.py:161-173 | `\\n\a.mkv` with mapping `\\n` to `/m` gives `/m/a.mkv` |
| SyncTitle.AgreeMeaning | plexmediafixup/fixups/sync_title.py:280-291 | no tag exactly when no file has one; tag x exactly when the first file with a tag has x and so does every later file |
| SyncTitle.DisagreeStays | plexmediafixup/fixups/sync_title.py:284-291 | once the files disagree, later files change nothing |
| SyncTitle.AgreeExamples | plexmediafixup/fixups/sync_title.py:280-291 | `[None, "X"]` agrees on "X", and `["X", None]` disagrees |
| SyncTitle.AbortStays | plexmediafixup/fixups/sync_title.py:258-276 | once a file fails, the whole item fails |
| SyncTitle.NewTitle | plexmediafixup/fixups/sync_title.py:294-304 | a new title exactly when the files agree on a non-empty tag different from the title, and it is that tag |
| SyncTitle.NewTitleConverges | plexmediafixup/fixups/sync_title.py:303-304 | after the title is set to the tag, the same files give no new title |
| SyncTitle.TitleFieldsRead | plexmediafixup/fixups/sync_title.py:319-324 | the request sets `title.value` to the tag and deletes no genre |
| SyncTitle.ProcessItem | plexmediafixup/fixups/sync_title.py:251-344 | 1 with no change when a file is unmapped, missing or fails to probe; 0 with no change on disagreement, no or empty tag, equal title, or dry run; otherwise one edit is logged, the title becomes the tag unless the server rejects or ignores it, and the result is 1 exactly then |
| SyncTitle.DryRunKeepsStates | plexmediafixup/fixups/sync_title.py:313-342 | in a dry run every processed item keeps its state |
| SyncTitle.TagAsWritten | plexmediafixup/fixups/sync_title.py:207-248 | as written, a failed probe yields the tag 1 rather than an error |
| SyncTitle.NewTitleAsWritten | plexmediafixup/fixups/sync_title.py:294-304 | as written, the tag 1 always passes the skip tests |
| SyncTitle.ProbeFailureSetsTitleOne | plexmediafixup/fixups/sync_title.py:277-342 | as written, one file whose probe fails makes the edit set the title to "1", and the check after it can never succeed |
| SyncTitle.ProbeFailureFailsItem | plexmediafixup/fixups/sync_title.py:258-278 | with the correction, a file whose probe fails makes the whole item fail |
| SyncTitle.HandleItem | plexmediafixup/fixups/sync_title.py:119-146 | one listed item: a movie is processed; a show's episodes are processed in order up to and including the first that fails; a show whose episodes cannot be listed and an item of another type give 1 with no change |
| SyncTitle.ProcessEach | plexmediafixup/fixups/sync_title.py:131-141 | the episode loop: episodes are processed in order, each left as `process_item` leaves it, up to and including the first that fails; 0 exactly when none fails; later episodes are unchanged |
| SyncTitle.HandleItems | plexmediafixup/fixups/sync_title.py:119-146 | the item loop of a section: the movies and the episodes of the shows are processed in order up to the stop, each left as `process_item` leaves it; 1 exactly at a failure, a show without listable episodes or an item of another type; no other item changes |
| SyncTitle.TitleSections | plexmediafixup/fixups/sync_title.py:91-146 | the section loop over the selected sections, with the same outcome over all their movies and episodes; 0 only when every selected item is processable |
| SyncTitle.Run | plexmediafixup/fixups/sync_title.py:66-148 | 1 with no change with a bad section type or when sections cannot be listed; otherwise the section loop's outcome |
| FixupRegistry.FirstQualifying | plexmediafixup/fixup.py:52-54 | the first member, in `getmembers` order, that is a class strictly derived from this file's `Fixup`; none when no member is |
| FixupRegistry.FindQualifying | plexmediafixup/fixup.py:52-57 | the member loop finds that first member |
| FixupRegistry.FirstQualifyingIsFirst | plexmediafixup/fixup.py:52-57 | a qualifying member with none before it is the one found |
| FixupRegistry.Fixup.constructor | plexmediafixup/fixup.py:65-73 | `Fixup.__init__` records the name |
| FixupRegistry.Fixup.Run | plexmediafixup/fixup.py:75-79 | the base `run` always raises `NotImplementedError` |
| FixupRegistry.FixupManager.constructor | plexmediafixup/fixup.py:20-22 | a new manager has an empty cache |
| FixupRegistry.FixupManager.GetFixup | plexmediafixup/fixup.py:24-57 | a cached name returns the cached object with no import; a failed import raises; no qualifying class returns `None` with the cache unchanged; otherwise a new object of the first qualifying class is cached and returned |
| FixupRegistry.FixupManager.GetFixupAsWritten | plexmediafixup/fixup.py:46-57 | as written, the new object is cached under the class's attribute name |
| FixupRegistry.LookupTwice | plexmediafixup/fixup.py:46-57 | with the correction, a second request for a name returns the first object, and the cache gains at most that name |
| FixupRegistry.LookupTwiceAsWritten | plexmediafixup/fixup.py:52-56 | as written, when the attribute name differs from the fixup name, a second request creates a second, different object |
| FixupRegistry.PrivateBaseFindsNoPublicFixup | plexmediafixup/_fixup.py:52-57 | the manager of `_fixup.py` tests against its own `Fixup`, so it finds no class derived from the `Fixup` of `fixup.py` |
| FixupRegistry.SyncTitleModuleExample | plexmediafixup/fixups/sync_title.py:20-35 | in a module that imports `Fixup` beside `SyncTitle`, the class `SyncTitle` is chosen, its attribute name differs from "sync_title", and the `_fixup.py` manager chooses nothing |
| ConfigFile.FormatPath | plexmediafixup/utils/config_file.py:109-117 | the `parm_str` loop computes the specified path text |
| ConfigFile.KeysJoinWithDots | plexmediafixup/utils/config_file.py:114-117 | a path of non-empty keys is the keys joined with `.` |
| ConfigFile.ParmStrExtends | plexmediafixup/_reuse/config_file.py:109-117 | each component only appends: the text so far stays a prefix, and it grows unless the component is the empty key |
| ConfigFile.ParmStrExamples | plexmediafixup/utils/config_file.py:109-117 | `["fixups", 0, "name"]` gives `fixups[0].name`, `[0, "a"]` gives `[0].a`, and the empty path gives the empty string |
| ConfigFile.ConfigFile.constructor | plexmediafixup/utils/config_file.py:25-38 | a new object keeps the path and the schema and has no data |
| ConfigFile.ConfigFile.Load | plexmediafixup/_reuse/config_file.py:70-131 | no error exactly when the document is read and valid, and then the data is the document with the schema's defaults filled in by the validator; a missing file, another open error, a YAML syntax error and an invalid item give their distinct errors, the last naming the item's path; any other YAML error escapes unchanged; a failed load leaves the data as it was |

## Left out

- Printing and verbose output are not modelled. In `sync_title.py` the verbose message for an item with no title tag uses `local_file`. When the item has no media parts, that name is unbound (sync_title.py:298). This is reachable only with verbose on.
- `get_title_tag` is not modelled inside: the ffprobe subprocess, character decoding and JSON parsing. It is the `probe` parameter, whose answer is no title, a title or a failure.
- Catalog calls are not modelled as code: `sections()`, `all()`, `episodes()`, `iterParts()`, `edit`, `reload`, `isFullObject`, `addCollection`. They are the item's fields and methods. Items are taken as fully loaded, and a reload reads the fields.
- `re.search` and `os.path.exists` are parameters.
- Windows path semantics are not modelled. Paths are POSIX: `os.path.sep` is `/` and `os.path.join` is the POSIX join.
- `ensure_bytes` and `ensure_unicode` are not modelled. Strings are character sequences and byte tags are taken as already decoded.
- `title.locked` is the integer 1 in the request; the model writes the text "1".
- The YAML text of the collections file is not modelled: its formatting, key order and the dump options. Writing is `writable(path)`.
- A cache entry loaded without a `collections` key, which raises `KeyError` in the source, is not modelled. Neither are loaded documents that are not a mapping.
- PreserveCollections.ProcessItem: has no result value, because the source function always returns 0. The `if rc: return rc` tests after it (preserve_collections.py:149-156) therefore never fire, and the item loop stops only at an item of another type.
- PreserveCollections.Run: outside dry run, states that the file is written, not the file's content beyond the final dictionary.
- `importlib.import_module` and `inspect.getmembers` are not modelled. Together they are the `modules` parameter, and the package path `plexmediafixup.fixups` is implicit in it.
- Subclass `run` methods are modelled per fixup, not through the registry.
- `ConfigFile.help` is not modelled; it returns a placeholder text.
- The message texts of `ConfigFileError` are not modelled, apart from the item path. This includes the schema path joined with `.` and the validator name.
- JSON schema validation and its default-filling extension are the `validate` parameter.
- A validation path index is a `nat`, since list indexes in a validation path are never negative.
- A path mapping without a `server` or `local` key is not modelled; it makes `local_path` raise.
- Command-line handling, connecting to the server, and the loop that runs the configured fixups are not part of this model (plexmediafixup/cli.py).
- `sync_sort_title` is not modelled: it has no logic beyond a placeholder message.
- Seqs.AppendNew: its own contract states the prefix, freshness and absence of duplicates but not the order of the appended elements; Seqs.AppendNewOrder proves that order (first occurrences, in the order of the new list) as a separate lemma, to keep the function's contract cheap for its many callers.
- PreserveCollections.CollectionsPath: its own contract states the suffix and the config directory as a prefix; that the result's directory is the config file's directory is proved in PreserveCollections.CollectionsPathInConfigDir, for a plain file name whose config directory has no trailing `/`.
- Catalog.Item.AddCollection: models only a call that returns. In the source a server error from `addCollection` (preserve_collections.py:264) is not caught: it ends the whole program before the collections file is written. The model has no such path.
- Catalog.Item.Edit: the exceptions it raises are those the fixups catch (`PlexApiException` and `RequestException`); any other exception would end the program and is not modelled.
- `item.section()` (preserve_collections.py:214) is not caught in the source either; the model takes the item's section title as known, so a server error there is not modelled.
- Python exceptions that end the program are not modelled in general: a missing `change`, `remove` or `if_empty` key in the genre cleanup entry (video_genre_cleanup.py:119-121) and other `KeyError`s on malformed configuration.
- Items are distinct objects: every `run` method requires that the listing never hands the same item object to the loop twice. Listing results stand for I/O, so this is an assumption about the server, not something the code checks.
- The `search`, `files`, `writable`, `probe` and similar parameters stand for I/O (regular expressions, the file system, the network and ffprobe); the model says nothing about how they answer.

## Findings

| source | as written | input that shows it | evidently intended | confidence | as-written member | corrected member |
|---|---|---|---|---|---|---|
| plexmediafixup/fixup.py:52-56 | the loop `for name, obj in inspect.getmembers(...)` rebinds the parameter `name`, so the new object is cached under the class's attribute name | `get_fixup("sync_title")` twice: the class `SyncTitle` is cached as "SyncTitle", so the second call imports again and returns a new object | cache the object under the requested fixup name, so repeated requests return the same object | high, not executed | FixupRegistry.LookupTwiceAsWritten | FixupRegistry.LookupTwice |
| plexmediafixup/fixups/sync_title.py:215-219, 277-342 | `get_title_tag` returns the integer 1 when ffprobe or decoding fails, and `process_item` treats it as a title tag | one media file whose probe fails, dry run off: the title is set to 1, and the check `item.title != new_title` then fails | a probe failure fails the item without editing it | high, not executed | SyncTitle.ProbeFailureSetsTitleOne | SyncTitle.ProcessItem |
