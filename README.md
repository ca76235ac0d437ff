# Jackett indexer core, modelled in Dafny

This project models the decision-making core of Jackett, a proxy that turns
torrent-tracker web sites into Torznab feeds. It covers five pieces:

- **The configuration schema of an indexer** (`ConfigurationData`). This is an
  ordered list of typed setup items. It is serialised to a JSON array of
  `{id, type, name, value, ...}` objects and loaded back from one.
  - An item named "password" (compared without case) is a secret. The display
    form masks it with the sentinel `|||%%PREVJACKPASSWD%%|||`. The persisted
    form encrypts it through a protection service. Loading the sentinel back
    leaves the stored secret as it was.
- **The indexer registry** (`IndexerManagerService`). It is a dictionary from
  indexer ID to indexer, plus one configuration file `<dir>/<ID>.json` per
  indexer. Its operations are init, lookup, list, delete (which puts a fresh
  instance in the entry's place), browse test and save.
- **The manual search of the admin API** (`AdminController.Search`). It
  selects trackers and asks each one. A tracker that throws is isolated. The
  cleaned results are cached, and the filtered results are tagged with their
  tracker. Peers become leechers. The merged results are sorted by date when
  more than one tracker was selected, and "None" is reported when none was.
  - **Result links** (`ConfigureCacheResults`) are rewritten to proxy links.
  - **The reply of `Configure`** is modelled as well.
- **The Hounddawgs indexer.** This covers its category table and the way it
  turns a results page into releases: the series rows after the header, in
  row order. A row whose category cannot be parsed, or a series row whose
  date, size or counts cannot be parsed, makes the whole query fail.
- **`BaseWebResult.IsRedirect`.** This is the test for the HTTP statuses a
  client follows: 301, 302, 303 and 307 (section 6.4 of RFC 7231).

The Dafny modules follow the source files:

| module | file | models |
|---|---|---|
| `ConfigurationData` | `ConfigurationData.dfy` | the items, `Item.ID`, `GetItems`, `ToJson`, `LoadValuesFromJson` (a class whose loop updates the items in place), and the round trips |
| `IndexerManagerService` | `IndexerManagerService.dfy` | the registry as a class over its dictionary (with its key order), the files, the directories and the container |
| `AdminController` | `AdminController.dfy` | the search (a loop over the selected trackers that updates the cache), `ConfigureCacheResults` (a loop over an array, in place) and the `Configure` reply |
| `Hounddawgs` | `Hounddawgs.dfy` | the constructor's category table, and `PerformQuery`'s row loop |
| `BaseWebResult` | `BaseWebResult.dfy` | `IsRedirect` |
| `JackettModels` | `JackettModels.dfy` | the shared types (`ReleaseInfo`, `TrackerCacheResult`, `TorznabQuery`, `Uri`), the TV category numbers and the RSS cache |
| `NetStrings` | `NetStrings.dfy` | the .NET string operations the core uses: a nullable string, `ToLower`, `Trim`, `LastIndexOf`, `Contains`, `int.Parse` |
| `Sorting` | `Sorting.dfy` | LINQ's stable `OrderBy`, as an insertion sort, and ordinal string order |
| `Wrappers` | `Wrappers.dfy` | `Option`, `Result` and `Outcome` (an exception or none) |

An exception of the source is an `Err`, a `None` or a `Fail` in the model,
whichever fits. Calls into code the core does not contain are function
parameters. This covers the indexers' own `PerformQuery`, `CleanLinks` and
`FilterResults`, `ConvertToProxyLink`, `ExpandCatsToSubCats`, `JToken.Parse`,
`LoadFromSavedConfiguration`, and the protection service.

In these places the code does something a reader might not expect, and the
model does the same:

- `Item.ID` removes only the space character (`Replace(" ", "")`). Other white
  space is kept.
- `GetItems(forDisplay: true)` returns every item. `GetItems(forDisplay: false)`
  drops only `DisplayImage` items, so `DisplayInfo` items are persisted.
- The persisted round trip does not give back every item unchanged:
  - a Recaptcha item loses its value and cookie, because only `sitekey` is
    written;
  - a null password comes back as "";
  - a hidden item named "password" comes back as its ciphertext, because it
    is protected on the way out but is not unprotected on the way in.

  `ConfigurationData.Restored` states what comes back.
- Nothing in the schema checks that item IDs are distinct. The round-trip
  lemmas require it.
- `Search` sorts by date when more than one tracker was *selected*. The number
  of trackers that returned results plays no part.
- The configuration echoed in `Configure`'s error reply is written with no
  protection service and not for display. A password typed into the form
  therefore appears there in plain text
  (`AdminController.ErrorReplyEchoesPlainPassword`).

## Model

| member | source | states |
|---|---|---|
| ConfigurationData.Item.ID | src/JackettCore/Models/IndexerConfig/ConfigurationData.cs:142 | an ID is no longer than the name, and has neither spaces nor upper-case letters |
| ConfigurationData.LowerCommutesWithRemoveSpaces | src/JackettCore/Models/IndexerConfig/ConfigurationData.cs:142 | removing spaces and lower-casing can be done in either order |
| ConfigurationData.IdIgnoresSpacesAndCase | src/JackettCore/Models/IndexerConfig/ConfigurationData.cs:142 | two items share an ID exactly when their lower-cased names agree once spaces are removed |
| ConfigurationData.IdIsIdempotent | src/JackettCore/Models/IndexerConfig/ConfigurationData.cs:142 | an item named after an ID has that same ID |
| ConfigurationData.PersistedItems | src/JackettCore/Models/IndexerConfig/ConfigurationData.cs:128-133 | the persisted items are exactly the items that are not images |
| ConfigurationData.PersistedItemsAppend | src/JackettCore/Models/IndexerConfig/ConfigurationData.cs:128-133 | the filter keeps the input order: the persisted items of two lists are those of the first followed by those of the second |
| ConfigurationData.PersistedItemsSingle | src/JackettCore/Models/IndexerConfig/ConfigurationData.cs:128-133 | one item is kept, once, exactly when it is not an image; with PersistedItemsAppend this fixes order and multiplicity |
| ConfigurationData.GetItems | src/JackettCore/Models/IndexerConfig/ConfigurationData.cs:120-136 | for display, every item; for persistence, exactly the items whose type is not DisplayImage, in their order (PersistedItemsAppend) |
| ConfigurationData.EmittedValue | src/JackettCore/Models/IndexerConfig/ConfigurationData.cs:95-105 | a value not named "password" is emitted unchanged; a null or empty password is written as ""; a non-empty one is the sentinel for display, and otherwise `Protect(value)` with a protection service or the plain text without |
| ConfigurationData.Entry | src/JackettCore/Models/IndexerConfig/ConfigurationData.cs:83-86 | every object carries the item's ID, its name and its lower-case type name |
| ConfigurationData.ToJson | src/JackettCore/Models/IndexerConfig/ConfigurationData.cs:77-118 | one object per item of `GetItems(forDisplay)`, in order, each carrying that item's ID |
| ConfigurationData.DisplayFormMasksPasswords | src/JackettCore/Models/IndexerConfig/ConfigurationData.cs:96-101 | in the display form a password's value is "" or the sentinel, whatever it holds |
| ConfigurationData.PersistedFormProtectsPasswords | src/JackettCore/Models/IndexerConfig/ConfigurationData.cs:96-105 | a non-empty password is persisted as `Protect(value)` with a protection service, and as the plain text without one |
| ConfigurationData.TypeName | src/JackettCore/Models/IndexerConfig/ConfigurationData.cs:85 | the lower-case name of each item type, as the "type" property carries it |
| ConfigurationData.Item.IsPassword | src/JackettCore/Models/IndexerConfig/ConfigurationData.cs:50 | an item is a secret when its name is "password" in any letter case (also cs:96); stated for the Hounddawgs items by PasswordItemIsSecret |
| ConfigurationData.ApplyObject | src/JackettCore/Models/IndexerConfig/ConfigurationData.cs:44-73 | the per-type update from one matched object; its effect is stated by LoadStoresSubmittedInput, SentinelKeepsPassword, LoadKeepsDisplayAndUnnamedItems and ApplyOwnPersistedObject |
| ConfigurationData.StringValue | src/JackettCore/Models/IndexerConfig/ConfigurationData.cs:40-71 | `Value<string>` is null exactly when the key is absent or null, and a string value is read as it is; StringValueReadsWrittenText is its round trip with the writer |
| ConfigurationData.BoolValue | src/JackettCore/Models/IndexerConfig/ConfigurationData.cs:67 | `Value<bool>` is false for an absent key, reads a JSON boolean as it is, and throws exactly on null or on a string other than "true"/"false" once trimmed and compared without case |
| ConfigurationData.StringValueReadsWrittenText | src/JackettCore/Models/IndexerConfig/ConfigurationData.cs:105 | a text written as `ToJson` writes it reads back as the same text |
| ConfigurationData.BoolValueReadsWrittenBool | src/JackettCore/Models/IndexerConfig/ConfigurationData.cs:108 | a boolean reads back as itself, written as a JSON boolean or as the "True"/"False" text |
| ConfigurationData.LoadItemThrows | src/JackettCore/Models/IndexerConfig/ConfigurationData.cs:38-73 | loading one item throws exactly when it is a bool item whose first matching object has a null or non-boolean "value" |
| ConfigurationData.BoolItemRejectsNullAndYes | src/JackettCore/Models/IndexerConfig/ConfigurationData.cs:66-67 | a bool item given null, or the string "yes", throws |
| ConfigurationData.LoadItem | src/JackettCore/Models/IndexerConfig/ConfigurationData.cs:40-73 | an item with no object carrying its ID is unchanged; otherwise the first such object is applied (LoadUsesFirstMatchOnly, LoadKeepsDisplayAndUnnamedItems) |
| ConfigurationData.FirstIndexById | src/JackettCore/Models/IndexerConfig/ConfigurationData.cs:40 | the result is -1 or the index of the first object with that "id", and no earlier object has it |
| ConfigurationData.FirstIndexByIdAppend | src/JackettCore/Models/IndexerConfig/ConfigurationData.cs:40 | appending objects can only supply a match for an ID that had none |
| ConfigurationData.LoadFrom | src/JackettCore/Models/IndexerConfig/ConfigurationData.cs:38-74 | loading from any position keeps the number of items |
| ConfigurationData.LoadValues | src/JackettCore/Models/IndexerConfig/ConfigurationData.cs:35-75 | loading keeps the number of items |
| ConfigurationData.LoadFromEffect | src/JackettCore/Models/IndexerConfig/ConfigurationData.cs:38-74 | items before the position are untouched; the load completes iff no later item throws; each later item is unchanged or updated, and all are updated after a completed load |
| ConfigurationData.LoadValuesEffect | src/JackettCore/Models/IndexerConfig/ConfigurationData.cs:35-75 | the load completes iff no item throws; each item is unchanged or loaded, and every item is loaded when the load completes |
| ConfigurationData.LoadKeepsDisplayAndUnnamedItems | src/JackettCore/Models/IndexerConfig/ConfigurationData.cs:40-42 | a DisplayInfo or DisplayImage item, or an item that no object names, keeps its value |
| ConfigurationData.SentinelKeepsPassword | src/JackettCore/Models/IndexerConfig/ConfigurationData.cs:50-52 | a password input whose submitted value is the sentinel keeps its stored secret |
| ConfigurationData.LoadStoresSubmittedInput | src/JackettCore/Models/IndexerConfig/ConfigurationData.cs:46-62 | an input string takes the submitted value; a password takes `UnProtect(value)` with a protection service, and the sentinel changes nothing |
| ConfigurationData.LoadFromPointwise | src/JackettCore/Models/IndexerConfig/ConfigurationData.cs:38-74 | two per-item loads that agree on the remaining items give the same result |
| ConfigurationData.LoadUsesFirstMatchOnly | src/JackettCore/Models/IndexerConfig/ConfigurationData.cs:40 | appending objects changes nothing for items that already have a match, or that the new objects do not name |
| ConfigurationData.OwnEntryFound | src/JackettCore/Models/IndexerConfig/ConfigurationData.cs:40 | with distinct IDs, an item's first match in the array `ToJson` builds is its own object |
| ConfigurationData.ApplyOwnPersistedObject | src/JackettCore/Models/IndexerConfig/ConfigurationData.cs:44-73 | loading an item's own persisted object gives `Restored(item)` and never throws |
| ConfigurationData.PersistedRoundTrip | src/JackettCore/Models/IndexerConfig/ConfigurationData.cs:35-136 | loading `ToJson(ps, false)` back completes and gives every item back as `Restored` says, given that `UnProtect` inverts `Protect` |
| ConfigurationData.ApplyOwnDisplayObject | src/JackettCore/Models/IndexerConfig/ConfigurationData.cs:50-52 | loading an item's own display object never throws, and keeps a non-empty password input |
| ConfigurationData.DisplayRoundTripKeepsPasswords | src/JackettCore/Models/IndexerConfig/ConfigurationData.cs:96-101 | loading the display form back completes, and a non-empty password comes back unchanged |
| ConfigurationData.Configuration.constructor | src/JackettCore/Models/IndexerConfig/ConfigurationData.cs:23 | a schema holds its declared items followed by the hidden `CookieHeader` item |
| ConfigurationData.Configuration.LoadValuesFromJson | src/JackettCore/Models/IndexerConfig/ConfigurationData.cs:35-75 | the loop leaves the items, and reports completion, as `LoadValues` of the old items says |
| IndexerManagerService.CombinePath | src/Jackett/Services/IndexerManagerService.cs:105 | `Path.Combine`: the file name after the directory and a separator (stated by CombinePathEndsWithFile and ConfigFilePathShape) |
| IndexerManagerService.ConfigFilePath | src/Jackett/Services/IndexerManagerService.cs:103-106 | `<dir>/<ID>.json` (stated by ConfigFilePathEndsWithId, ConfigFilePathShape and ConfigFilePathInjective) |
| IndexerManagerService.CombinePathEndsWithFile | src/Jackett/Services/IndexerManagerService.cs:105 | a combined path ends in the file name |
| IndexerManagerService.ConfigFilePathEndsWithId | src/Jackett/Services/IndexerManagerService.cs:103-106 | the configuration file path ends in `<ID>.json` |
| IndexerManagerService.ConfigFilePathShape | src/Jackett/Services/IndexerManagerService.cs:103-106 | for a relative ID, the path is the directory, a separator where needed, the ID and ".json" |
| IndexerManagerService.ConfigFilePathInjective | src/Jackett/Services/IndexerManagerService.cs:103-106 | two different relative IDs never share a configuration file |
| IndexerManagerService.ByDisplayNameTotal | src/Jackett/Services/IndexerManagerService.cs:45 | the display-name order compares any two indexers |
| IndexerManagerService.Ids | src/Jackett/Services/IndexerManagerService.cs:47 | the IDs of the indexers, position by position |
| IndexerManagerService.Registered | src/Jackett/Services/IndexerManagerService.cs:48-61 | an indexer without a file is registered as it is; registration aborts exactly when its file does not parse; otherwise the instance after `LoadFromSavedConfiguration` of the parsed file is registered |
| IndexerManagerService.InitFrom | src/Jackett/Services/IndexerManagerService.cs:45-62 | the init loop from a position on: a repeated ID or an unreadable file stops it, after registering the unreadable indexer (stated by the InitFrom lemmas below) |
| IndexerManagerService.Init | src/Jackett/Services/IndexerManagerService.cs:41-63 | the init loop over the discovered indexers in display-name order (stated by InitOnEmptyRegistry and InitOnEmptyRegistryEntries) |
| IndexerManagerService.InitFromCompletes | src/Jackett/Services/IndexerManagerService.cs:45-62 | init completes iff no remaining ID is already registered or repeats, and every configuration can be read |
| IndexerManagerService.InitFromKeepsEntries | src/Jackett/Services/IndexerManagerService.cs:45-62 | init keeps the dictionary and its key order in step, only appends keys, and never overwrites an entry |
| IndexerManagerService.InitFromRegisters | src/Jackett/Services/IndexerManagerService.cs:45-62 | under the completion conditions, every remaining indexer is registered under its ID, in order |
| IndexerManagerService.InitFromEntryKept | src/Jackett/Services/IndexerManagerService.cs:47 | an entry present before init is still there afterwards |
| IndexerManagerService.InitOnEmptyRegistry | src/Jackett/Services/IndexerManagerService.cs:41-63 | the indexers are taken in display-name order (sorted, a permutation); init completes iff their IDs are distinct and every existing file parses |
| IndexerManagerService.InitFromEmpty | src/Jackett/Services/IndexerManagerService.cs:45-62 | a completed init from an empty registry holds every indexer, keyed by ID, in order |
| IndexerManagerService.InitOnEmptyRegistryEntries | src/Jackett/Services/IndexerManagerService.cs:41-63 | after a completed init, the keys are the IDs in display-name order, each holding its instance as loaded from its file |
| IndexerManagerService.SaveLeavesOtherConfigs | src/Jackett/Services/IndexerManagerService.cs:108-114 | saving one indexer's configuration leaves every other indexer's file as it was |
| IndexerManagerService.BrowseOutcome | src/Jackett/Services/IndexerManagerService.cs:83-93 | the lookup's error, then the browse query's error, then "Found no results ..." for empty cleaned results, else the cleaned results, which are never empty |
| IndexerManagerService.IndexerManager.constructor | src/Jackett/Services/IndexerManagerService.cs:30-39 | the registry starts empty, with the given container, files and cache |
| IndexerManagerService.IndexerManager.InitIndexers | src/Jackett/Services/IndexerManagerService.cs:41-63 | the loop leaves the dictionary, its order and the error as `Init` says; no file changes |
| IndexerManagerService.IndexerManager.GetIndexer | src/Jackett/Services/IndexerManagerService.cs:65-76 | the registered instance iff the name is known, else the error "Unknown indexer: " + name |
| IndexerManagerService.IndexerManager.GetAllIndexers | src/Jackett/Services/IndexerManagerService.cs:78-81 | the registered instances, in the order their keys were added |
| IndexerManagerService.IndexerManager.TestIndexer | src/Jackett/Services/IndexerManagerService.cs:83-93 | on success the cache holds the cleaned results for that indexer; on failure the cache is untouched |
| IndexerManagerService.IndexerManager.DeleteIndexer | src/Jackett/Services/IndexerManagerService.cs:95-101 | an unknown name fails before anything changes; otherwise the file is deleted and only that entry becomes the container's fresh, unconfigured instance |
| IndexerManagerService.IndexerManager.SaveConfig | src/Jackett/Services/IndexerManagerService.cs:108-114 | exactly `<dir>/<ID>.json` is written, the directory is created if absent, and the registry is untouched |
| AdminController.RequestedCategories | src/JackettCore/Controllers/AdminController.cs:460 | no categories iff the category is 0, else just that category |
| AdminController.SearchQuery | src/JackettCore/Controllers/AdminController.cs:457-463 | the query carries the search term and the expanded requested categories |
| AdminController.Where | src/JackettCore/Controllers/AdminController.cs:465-474 | an element is kept iff it was there and passes the test |
| AdminController.WhereAppend | src/JackettCore/Controllers/AdminController.cs:465-474 | filtering keeps the input order: the filter of two lists is the filter of the first followed by that of the second |
| AdminController.WhereSingle | src/JackettCore/Controllers/AdminController.cs:465-474 | one element is kept, once, exactly when it passes the test; with WhereAppend this fixes order and multiplicity |
| AdminController.SelectTrackers | src/JackettCore/Controllers/AdminController.cs:465-474 | a tracker is asked iff it is registered, configured, has the requested ID (when one is given) and offers the category (when one is given) |
| AdminController.SelectTrackersAppend | src/JackettCore/Controllers/AdminController.cs:465-474 | the selection keeps the registry's order, which is the order `ReportedIndexers` names the trackers in |
| AdminController.SelectTrackersSingle | src/JackettCore/Controllers/AdminController.cs:465-474 | one tracker is selected, once, exactly when it is configured, named (if a name is given) and offers the category (if one is given) |
| AdminController.Tag | src/JackettCore/Controllers/AdminController.cs:489-492 | a tagged result names its tracker and ID, has peers minus seeders as peers, and is otherwise the release |
| AdminController.Contribution | src/JackettCore/Controllers/AdminController.cs:478-500 | a tracker that throws adds nothing; otherwise each of its filtered, cleaned results, tagged, in order |
| AdminController.Merged | src/JackettCore/Controllers/AdminController.cs:476-501 | the results of the selected trackers, one contribution after another (stated by MergedExtend, FailureIsIsolated and MergedResultsNameTheirTracker) |
| AdminController.CacheAfter | src/JackettCore/Controllers/AdminController.cs:478-482 | the cache after asking trackers from a position on: each tracker that answers replaces its entry with its cleaned results (stated by CacheAfterKeepsOthers and CacheHoldsCleanedResults) |
| AdminController.ConcatAppend | src/JackettCore/Controllers/AdminController.cs:476-501 | the merge of two tracker lists is the concatenation of their merges |
| AdminController.MergedExtend | src/JackettCore/Controllers/AdminController.cs:476-501 | asking one more tracker appends its contribution |
| AdminController.FailureIsIsolated | src/JackettCore/Controllers/AdminController.cs:497-500 | a tracker whose query throws changes nothing: the merge is as if it had not been selected |
| AdminController.MergedResultsNameTheirTracker | src/JackettCore/Controllers/AdminController.cs:489-491 | every merged result carries the display name and ID of a selected tracker |
| AdminController.CacheAfterKeepsOthers | src/JackettCore/Controllers/AdminController.cs:482 | a key that no successful tracker writes keeps its cache entry |
| AdminController.CacheHoldsCleanedResults | src/JackettCore/Controllers/AdminController.cs:480-482 | with distinct IDs, a tracker that answered is cached with its cleaned, unfiltered results, and one that threw keeps its old entry |
| AdminController.OffersBlackhole | src/JackettCore/Controllers/AdminController.cs:439 | a blackhole link is offered for a link that is present, not a magnet link, with a blackhole directory that is not blank (NoBlackholeForMagnetOrBlankDir) |
| AdminController.ConfigureResult | src/JackettCore/Controllers/AdminController.cs:437-440 | the rewrite of one result (stated by ConfigureResultLinks) |
| AdminController.TorrentFileNameShape | src/JackettCore/Controllers/AdminController.cs:438 | the file name is the title followed by ".torrent" (".torrent" alone for a null title) |
| AdminController.ConfigureResultLinks | src/JackettCore/Controllers/AdminController.cs:437-440 | the link becomes the "dl" proxy link; the blackhole link becomes the "bh" proxy link exactly when the new link is offered; nothing else changes |
| AdminController.NoBlackholeForMagnetOrBlankDir | src/JackettCore/Controllers/AdminController.cs:439 | a missing or magnet link, or a blank blackhole directory, never gets a new blackhole link |
| AdminController.ConfigureCacheResults | src/JackettCore/Controllers/AdminController.cs:432-443 | every element of the array is rewritten by `ConfigureResult`, in place |
| AdminController.ReportedIndexers | src/JackettCore/Controllers/AdminController.cs:510-518 | the selected trackers' display names, or ["None"] when none was selected |
| AdminController.Ordered | src/JackettCore/Controllers/AdminController.cs:505-508 | newest first when more than one tracker was selected (stated by OrderedByDate) |
| AdminController.OrderedByDate | src/JackettCore/Controllers/AdminController.cs:505-508 | with more than one selected tracker, the results are a permutation sorted newest first; otherwise their order is kept |
| AdminController.ConfiguredResults | src/JackettCore/Controllers/AdminController.cs:432-443 | every result is rewritten, in place and in order |
| AdminController.ConfigureAll | src/JackettCore/Controllers/AdminController.cs:503 | the rewritten list equals `ConfiguredResults` of the merged results |
| AdminController.AskTrackers | src/JackettCore/Controllers/AdminController.cs:476-501 | the loop's results are the merge of the contributions, and the cache ends as `CacheAfter` says |
| AdminController.SearchReply | src/JackettCore/Controllers/AdminController.cs:454-522 | the reply: selection, merge, link rewriting, ordering and tracker names (its parts are stated by the lemmas above; Search is proved equal to it) |
| AdminController.Search | src/JackettCore/Controllers/AdminController.cs:454-522 | the reply is `SearchReply` (selection, merge, rewriting, ordering, names) and the cache is updated by the selected trackers |
| AdminController.ContributionPeersAreLeechers | src/JackettCore/Controllers/AdminController.cs:492 | every result a tracker contributes to the search carries its release's peers minus its seeders |
| AdminController.ConfigureOutcome | src/JackettCore/Controllers/AdminController.cs:158-196 | "success" iff the indexer is known and the status is Completed, or RequiresTesting with a passing test; the test runs iff RequiresTesting; the base configuration is reset iff a known indexer fails; the config is echoed iff an exception carries config data; Failed gives "Configuration Failed" |
| AdminController.ErrorReplyEchoesPlainPassword | src/JackettCore/Controllers/AdminController.cs:186-189 | the configuration echoed on an error carries a non-empty password in plain text |
| Hounddawgs.Group | src/JackettCore/Indexers/Hounddawgs.cs:37-49 | one table entry per Torznab category, for one tracker category |
| Hounddawgs.DefaultMappingsByGroup | src/JackettCore/Indexers/Hounddawgs.cs:37-49 | the table is one group each for 92, 93, 57 and 74, in that order |
| Hounddawgs.TorznabCategories | src/JackettCore/Indexers/Hounddawgs.cs:37-49 | a category has at most as many Torznab categories as the table has entries |
| Hounddawgs.TorznabCategoriesMembers | src/JackettCore/Indexers/Hounddawgs.cs:37-49 | a Torznab category is listed iff the table maps the tracker category to it |
| Hounddawgs.TorznabCategoriesAppend | src/JackettCore/Indexers/Hounddawgs.cs:37-49 | the lookup distributes over appending tables |
| Hounddawgs.TorznabCategoriesOfGroup | src/JackettCore/Indexers/Hounddawgs.cs:37-49 | a group lists its own categories for its tracker category, and nothing for any other |
| Hounddawgs.DefaultMappingsBySeries | src/JackettCore/Indexers/Hounddawgs.cs:37-49 | 92 and 57 give TV, TV/HD and TV/WEB-DL; 93 and 74 give TV/SD and TV; every other category gives nothing |
| Hounddawgs.DefaultMappingsCoverSeriesOnly | src/JackettCore/Indexers/Hounddawgs.cs:37-49 | a tracker category is mapped iff it is a series category, and every series category includes TV |
| Hounddawgs.NativeCategory | src/JackettCore/Indexers/Hounddawgs.cs:99-101 | a parsed category fits in a 32-bit int |
| Hounddawgs.NativeCategoryOfBracket | src/JackettCore/Indexers/Hounddawgs.cs:99-101 | a link ending in `[<n>]` yields n, whatever comes before the bracket |
| Hounddawgs.RowRelease | src/JackettCore/Indexers/Hounddawgs.cs:93-125 | a kept row becomes a TV release with ratio 1 and seed time 172800, Description = Title, Guid = Comments, site links, and peers = leechers + seeders |
| Hounddawgs.ProcessRow | src/JackettCore/Indexers/Hounddawgs.cs:97-127 | a row is skipped iff its category parses and is not a series category; it is kept iff its category is a series category and its date, size, seeders and leechers cells all parse; it throws iff its category does not parse, or it is a series row with a cell that does not parse |
| Hounddawgs.ReleasesFrom | src/JackettCore/Indexers/Hounddawgs.cs:91-133 | the loop from a row on: it fails as soon as a row throws, skips non-series rows and appends the release of each kept row (its meaning is stated by ReleasesFromIsKept) |
| Hounddawgs.PageReleases | src/JackettCore/Indexers/Hounddawgs.cs:85-135 | the releases of a page, with the header row skipped (stated by PageReleasesAreKeptRows and PageReleasesFacts) |
| Hounddawgs.Kept | src/JackettCore/Indexers/Hounddawgs.cs:91-128 | the reference definition: the release of every kept row, in row order, never more than one per row |
| Hounddawgs.KeptAppend | src/JackettCore/Indexers/Hounddawgs.cs:91-128 | the kept releases of two row lists are the kept releases of the first followed by those of the second, so row order is kept |
| Hounddawgs.KeptMembers | src/JackettCore/Indexers/Hounddawgs.cs:91-128 | a release is kept iff some row keeps it (both directions: nothing is lost and nothing is invented) |
| Hounddawgs.ReleasesFromIsKept | src/JackettCore/Indexers/Hounddawgs.cs:91-133 | the loop fails iff a remaining row throws, and otherwise returns the collected releases followed by exactly the kept releases of the remaining rows |
| Hounddawgs.PageReleasesAreKeptRows | src/JackettCore/Indexers/Hounddawgs.cs:85-135 | a page of at most the header is empty; otherwise it fails iff a row after the header throws, and else equals the kept releases of the rows after the header |
| Hounddawgs.PageReleasesFacts | src/JackettCore/Indexers/Hounddawgs.cs:89-135 | a page succeeds iff no row after the header throws; a release is then returned iff a row after the header keeps it; each is normalised; at most one per row |
| Hounddawgs.ThrowingRowFailsPage | src/JackettCore/Indexers/Hounddawgs.cs:130-135 | a row after the header that throws makes the whole page fail |
| Hounddawgs.BrokenPageContributesNothing | src/JackettCore/Controllers/AdminController.cs:497-500 | in a search, a Hounddawgs page that fails adds no results |
| Hounddawgs.ReplyPeersOfRowAreLeechers | src/JackettCore/Indexers/Hounddawgs.cs:124-125 | through the search's tagging, a Hounddawgs release shows its leecher count as peers |
| Hounddawgs.PasswordItemIsSecret | src/JackettCore/Indexers/Hounddawgs.cs:137-146 | the "Password" item is treated as a secret and the "Username" item is not |
| Hounddawgs.HounddawgsIndexer.constructor | src/JackettCore/Indexers/Hounddawgs.cs:37-49 | the table holds the ten mappings, in the order they are added |
| Hounddawgs.HounddawgsIndexer.AddCategoryMapping | src/JackettCore/Indexers/Hounddawgs.cs:37 | one entry is appended to the table |
| Hounddawgs.HounddawgsIndexer.PerformQuery | src/JackettCore/Indexers/Hounddawgs.cs:76-136 | a page with the no-results marker gives no releases; otherwise the loop's outcome is `PageReleases` of the rows: the kept releases in row order, or a failure when a row throws |
| BaseWebResult.WebResult.IsRedirect | src/JackettCore/Utils/Clients/BaseWebResult.cs:11-21 | true exactly for 301, 302, 303 and 307 |
| BaseWebResult.OtherStatusesAreNotRedirects | src/JackettCore/Utils/Clients/BaseWebResult.cs:15-19 | 200, 304 and 308 are not redirects |
| BaseWebResult.IsRedirectDependsOnStatusOnly | src/JackettCore/Utils/Clients/BaseWebResult.cs:11-21 | two results with the same status agree, whatever their cookies and redirect target |
| JackettModels.CacheService.CacheRssResults | src/JackettCore/Controllers/AdminController.cs:482 | the indexer's cache entry becomes the given releases; the other entries are kept |
| JackettModels.SchemeIsLowerCasedPrefix | src/JackettCore/Controllers/AdminController.cs:439 | a link's scheme is the lower-cased text before its first ':' |
| Sorting.Sort | src/JackettCore/Controllers/AdminController.cs:507 | the sorted list has the same length and the same elements |
| Sorting.SortIsOrderedPermutation | src/JackettCore/Controllers/AdminController.cs:507 | for a total order, the result is sorted and is a permutation of the input |
| Sorting.SortKeepsOrderedInput | src/JackettCore/Controllers/AdminController.cs:507 | an input that is already sorted comes back unchanged |
| Sorting.OrdinalLeTotal | src/Jackett/Services/IndexerManagerService.cs:45 | the string order compares any two strings |
| NetStrings.LastIndexOf | src/JackettCore/Indexers/Hounddawgs.cs:100 | -1, or the position of the last occurrence of the character |
| NetStrings.TrimChar | src/JackettCore/Indexers/Hounddawgs.cs:101 | the result neither starts nor ends with the trimmed character |
| NetStrings.TrimBy | src/JackettCore/Indexers/Hounddawgs.cs:101 | the algorithm both `Trim` overloads share: the result neither starts nor ends with a selected character |
| NetStrings.TrimByBounds | src/JackettCore/Indexers/Hounddawgs.cs:101 | the result is the slice of the input between two bounds, and only selected characters lie outside them |
| NetStrings.TrimCharIsSlice | src/JackettCore/Indexers/Hounddawgs.cs:101 | only leading and trailing copies of the character are removed: the result is a slice with nothing else cut |
| NetStrings.Trim | src/JackettCore/Indexers/Hounddawgs.cs:112 | the result neither starts nor ends with white space |
| NetStrings.TrimIsSlice | src/JackettCore/Indexers/Hounddawgs.cs:112 | only leading and trailing white space is removed: the result is a slice with nothing else cut |
| NetStrings.ParseInt | src/JackettCore/Indexers/Hounddawgs.cs:101 | a parsed value fits in a 32-bit int |
| NetStrings.ParseIntOfNatToString | src/JackettCore/Indexers/Hounddawgs.cs:101 | printing a 32-bit value in decimal and parsing it back gives the value |

## Left out

- I/O is not modelled: HTTP requests, the DOM queries of `PerformQuery`, file
  reading and writing, and logging. Files are a map from path to text and
  directories a set of paths. A results page is its list of rows. A row holds
  the texts of its category, title and link cells, and the results of
  `DateTime.ParseExact`, `ReleaseInfo.GetBytes` and `ParseUtil.CoerceInt` on
  its date, size and count cells, each `None` where that call throws. Those
  three functions are outside the modelled files.
- Code outside the modelled files is not interpreted. The indexers' own
  query, link cleaning, filtering and saved-configuration loading are
  function parameters, as are `ConvertToProxyLink`, `ExpandCatsToSubCats`,
  `JToken.Parse`, `DataUrlUtils.BytesToDataUrl` and `Protect`/`UnProtect`.
  The inverse law of the protection service is a precondition where a round
  trip needs it.
- `Mapper.Map<TrackerCacheResult>` is taken to copy every field of the
  release.
- `CacheRssResults` is taken to replace the indexer's cache entry with the
  given releases.
- The server URL of `ConfigureCacheResults` is a parameter, and the blackhole
  directory of the server configuration is another.
- `SpinService` and the parts of `AdminController` other than `Search`,
  `ConfigureCacheResults` and `Configure` are not modelled, nor is Hounddawgs'
  `ApplyConfiguration`. They are HTTP, authentication, process and
  network code with no decision logic to state.
- `Configure` is modelled by its decision (`ConfigureOutcome`). Reading the
  posted JSON, and the effects of `ApplyConfiguration` and `ResetBaseConfig`,
  are not modelled. The reply records whether a test ran and whether a reset
  happened.
- The order `GetItems` sees the item properties in comes from reflection.
  The model uses the declared items followed by `CookieHeader`.
- AdminController.AskTrackers: `Parallel.ForEach` is modelled as a loop over
  the selected trackers in order. The source's merged list is in whatever
  order the trackers finish. The contents are the same, but the order is only
  fixed once the results are sorted.
- IndexerManagerService.IndexerManager.InitIndexers: `OrderBy(DisplayName)`
  uses the current culture's string comparison. The model compares strings
  ordinally.
- Sorting.Sort: the insertion sort is stable like LINQ's `OrderBy`, but no
  lemma states that.
- Hounddawgs.HounddawgsIndexer.PerformQuery: `OnParseError`, which the catch
  calls, belongs to the base indexer class and is not part of this model. It
  is taken to log the page and throw again. A row that throws therefore fails
  the whole query, and the search drops this tracker's contribution. The
  wording of that exception is not modelled.
- Hounddawgs.RowRelease: `new Uri(SiteLink + href)` is taken never to throw.
- Hounddawgs.NativeCategory: an href without '[' is read from its start,
  because `LastIndexOf` gives -1. This is what the source does, and no lemma
  singles it out.
- Hounddawgs.RowRelease: `CoerceInt` values and `leechers + seeders` are
  unbounded integers. The source's 32-bit overflow is not modelled.
- ConfigurationData.Item.ID: `ToLower` maps only the ASCII letters. The
  source lower-cases by culture.
- ConfigurationData.Item.IsPassword: the culture-invariant ignore-case
  comparison with "password" is reduced to ASCII lower-casing.
- ConfigurationData.ApplyObject: `UnProtect` is taken never to throw.
- ConfigurationData.JValue: JSON values are null, strings and booleans.
  Numbers, arrays and nested objects in a posted or saved configuration are
  not modelled.
- AdminController.Contribution: `CleanLinks`, `FilterResults`, `Mapper.Map`
  and `CacheRssResults` are taken never to throw; only the tracker query can
  fail. In the source, a `FilterResults` exception after `CacheRssResults`
  leaves the cache written while the tracker adds nothing. An exception inside
  the lock after some `Add`s leaves part of the contribution in the results.
  Neither case is modelled.
- AdminController.Tag: `Peers - Seeders` is an unbounded integer. The 32-bit
  overflow of the source's subtraction is not modelled.
- IndexerManagerService.IndexerManager.DeleteIndexer: the container's
  exception for an ID it does not know is given a fixed message.
- IndexerManagerService.CombinePath: `Path.Combine` is modelled with '/' as
  the only separator, and with no check for invalid characters.
