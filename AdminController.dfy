/**
 * The parts of `AdminController` that decide something: the manual search
 * (tracker selection, per-indexer failure isolation, caching, tagging,
 * ordering), the rewriting of result links to proxy links, and the reply of
 * the indexer configuration request. The indexers' own behaviour is passed in
 * as functions, and `Parallel.ForEach` becomes a sequential loop: it only
 * appends to a lock-protected list.
 */
module AdminController {
  import opened Wrappers
  import opened NetStrings
  import opened JackettModels
  import opened Sorting
  import CD = ConfigurationData

  /** The posted `AdminSearch`. */
  datatype AdminSearch = AdminSearch(query: Text, category: int, tracker: Text)

  /** The search reply: the results and the names of the trackers asked. */
  datatype ManualSearchResult = ManualSearchResult(results: seq<TrackerCacheResult>, indexers: seq<string>)

  /** What an indexer does during a search: query the tracker, clean the links, filter the results. */
  datatype Behaviour = Behaviour(
    perform: (Indexer, Query) -> Result<seq<Release>>,
    clean: (Indexer, seq<Release>) -> seq<Release>,
    filter: (Indexer, Query, seq<Release>) -> seq<Release>)

  /** `ConvertToProxyLink(link, serverUrl, trackerId, action, file)`. */
  type ProxyLink = (Option<Uri>, string, Text, string, string) -> Option<Uri>

  // ---------------------------------------------------------------------
  // Query and tracker selection

  /** The query's categories before sub-category expansion. */
  function RequestedCategories(category: int): (r: seq<int>)
    ensures category == 0 <==> r == []
    ensures category != 0 ==> r == [category]
  {
    if category == 0 then [] else [category]
  }

  /** The search query; `expand` stands for `ExpandCatsToSubCats`. */
  function SearchQuery(value: AdminSearch, expand: seq<int> -> seq<int>): (q: Query)
    ensures q.searchTerm == value.query
    ensures q.categories == expand(RequestedCategories(value.category))
  {
    Query(value.query, expand(RequestedCategories(value.category)))
  }

  /** LINQ `Where` over indexers. */
  function Where(s: seq<Indexer>, keep: Indexer -> bool): (r: seq<Indexer>)
    ensures |r| <= |s|
    ensures forall x :: x in r <==> x in s && keep(x)
  {
    if s == [] then []
    else if keep(s[0]) then [s[0]] + Where(s[1..], keep)
    else Where(s[1..], keep)
  }

  /** `Where` keeps the input order: filtering a concatenation filters each part. */
  lemma {:induction false} WhereAppend(a: seq<Indexer>, b: seq<Indexer>, keep: Indexer -> bool)
    ensures Where(a + b, keep) == Where(a, keep) + Where(b, keep)
  {
    if a == [] {
      assert a + b == b;
    } else {
      assert (a + b)[0] == a[0] && (a + b)[1..] == a[1..] + b;
      WhereAppend(a[1..], b, keep);
    }
  }

  /** `Where` keeps one element exactly when it passes the test. */
  lemma WhereSingle(x: Indexer, keep: Indexer -> bool)
    ensures Where([x], keep) == if keep(x) then [x] else []
  {
    assert [x][1..] == [];
  }

  /** The trackers a search asks: configured, then the one named if any, then those offering the category if any. */
  function SelectTrackers(all: seq<Indexer>, value: AdminSearch): (r: seq<Indexer>)
    ensures |r| <= |all|
    ensures forall x :: x in r <==>
      && x in all
      && x.configured
      && (IsNullOrWhiteSpace(value.tracker) || x.id == value.tracker.s)
      && (value.category == 0 || value.category in x.caps)
  {
    var configured := Where(all, (t: Indexer) => t.configured);
    var named := if IsNullOrWhiteSpace(value.tracker) then configured
                 else Where(configured, (t: Indexer) => t.id == value.tracker.s);
    if value.category != 0 then Where(named, (t: Indexer) => value.category in t.caps) else named
  }

  /** Whether a search asks one tracker. */
  predicate Selected(x: Indexer, value: AdminSearch) {
    && x.configured
    && (IsNullOrWhiteSpace(value.tracker) || x.id == value.tracker.s)
    && (value.category == 0 || value.category in x.caps)
  }

  /** The selection keeps the registry's order: selecting from a concatenation selects from each part. */
  lemma SelectTrackersAppend(a: seq<Indexer>, b: seq<Indexer>, value: AdminSearch)
    ensures SelectTrackers(a + b, value) == SelectTrackers(a, value) + SelectTrackers(b, value)
  {
    var configured := (t: Indexer) => t.configured;
    var offers := (t: Indexer) => value.category in t.caps;
    WhereAppend(a, b, configured);
    var na, nb := Where(a, configured), Where(b, configured);
    if !IsNullOrWhiteSpace(value.tracker) {
      var named := (t: Indexer) => t.id == value.tracker.s;
      WhereAppend(na, nb, named);
      na, nb := Where(na, named), Where(nb, named);
    }
    WhereAppend(na, nb, offers);
  }

  /** One tracker is selected exactly when it is configured, named (if a name is given) and offers the category (if one is given). */
  lemma SelectTrackersSingle(x: Indexer, value: AdminSearch)
    ensures SelectTrackers([x], value) == if Selected(x, value) then [x] else []
  {
    WhereSingle(x, (t: Indexer) => t.configured);
    WhereSingle(x, (t: Indexer) => value.category in t.caps);
    if !IsNullOrWhiteSpace(value.tracker) {
      WhereSingle(x, (t: Indexer) => t.id == value.tracker.s);
    }
  }

  // ---------------------------------------------------------------------
  // Per-indexer contribution

  /** `Mapper.Map<TrackerCacheResult>` plus the tagging: tracker name and ID, peers turned into leechers. */
  function Tag(indexer: Indexer, release: Release): (x: TrackerCacheResult)
    ensures x.tracker == Str(indexer.displayName) && x.trackerId == Str(indexer.id)
    ensures x.release.peers == release.peers - release.seeders
    ensures x.release == release.(peers := x.release.peers)
    ensures x.blackholeLink == None
  {
    TrackerCacheResult(release.(peers := release.peers - release.seeders), Str(indexer.displayName), Str(indexer.id), None)
  }

  /** The results one indexer adds: none when its query throws, else its filtered results, tagged. */
  function Contribution(indexer: Indexer, q: Query, b: Behaviour): (r: seq<TrackerCacheResult>)
    ensures b.perform(indexer, q).Err? ==> r == []
    ensures b.perform(indexer, q).Ok? ==>
      var kept := b.filter(indexer, q, b.clean(indexer, b.perform(indexer, q).value));
      |r| == |kept| && forall k :: 0 <= k < |r| ==> r[k] == Tag(indexer, kept[k])
  {
    match b.perform(indexer, q)
    case Err(_) => []
    case Ok(found) =>
      var kept := b.filter(indexer, q, b.clean(indexer, found));
      seq(|kept|, k requires 0 <= k < |kept| => Tag(indexer, kept[k]))
  }

  /** The parts of `trackers`, concatenated in tracker order. */
  function Concat(trackers: seq<Indexer>, part: Indexer -> seq<TrackerCacheResult>): seq<TrackerCacheResult> {
    if trackers == [] then [] else part(trackers[0]) + Concat(trackers[1..], part)
  }

  lemma {:induction false} ConcatAppend(a: seq<Indexer>, c: seq<Indexer>, part: Indexer -> seq<TrackerCacheResult>)
    ensures Concat(a + c, part) == Concat(a, part) + Concat(c, part)
  {
    if a == [] {
      assert a + c == c;
    } else {
      assert (a + c)[1..] == a[1..] + c;
      ConcatAppend(a[1..], c, part);
    }
  }

  lemma ConcatSingle(x: Indexer, part: Indexer -> seq<TrackerCacheResult>)
    ensures Concat([x], part) == part(x)
  {
    assert [x][1..] == [];
  }

  /** The merged results of the trackers, in tracker order. */
  function Merged(trackers: seq<Indexer>, q: Query, b: Behaviour): seq<TrackerCacheResult> {
    Concat(trackers, t => Contribution(t, q, b))
  }

  /** Asking one more tracker appends its contribution. */
  lemma MergedExtend(trackers: seq<Indexer>, i: nat, q: Query, b: Behaviour)
    requires i < |trackers|
    ensures Merged(trackers[..i + 1], q, b) == Merged(trackers[..i], q, b) + Contribution(trackers[i], q, b)
  {
    assert trackers[..i + 1] == trackers[..i] + [trackers[i]];
    ConcatAppend(trackers[..i], [trackers[i]], t => Contribution(t, q, b));
    ConcatSingle(trackers[i], t => Contribution(t, q, b));
  }

  /** An indexer whose query throws is as if it had not been selected. */
  lemma FailureIsIsolated(before: seq<Indexer>, failing: Indexer, after: seq<Indexer>, q: Query, b: Behaviour)
    requires b.perform(failing, q).Err?
    ensures Merged(before + [failing] + after, q, b) == Merged(before + after, q, b)
  {
    var part := t => Contribution(t, q, b);
    ConcatAppend(before + [failing], after, part);
    ConcatAppend(before, [failing], part);
    ConcatAppend(before, after, part);
    ConcatSingle(failing, part);
    assert part(failing) == [];
  }

  /** Every merged result names a selected tracker, by display name and ID. */
  lemma {:induction false} MergedResultsNameTheirTracker(trackers: seq<Indexer>, q: Query, b: Behaviour, k: nat)
    requires k < |Merged(trackers, q, b)|
    ensures exists t :: t in trackers && Merged(trackers, q, b)[k].tracker == Str(t.displayName)
                                      && Merged(trackers, q, b)[k].trackerId == Str(t.id)
  {
    assert trackers != [];
    var head := Contribution(trackers[0], q, b);
    if k >= |head| {
      MergedResultsNameTheirTracker(trackers[1..], q, b, k - |head|);
      var t :| t in trackers[1..] && Merged(trackers[1..], q, b)[k - |head|].tracker == Str(t.displayName)
                                  && Merged(trackers[1..], q, b)[k - |head|].trackerId == Str(t.id);
      assert t in trackers;
    } else {
      assert trackers[0] in trackers;
    }
  }

  /** The cache after the search: each tracker whose query succeeded has its cleaned, unfiltered results. */
  function CacheAfter(trackers: seq<Indexer>, i: nat, entries: map<string, seq<Release>>, q: Query, b: Behaviour)
    : map<string, seq<Release>>
    requires i <= |trackers|
    decreases |trackers| - i
  {
    if i == |trackers| then entries
    else match b.perform(trackers[i], q)
      case Err(_) => CacheAfter(trackers, i + 1, entries, q, b)
      case Ok(found) =>
        CacheAfter(trackers, i + 1, entries[trackers[i].id := b.clean(trackers[i], found)], q, b)
  }

  /** A key that no remaining tracker writes keeps its entry. */
  lemma {:induction false} CacheAfterKeepsOthers(trackers: seq<Indexer>, i: nat, entries: map<string, seq<Release>>,
                                                 q: Query, b: Behaviour, key: string)
    requires i <= |trackers|
    requires forall j :: i <= j < |trackers| ==> trackers[j].id != key || b.perform(trackers[j], q).Err?
    decreases |trackers| - i
    ensures key in CacheAfter(trackers, i, entries, q, b) <==> key in entries
    ensures key in entries ==> CacheAfter(trackers, i, entries, q, b)[key] == entries[key]
  {
    if i < |trackers| {
      match b.perform(trackers[i], q)
      case Err(_) => CacheAfterKeepsOthers(trackers, i + 1, entries, q, b, key);
      case Ok(found) =>
        CacheAfterKeepsOthers(trackers, i + 1, entries[trackers[i].id := b.clean(trackers[i], found)], q, b, key);
    }
  }

  /**
   * With distinct IDs, a tracker whose query succeeded ends up cached with
   * its cleaned results, and one whose query threw keeps its old entry.
   */
  lemma {:induction false} CacheHoldsCleanedResults(trackers: seq<Indexer>, i: nat, entries: map<string, seq<Release>>,
                                                    q: Query, b: Behaviour, j: nat)
    requires i <= j < |trackers|
    requires forall m, n :: 0 <= m < n < |trackers| ==> trackers[m].id != trackers[n].id
    decreases |trackers| - i
    ensures var after := CacheAfter(trackers, i, entries, q, b);
      var t := trackers[j];
      && (b.perform(t, q).Ok? ==> t.id in after && after[t.id] == b.clean(t, b.perform(t, q).value))
      && (b.perform(t, q).Err? ==> (t.id in after <==> t.id in entries))
      && (b.perform(t, q).Err? && t.id in entries ==> after[t.id] == entries[t.id])
  {
    var t := trackers[j];
    var entries' := match b.perform(trackers[i], q)
      case Err(_) => entries
      case Ok(found) => entries[trackers[i].id := b.clean(trackers[i], found)];
    assert CacheAfter(trackers, i, entries, q, b) == CacheAfter(trackers, i + 1, entries', q, b);
    if j == i {
      CacheAfterKeepsOthers(trackers, i + 1, entries', q, b, t.id);
    } else {
      CacheHoldsCleanedResults(trackers, i + 1, entries', q, b, j);
    }
  }

  // ---------------------------------------------------------------------
  // ConfigureCacheResults

  /** `result.Title + ".torrent"`, where a null title concatenates as "". */
  function TorrentFileName(title: Text): string {
    (if title.Null? then "" else title.s) + ".torrent"
  }

  /** The file name is the title followed by ".torrent", or ".torrent" alone for a null title. */
  lemma TorrentFileNameShape(title: Text)
    ensures var r := TorrentFileName(title);
      && |r| >= 8 && r[|r| - 8..] == ".torrent"
      && (title.Null? ==> r == ".torrent")
      && (title.Str? ==> |r| == |title.s| + 8 && r[..|title.s|] == title.s)
  {
  }

  /** A blackhole link is offered for a non-null, non-magnet link when a blackhole directory is set. */
  predicate OffersBlackhole(link: Option<Uri>, blackholeDir: Text) {
    link.Some? && link.value.Scheme() != "magnet" && !IsNullOrWhiteSpace(blackholeDir)
  }

  /** One result after `ConfigureCacheResults`. */
  function ConfigureResult(x: TrackerCacheResult, serverUrl: string, blackholeDir: Text, proxy: ProxyLink)
    : TrackerCacheResult
  {
    var proxied := proxy(x.release.link, serverUrl, x.trackerId, "dl", TorrentFileName(x.release.title));
    var blackhole := if OffersBlackhole(proxied, blackholeDir) then proxy(x.release.link, serverUrl, x.trackerId, "bh", "")
                     else x.blackholeLink;
    TrackerCacheResult(x.release.(link := proxied), x.tracker, x.trackerId, blackhole)
  }

  /**
   * Only the release's link and the blackhole link change: the link becomes
   * the proxied download link, and the blackhole link is set exactly when the
   * proxied link is offered to a blackhole.
   */
  lemma ConfigureResultLinks(x: TrackerCacheResult, serverUrl: string, blackholeDir: Text, proxy: ProxyLink)
    ensures var y := ConfigureResult(x, serverUrl, blackholeDir, proxy);
      && y.release == x.release.(link := proxy(x.release.link, serverUrl, x.trackerId, "dl", TorrentFileName(x.release.title)))
      && y.tracker == x.tracker && y.trackerId == x.trackerId
      && (OffersBlackhole(y.release.link, blackholeDir) ==>
            y.blackholeLink == proxy(x.release.link, serverUrl, x.trackerId, "bh", ""))
      && (!OffersBlackhole(y.release.link, blackholeDir) ==> y.blackholeLink == x.blackholeLink)
  {
  }

  /** A magnet link, a missing link or a blank blackhole directory never gets a new blackhole link. */
  lemma NoBlackholeForMagnetOrBlankDir(x: TrackerCacheResult, serverUrl: string, blackholeDir: Text, proxy: ProxyLink)
    requires var link := proxy(x.release.link, serverUrl, x.trackerId, "dl", TorrentFileName(x.release.title));
      link.None? || link.value.Scheme() == "magnet" || IsNullOrWhiteSpace(blackholeDir)
    ensures ConfigureResult(x, serverUrl, blackholeDir, proxy).blackholeLink == x.blackholeLink
  {
  }

  /** `ConfigureCacheResults`: every result's links rewritten in place. */
  method ConfigureCacheResults(results: array<TrackerCacheResult>, serverUrl: string, blackholeDir: Text,
                               proxy: ProxyLink)
    modifies results
    ensures forall i :: 0 <= i < results.Length ==>
      results[i] == ConfigureResult(old(results[i]), serverUrl, blackholeDir, proxy)
  {
    ghost var original := results[..];
    for i := 0 to results.Length
      invariant forall j :: 0 <= j < i ==> results[j] == ConfigureResult(original[j], serverUrl, blackholeDir, proxy)
      invariant forall j :: i <= j < results.Length ==> results[j] == original[j]
    {
      var configured := ConfigureResult(results[i], serverUrl, blackholeDir, proxy);
      results[i] := configured;
    }
  }

  // ---------------------------------------------------------------------
  // The search reply

  /** `OrderByDescending(d => d.PublishDate)`'s comparison. */
  predicate NewerFirst(a: TrackerCacheResult, b: TrackerCacheResult) {
    a.release.publishDate >= b.release.publishDate
  }

  /** The reported tracker names, or "None" when no tracker was selected. */
  function ReportedIndexers(trackers: seq<Indexer>): (r: seq<string>)
    ensures trackers == [] ==> r == ["None"]
    ensures trackers != [] ==> |r| == |trackers| && forall k :: 0 <= k < |r| ==> r[k] == trackers[k].displayName
  {
    if trackers == [] then ["None"] else seq(|trackers|, k requires 0 <= k < |trackers| => trackers[k].displayName)
  }

  /** The results in reply order: newest first when more than one tracker was selected, as merged otherwise. */
  function Ordered(results: seq<TrackerCacheResult>, selected: nat): seq<TrackerCacheResult> {
    if selected > 1 then Sort(results, NewerFirst) else results
  }

  lemma OrderedByDate(results: seq<TrackerCacheResult>, selected: nat)
    ensures multiset(Ordered(results, selected)) == multiset(results)
    ensures selected > 1 ==> SortedBy(Ordered(results, selected), NewerFirst)
    ensures selected <= 1 ==> Ordered(results, selected) == results
  {
    if selected > 1 {
      SortIsOrderedPermutation(results, NewerFirst);
    }
  }

  /** The results with their links rewritten, as `ConfigureCacheResults` leaves them. */
  function ConfiguredResults(results: seq<TrackerCacheResult>, serverUrl: string, blackholeDir: Text, proxy: ProxyLink)
    : (r: seq<TrackerCacheResult>)
    ensures |r| == |results|
    ensures forall k :: 0 <= k < |r| ==> r[k] == ConfigureResult(results[k], serverUrl, blackholeDir, proxy)
  {
    seq(|results|, k requires 0 <= k < |results| => ConfigureResult(results[k], serverUrl, blackholeDir, proxy))
  }

  /** Runs `ConfigureCacheResults` over a fresh list holding `results`. */
  method ConfigureAll(results: seq<TrackerCacheResult>, serverUrl: string, blackholeDir: Text, proxy: ProxyLink)
    returns (configured: seq<TrackerCacheResult>)
    ensures configured == ConfiguredResults(results, serverUrl, blackholeDir, proxy)
  {
    var buffer := new TrackerCacheResult[|results|](k requires 0 <= k < |results| => results[k]);
    ConfigureCacheResults(buffer, serverUrl, blackholeDir, proxy);
    configured := buffer[..];
  }

  /** The whole reply of `Search`. */
  function SearchReply(value: AdminSearch, all: seq<Indexer>, expand: seq<int> -> seq<int>, b: Behaviour,
                       serverUrl: string, blackholeDir: Text, proxy: ProxyLink): ManualSearchResult
  {
    var trackers := SelectTrackers(all, value);
    var merged := Merged(trackers, SearchQuery(value, expand), b);
    var configured := ConfiguredResults(merged, serverUrl, blackholeDir, proxy);
    ManualSearchResult(Ordered(configured, |trackers|), ReportedIndexers(trackers))
  }

  /**
   * The `Parallel.ForEach` of `Search`, in tracker order: each tracker's
   * query, its cleaned results cached, its filtered results tagged and added;
   * a tracker whose query throws is logged and skipped.
   */
  method AskTrackers(trackers: seq<Indexer>, query: Query, b: Behaviour, cache: CacheService)
    returns (results: seq<TrackerCacheResult>)
    modifies cache
    ensures results == Merged(trackers, query, b)
    ensures cache.entries == CacheAfter(trackers, 0, old(cache.entries), query, b)
  {
    results := [];
    for i := 0 to |trackers|
      invariant results == Merged(trackers[..i], query, b)
      invariant CacheAfter(trackers, i, cache.entries, query, b) == CacheAfter(trackers, 0, old(cache.entries), query, b)
    {
      var indexer := trackers[i];
      MergedExtend(trackers, i, query, b);
      var found := b.perform(indexer, query);
      if found.Ok? {
        var cleaned := b.clean(indexer, found.value);
        cache.CacheRssResults(indexer, cleaned);
        var kept := b.filter(indexer, query, cleaned);
        var tagged := seq(|kept|, k requires 0 <= k < |kept| => Tag(indexer, kept[k]));
        assert tagged == Contribution(indexer, query, b);
        results := results + tagged;
      }
    }
    assert trackers[..|trackers|] == trackers;
  }

  /**
   * `Search`: asks each selected tracker in turn, caches what it found, adds
   * its filtered results, rewrites the links and orders the reply.
   */
  method Search(value: AdminSearch, all: seq<Indexer>, expand: seq<int> -> seq<int>, b: Behaviour,
                cache: CacheService, serverUrl: string, blackholeDir: Text, proxy: ProxyLink)
    returns (reply: ManualSearchResult)
    modifies cache
    ensures reply == SearchReply(value, all, expand, b, serverUrl, blackholeDir, proxy)
    ensures cache.entries == CacheAfter(SelectTrackers(all, value), 0, old(cache.entries), SearchQuery(value, expand), b)
  {
    var query := SearchQuery(value, expand);
    var trackers := SelectTrackers(all, value);
    var results := AskTrackers(trackers, query, b, cache);
    var configured := ConfigureAll(results, serverUrl, blackholeDir, proxy);
    reply := ManualSearchResult(Ordered(configured, |trackers|), ReportedIndexers(trackers));
  }

  /**
   * Peers in the reply are the origin's peers minus its seeders: for every
   * result the tracker returned (and its filter kept), the tagged copy carries
   * `peers - seeders`.
   */
  lemma ContributionPeersAreLeechers(indexer: Indexer, q: Query, b: Behaviour, k: nat)
    requires b.perform(indexer, q).Ok?
    requires k < |b.filter(indexer, q, b.clean(indexer, b.perform(indexer, q).value))|
    ensures var kept := b.filter(indexer, q, b.clean(indexer, b.perform(indexer, q).value));
      Contribution(indexer, q, b)[k].release.peers == kept[k].peers - kept[k].seeders
  {
  }

  // ---------------------------------------------------------------------
  // Configure

  /** `IndexerConfigurationStatus`. */
  datatype ConfigurationStatus = Completed | RequiresTesting | Failed

  /** What `ApplyConfiguration` did: returned a status, or threw (an `ExceptionWithConfigData` carries the items). */
  datatype ApplyOutcome = Applied(status: ConfigurationStatus) | Threw(message: string, configData: Option<seq<CD.Item>>)

  /** The JSON reply of `Configure`, plus whether a test ran and whether the configuration was reset. */
  datatype ConfigureReply = ConfigureReply(
    name: Option<string>, result: string, error: Option<string>, config: Option<CD.JArray>,
    tested: bool, reset: bool)

  const ConfigurationFailedMessage := "Configuration Failed"

  /** The error reply once the indexer is known: its configuration is reset, and the exception's items are echoed. */
  function ErrorReply(name: string, message: string, configData: Option<seq<CD.Item>>, tested: bool,
                      dataUrl: seq<CD.byte> -> string): ConfigureReply
  {
    ConfigureReply(Some(name), "error", Some(message),
      if configData.Some? then Some(CD.ToJson(configData.value, None, false, dataUrl)) else None,
      tested, true)
  }

  /**
   * `Configure`'s decision: look the indexer up, apply the posted
   * configuration, test it when asked to, and turn every exception into an
   * error reply.
   */
  function ConfigureOutcome(lookup: Result<Indexer>, apply: ApplyOutcome, test: Outcome,
                            dataUrl: seq<CD.byte> -> string): (r: ConfigureReply)
    ensures r.result == "success" <==>
      lookup.Ok? && (apply == Applied(Completed) || (apply == Applied(RequiresTesting) && test.Pass?))
    ensures r.result != "success" ==> r.result == "error" && r.error.Some?
    ensures r.tested <==> lookup.Ok? && apply == Applied(RequiresTesting)
    ensures r.reset <==> lookup.Ok? && r.result == "error"
    ensures r.config.Some? <==> lookup.Ok? && apply.Threw? && apply.configData.Some?
    ensures lookup.Ok? && apply == Applied(Failed) ==> r.error == Some(ConfigurationFailedMessage)
    ensures lookup.Err? ==> r.name == None && r.error == Some(lookup.error)
  {
    match lookup
    case Err(e) => ConfigureReply(None, "error", Some(e), None, false, false)
    case Ok(indexer) =>
      match apply
      case Threw(message, data) => ErrorReply(indexer.displayName, message, data, false, dataUrl)
      case Applied(Failed) => ErrorReply(indexer.displayName, ConfigurationFailedMessage, None, false, dataUrl)
      case Applied(Completed) => ConfigureReply(Some(indexer.displayName), "success", None, None, false, false)
      case Applied(RequiresTesting) =>
        match test
        case Pass => ConfigureReply(Some(indexer.displayName), "success", None, None, true, false)
        case Fail(e) => ErrorReply(indexer.displayName, e, None, true, dataUrl)
  }

  /**
   * The configuration echoed in an error reply is written without a
   * protector and not for display, so a non-empty password appears in plain text.
   */
  lemma ErrorReplyEchoesPlainPassword(indexer: Indexer, message: string, items: seq<CD.Item>, test: Outcome,
                                      dataUrl: seq<CD.byte> -> string, k: nat)
    requires k < |CD.GetItems(items, false)|
    requires var it := CD.GetItems(items, false)[k];
      it.StringItem? && it.kind != CD.Recaptcha && it.IsPassword() && !IsNullOrEmpty(it.value)
    ensures var r := ConfigureOutcome(Ok(indexer), Threw(message, Some(items)), test, dataUrl);
      && r.config.Some? && k < |r.config.value|
      && CD.StringValue(r.config.value[k], "value") == CD.GetItems(items, false)[k].value
  {
    CD.PersistedFormProtectsPasswords(items, None, dataUrl, k);
  }
}
