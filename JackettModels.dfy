/**
 * The shared models the core passes around: `ReleaseInfo`, `TrackerCacheResult`,
 * `TorznabQuery`, the indexer as the registry and the search see it, the
 * Torznab TV category numbers, and the RSS cache service.
 */
module JackettModels {
  import opened Wrappers
  import opened NetStrings

  /** `System.Uri`, kept as its text; the scheme is read off the text. */
  datatype Uri = Uri(text: string)
  {
    /** `Uri.Scheme`: the text before the first ':', lower-cased. */
    function Scheme(): string {
      LowerBeforeColon(text)
    }
  }

  /** The text before the first ':'. */
  function BeforeColon(s: string): (r: string)
    ensures |r| <= |s|
    ensures forall i :: 0 <= i < |r| ==> r[i] == s[i] && s[i] != ':'
    ensures |r| < |s| ==> s[|r|] == ':'
  {
    if s == [] || s[0] == ':' then [] else [s[0]] + BeforeColon(s[1..])
  }

  /** `Scheme` in one pass: each character up to the first ':' lower-cased. */
  function LowerBeforeColon(s: string): (r: string)
    ensures |r| <= |s|
  {
    if s == [] || s[0] == ':' then [] else [ToLowerChar(s[0])] + LowerBeforeColon(s[1..])
  }

  /** The one-pass scheme is the lower-cased text before the first ':'. */
  lemma {:induction false} SchemeIsLowerCasedPrefix(s: string)
    ensures LowerBeforeColon(s) == ToLower(BeforeColon(s))
  {
    if s != [] && s[0] != ':' {
      SchemeIsLowerCasedPrefix(s[1..]);
      assert BeforeColon(s) == [s[0]] + BeforeColon(s[1..]);
      assert ToLower([s[0]] + BeforeColon(s[1..])) == [ToLowerChar(s[0])] + ToLower(BeforeColon(s[1..]));
    }
  }

  /** `ReleaseInfo`: one search result of a tracker (dates as ticks). */
  datatype Release = Release(
    title: Text, description: Text, publishDate: int, size: int,
    seeders: int, peers: int,
    link: Option<Uri>, comments: Option<Uri>, guid: Option<Uri>,
    category: int, minimumRatio: int, minimumSeedTime: int)

  /** `TorznabQuery`: the search term and the requested category numbers. */
  datatype Query = Query(searchTerm: Text, categories: seq<int>)

  /** `new TorznabQuery()`, the browse query of an indexer test. */
  const BrowseQuery := Query(Null, [])

  /** An indexer as the registry and the search see it. */
  datatype Indexer = Indexer(id: string, displayName: string, configured: bool, caps: seq<int>)

  /** `TrackerCacheResult`: a release tagged with the tracker that returned it. */
  datatype TrackerCacheResult = TrackerCacheResult(
    release: Release, tracker: Text, trackerId: Text, blackholeLink: Option<Uri>)

  // TorznabCatType numbers of the TV categories.
  const TV: int := 5000
  const TVWEBDL: int := 5010
  const TVSD: int := 5030
  const TVHD: int := 5040

  /** The RSS cache: the latest releases recorded per indexer ID. */
  class CacheService {
    var entries: map<string, seq<Release>>

    constructor()
      ensures entries == map[]
    {
      entries := map[];
    }

    /** `CacheRssResults(indexer, releases)`: the indexer's entry becomes `releases`. */
    method CacheRssResults(indexer: Indexer, releases: seq<Release>)
      modifies this
      ensures entries == old(entries)[indexer.id := releases]
    {
      entries := entries[indexer.id := releases];
    }
  }
}
