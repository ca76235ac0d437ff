/**
 * The Hounddawgs indexer: its table from the tracker's own category numbers
 * to Torznab categories, and the normalisation of the rows of a search
 * results page into releases. The page's cells are inputs; the date, size and
 * count parsers the indexer calls are applied to them beforehand.
 */
module Hounddawgs {
  import opened Wrappers
  import opened NetStrings
  import opened JackettModels
  import CD = ConfigurationData
  import AC = AdminController

  const SiteLink := "https://hounddawgs.org/"

  /** The text the tracker shows when a search found nothing. */
  const NoResultsMarker := "Din s\U{00F8}gning gav intet resultat."

  /** The tracker's series categories: the only rows kept. */
  const SeriesCategories: seq<int> := [92, 93, 57, 74]

  const MinimumRatio := 1
  /** 48 hours, in seconds. */
  const MinimumSeedTime := 172800

  /** One entry of the category table: a tracker category and a Torznab category it stands for. */
  datatype CategoryMapping = CategoryMapping(trackerCategory: int, torznabCategory: int)

  /** Entries mapping one tracker category to each of `torznab`, in order. */
  function Group(trackerCategory: int, torznab: seq<int>): (r: seq<CategoryMapping>)
    ensures |r| == |torznab|
    ensures forall k :: 0 <= k < |r| ==> r[k] == CategoryMapping(trackerCategory, torznab[k])
  {
    seq(|torznab|, k requires 0 <= k < |torznab| => CategoryMapping(trackerCategory, torznab[k]))
  }

  /** The table the constructor builds, in the order it adds the entries. */
  const DefaultMappings: seq<CategoryMapping> := [
    CategoryMapping(92, TV), CategoryMapping(92, TVHD), CategoryMapping(92, TVWEBDL),
    CategoryMapping(93, TVSD), CategoryMapping(93, TV),
    CategoryMapping(57, TV), CategoryMapping(57, TVHD), CategoryMapping(57, TVWEBDL),
    CategoryMapping(74, TVSD), CategoryMapping(74, TV)]

  /** The table is one group per series category. */
  lemma DefaultMappingsByGroup()
    ensures DefaultMappings ==
      Group(92, [TV, TVHD, TVWEBDL]) + Group(93, [TVSD, TV]) + Group(57, [TV, TVHD, TVWEBDL]) + Group(74, [TVSD, TV])
  {
    assert Group(92, [TV, TVHD, TVWEBDL]) == DefaultMappings[0..3];
    assert Group(93, [TVSD, TV]) == DefaultMappings[3..5];
    assert Group(57, [TV, TVHD, TVWEBDL]) == DefaultMappings[5..8];
    assert Group(74, [TVSD, TV]) == DefaultMappings[8..10];
    assert DefaultMappings == DefaultMappings[0..3] + DefaultMappings[3..5] + DefaultMappings[5..8] + DefaultMappings[8..10];
  }

  /** The Torznab categories a tracker category maps to, in table order. */
  function TorznabCategories(table: seq<CategoryMapping>, trackerCategory: int): (r: seq<int>)
    ensures |r| <= |table|
  {
    if table == [] then []
    else
      var rest := TorznabCategories(table[1..], trackerCategory);
      if table[0].trackerCategory == trackerCategory then [table[0].torznabCategory] + rest else rest
  }

  /** The categories listed for a tracker category are exactly those of its table entries. */
  lemma {:induction false} TorznabCategoriesMembers(table: seq<CategoryMapping>, trackerCategory: int, c: int)
    ensures c in TorznabCategories(table, trackerCategory) <==> CategoryMapping(trackerCategory, c) in table
  {
    if table != [] {
      TorznabCategoriesMembers(table[1..], trackerCategory, c);
      assert CategoryMapping(trackerCategory, c) in table
        <==> CategoryMapping(trackerCategory, c) == table[0] || CategoryMapping(trackerCategory, c) in table[1..];
    }
  }

  lemma {:induction false} TorznabCategoriesAppend(a: seq<CategoryMapping>, b: seq<CategoryMapping>, trackerCategory: int)
    ensures TorznabCategories(a + b, trackerCategory) == TorznabCategories(a, trackerCategory) + TorznabCategories(b, trackerCategory)
  {
    if a == [] {
      assert a + b == b;
    } else {
      assert (a + b)[1..] == a[1..] + b;
      TorznabCategoriesAppend(a[1..], b, trackerCategory);
    }
  }

  /** A group lists its own Torznab categories for its tracker category, and nothing for any other. */
  lemma {:induction false} TorznabCategoriesOfGroup(g: int, torznab: seq<int>, trackerCategory: int)
    ensures TorznabCategories(Group(g, torznab), trackerCategory) == if g == trackerCategory then torznab else []
  {
    if torznab != [] {
      TorznabCategoriesOfGroup(g, torznab[1..], trackerCategory);
      assert Group(g, torznab)[1..] == Group(g, torznab[1..]);
    }
  }

  /** 92 and 57 are TV, TV/HD and TV/WEB-DL; 93 and 74 are TV/SD and TV. */
  lemma DefaultMappingsBySeries(trackerCategory: int)
    ensures TorznabCategories(DefaultMappings, trackerCategory) ==
      if trackerCategory == 92 || trackerCategory == 57 then [TV, TVHD, TVWEBDL]
      else if trackerCategory == 93 || trackerCategory == 74 then [TVSD, TV]
      else []
  {
    DefaultMappingsByGroup();
    var n := trackerCategory;
    var g92, g93, g57, g74 := Group(92, [TV, TVHD, TVWEBDL]), Group(93, [TVSD, TV]), Group(57, [TV, TVHD, TVWEBDL]), Group(74, [TVSD, TV]);
    TorznabCategoriesAppend(g92 + g93 + g57, g74, n);
    TorznabCategoriesAppend(g92 + g93, g57, n);
    TorznabCategoriesAppend(g92, g93, n);
    TorznabCategoriesOfGroup(92, [TV, TVHD, TVWEBDL], n);
    TorznabCategoriesOfGroup(93, [TVSD, TV], n);
    TorznabCategoriesOfGroup(57, [TV, TVHD, TVWEBDL], n);
    TorznabCategoriesOfGroup(74, [TVSD, TV], n);
  }

  /** Every series category maps to TV among others, and no other tracker category is mapped. */
  lemma DefaultMappingsCoverSeriesOnly(trackerCategory: int)
    ensures trackerCategory in SeriesCategories <==> TorznabCategories(DefaultMappings, trackerCategory) != []
    ensures trackerCategory in SeriesCategories ==> TV in TorznabCategories(DefaultMappings, trackerCategory)
  {
    DefaultMappingsBySeries(trackerCategory);
  }

  /** The cells of one result row. */
  datatype Row = Row(
    categoryHref: string,
    /** `DateTime.ParseExact` of the "added" title, or `None` where it throws. */
    added: Option<int>,
    titleText: string,
    detailsHref: string,
    downloadHref: string,
    /** `ReleaseInfo.GetBytes` of the size cell, or `None` where it throws. */
    size: Option<int>,
    /** `ParseUtil.CoerceInt` of the seeders and leechers cells, or `None` where it throws. */
    seeders: Option<int>,
    leechers: Option<int>)

  /** The date, size and count cells of a row all parse. */
  predicate CellsParse(row: Row) {
    row.added.Some? && row.size.Some? && row.seeders.Some? && row.leechers.Some?
  }

  /** The tracker category of a row: the href after its last '[', with ']' trimmed, parsed as an int. */
  function NativeCategory(href: string): (r: Option<int>)
    ensures r.Some? ==> IntMin <= r.value <= IntMax
  {
    ParseInt(TrimChar(href[LastIndexOf(href, '[') + 1..], ']'))
  }

  /** The release a kept row becomes. */
  function RowRelease(row: Row): (r: Release)
    requires CellsParse(row)
    ensures r.category == TV && r.minimumRatio == MinimumRatio && r.minimumSeedTime == MinimumSeedTime
    ensures r.title == Str(Trim(row.titleText)) && r.description == r.title
    ensures r.comments == Some(Uri(SiteLink + row.detailsHref)) && r.guid == r.comments
    ensures r.link == Some(Uri(SiteLink + row.downloadHref))
    ensures r.publishDate == row.added.value && r.size == row.size.value
    ensures r.seeders == row.seeders.value && r.peers == row.leechers.value + row.seeders.value
  {
    var title := Str(Trim(row.titleText));
    var comments := Some(Uri(SiteLink + row.detailsHref));
    var seeders := row.seeders.value;
    Release(title, title, row.added.value, row.size.value, seeders, row.leechers.value + seeders,
            Some(Uri(SiteLink + row.downloadHref)), comments, comments, TV, MinimumRatio, MinimumSeedTime)
  }

  /** What the loop does with a row: throw, skip a non-series row, or keep a release. */
  datatype RowOutcome = Stop | Skip | Keep(release: Release)

  function ProcessRow(row: Row): (r: RowOutcome)
    ensures r.Skip? <==> NativeCategory(row.categoryHref).Some? && NativeCategory(row.categoryHref).value !in SeriesCategories
    ensures r.Keep? <==> NativeCategory(row.categoryHref).Some? && NativeCategory(row.categoryHref).value in SeriesCategories
                         && CellsParse(row)
    ensures r.Stop? <==> NativeCategory(row.categoryHref).None?
                         || (NativeCategory(row.categoryHref).value in SeriesCategories && !CellsParse(row))
    ensures r.Keep? ==> r.release == RowRelease(row)
  {
    match NativeCategory(row.categoryHref)
    case None => Stop
    case Some(category) =>
      if category !in SeriesCategories then Skip
      else if !CellsParse(row) then Stop
      else Keep(RowRelease(row))
  }

  /**
   * The exception that leaves `PerformQuery` when a row throws: its catch
   * hands the page to `OnParseError`, which logs it and throws again. The
   * wording of that exception is not part of this model.
   */
  const ParseError := "Parse error"

  /**
   * The loop from row `i` on, after the releases in `collected`: the whole
   * query fails as soon as a row throws.
   */
  function ReleasesFrom(rows: seq<Row>, i: nat, collected: seq<Release>, process: Row -> RowOutcome): Result<seq<Release>>
    decreases |rows| - i
  {
    if i >= |rows| then Ok(collected)
    else match process(rows[i])
      case Stop => Err(ParseError)
      case Skip => ReleasesFrom(rows, i + 1, collected, process)
      case Keep(release) => ReleasesFrom(rows, i + 1, collected + [release], process)
  }

  /** The releases of a results page: the header row is skipped. */
  function PageReleases(rows: seq<Row>): Result<seq<Release>> {
    ReleasesFrom(rows, 1, [], ProcessRow)
  }

  /** No row throws. */
  predicate NoRowThrows(rows: seq<Row>, process: Row -> RowOutcome) {
    forall j :: 0 <= j < |rows| ==> !process(rows[j]).Stop?
  }

  /** The reference the loop is proved against: the release of every kept row, in row order. */
  function Kept(rows: seq<Row>, process: Row -> RowOutcome): (r: seq<Release>)
    ensures |r| <= |rows|
  {
    if rows == [] then []
    else match process(rows[0])
      case Keep(release) => [release] + Kept(rows[1..], process)
      case _ => Kept(rows[1..], process)
  }

  lemma {:induction false} KeptAppend(a: seq<Row>, b: seq<Row>, process: Row -> RowOutcome)
    ensures Kept(a + b, process) == Kept(a, process) + Kept(b, process)
  {
    if a == [] {
      assert a + b == b;
    } else {
      assert (a + b)[0] == a[0] && (a + b)[1..] == a[1..] + b;
      KeptAppend(a[1..], b, process);
      match process(a[0])
      case Keep(release) =>
        assert Kept(a + b, process) == [release] + (Kept(a[1..], process) + Kept(b, process));
      case _ =>
        assert Kept(a + b, process) == Kept(a[1..], process) + Kept(b, process);
    }
  }

  /** A release is kept iff some row keeps it. */
  lemma {:induction false} KeptMembers(rows: seq<Row>, process: Row -> RowOutcome, r: Release)
    ensures r in Kept(rows, process) <==> exists j :: 0 <= j < |rows| && process(rows[j]) == Keep(r)
  {
    if rows != [] {
      KeptMembers(rows[1..], process, r);
      if exists j :: 1 <= j < |rows| && process(rows[j]) == Keep(r) {
        var j :| 1 <= j < |rows| && process(rows[j]) == Keep(r);
        assert process(rows[1..][j - 1]) == Keep(r);
      }
      if r in Kept(rows[1..], process) {
        var j :| 0 <= j < |rows[1..]| && process(rows[1..][j]) == Keep(r);
        assert process(rows[j + 1]) == Keep(r);
      }
    }
  }

  /** The loop fails iff a remaining row throws, and otherwise appends exactly the kept releases. */
  lemma {:induction false} ReleasesFromIsKept(rows: seq<Row>, i: nat, collected: seq<Release>,
                                              process: Row -> RowOutcome)
    requires i <= |rows|
    decreases |rows| - i
    ensures ReleasesFrom(rows, i, collected, process)
         == if NoRowThrows(rows[i..], process) then Ok(collected + Kept(rows[i..], process)) else Err(ParseError)
  {
    if i == |rows| {
      assert rows[i..] == [] && collected + [] == collected;
    } else {
      var rest := rows[i..];
      var tail := rows[i + 1..];
      assert rest[0] == rows[i] && rest[1..] == tail;
      assert NoRowThrows(rest, process) <==> !process(rows[i]).Stop? && NoRowThrows(rows[i + 1..], process) by {
        if !process(rows[i]).Stop? && NoRowThrows(rows[i + 1..], process) {
          forall j | 0 <= j < |rest| ensures !process(rest[j]).Stop? {
            if j > 0 { assert rest[j] == tail[j - 1]; }
          }
        }
        if NoRowThrows(rest, process) {
          forall j | 0 <= j < |tail| ensures !process(tail[j]).Stop? {
            assert tail[j] == rest[j + 1];
          }
        }
      }
      match process(rows[i])
      case Stop =>
      case Skip =>
        ReleasesFromIsKept(rows, i + 1, collected, process);
        assert Kept(rest, process) == Kept(tail, process);
      case Keep(release) =>
        ReleasesFromIsKept(rows, i + 1, collected + [release], process);
        assert Kept(rest, process) == [release] + Kept(tail, process);
        assert collected + [release] + Kept(rows[i + 1..], process) == collected + Kept(rest, process);
    }
  }

  /** A page fails iff a row after the header throws; otherwise it holds exactly the kept rows' releases, in order. */
  lemma PageReleasesAreKeptRows(rows: seq<Row>)
    ensures |rows| <= 1 ==> PageReleases(rows) == Ok([])
    ensures |rows| >= 1 ==>
      PageReleases(rows) == (if NoRowThrows(rows[1..], ProcessRow) then Ok(Kept(rows[1..], ProcessRow)) else Err(ParseError))
  {
    if |rows| >= 1 {
      ReleasesFromIsKept(rows, 1, [], ProcessRow);
      assert [] + Kept(rows[1..], ProcessRow) == Kept(rows[1..], ProcessRow);
    }
  }

  /** Every kept release carries the fixed category, ratio and seed time, and Description = Title, Guid = Comments. */
  predicate Normalised(r: Release) {
    && r.category == TV && r.minimumRatio == MinimumRatio && r.minimumSeedTime == MinimumSeedTime
    && r.description == r.title && r.guid == r.comments
  }

  /**
   * A page succeeds iff no row after the header throws; it then returns a
   * release iff some such row keeps it, each normalised, at most one per row.
   */
  lemma PageReleasesFacts(rows: seq<Row>)
    ensures PageReleases(rows).Ok? <==> forall j :: 1 <= j < |rows| ==> !ProcessRow(rows[j]).Stop?
    ensures PageReleases(rows).Ok? && |rows| >= 1 ==> |PageReleases(rows).value| <= |rows| - 1
    ensures PageReleases(rows).Ok? ==> forall r ::
      r in PageReleases(rows).value <==> exists j :: 1 <= j < |rows| && ProcessRow(rows[j]) == Keep(r)
    ensures PageReleases(rows).Ok? ==> forall r :: r in PageReleases(rows).value ==> Normalised(r)
  {
    PageReleasesAreKeptRows(rows);
    if |rows| >= 1 {
      var body := rows[1..];
      assert NoRowThrows(body, ProcessRow) <==> forall j :: 1 <= j < |rows| ==> !ProcessRow(rows[j]).Stop? by {
        if NoRowThrows(body, ProcessRow) {
          forall j | 1 <= j < |rows| ensures !ProcessRow(rows[j]).Stop? { assert rows[j] == body[j - 1]; }
        }
      }
      if PageReleases(rows).Ok? {
        forall r
          ensures r in PageReleases(rows).value <==> exists j :: 1 <= j < |rows| && ProcessRow(rows[j]) == Keep(r)
        {
          KeptMembers(body, ProcessRow, r);
          if exists j :: 1 <= j < |rows| && ProcessRow(rows[j]) == Keep(r) {
            var j :| 1 <= j < |rows| && ProcessRow(rows[j]) == Keep(r);
            assert ProcessRow(body[j - 1]) == Keep(r);
          }
          if r in Kept(body, ProcessRow) {
            var j :| 0 <= j < |body| && ProcessRow(body[j]) == Keep(r);
            assert ProcessRow(rows[j + 1]) == Keep(r);
          }
        }
      }
    }
  }

  /** A row after the header that throws makes the whole page fail. */
  lemma ThrowingRowFailsPage(rows: seq<Row>, j: nat)
    requires 1 <= j < |rows| && ProcessRow(rows[j]) == Stop
    ensures PageReleases(rows) == Err(ParseError)
  {
    PageReleasesAreKeptRows(rows);
    assert rows[1..][j - 1] == rows[j];
  }

  /** Through the search, a Hounddawgs page that fails contributes nothing. */
  lemma BrokenPageContributesNothing(indexer: Indexer, q: Query, b: AC.Behaviour, rows: seq<Row>, j: nat)
    requires b.perform(indexer, q) == PageReleases(rows)
    requires 1 <= j < |rows| && ProcessRow(rows[j]) == Stop
    ensures AC.Contribution(indexer, q, b) == []
  {
    ThrowingRowFailsPage(rows, j);
  }

  lemma {:induction false} LastIndexOfAt(s: string, c: char, p: nat)
    requires p < |s| && s[p] == c
    requires forall i :: p < i < |s| ==> s[i] != c
    ensures LastIndexOf(s, c) == p
  {
    if s[|s| - 1] != c {
      LastIndexOfAt(s[..|s| - 1], c, p);
    }
  }

  /** A digit run keeps its brackets-free form through `Trim(']')`. */
  lemma TrimBracketOfDigits(d: string)
    requires d != [] && AllDigits(d)
    ensures TrimChar(d + "]", ']') == d
  {
    var s := d + "]";
    var bracket := (x: char) => x == ']';
    assert s[0] == d[0] && s[|s| - 1] == ']';
    assert s[..|s| - 1] == d;
    assert !bracket(s[0]) && bracket(s[|s| - 1]);
    assert !bracket(d[0]) && !bracket(d[|d| - 1]);
    assert TrimBy(s, bracket) == TrimBy(d, bracket) == d;
  }

  /** A category link ending in `[<n>]` yields `n`, whatever comes before the bracket. */
  lemma NativeCategoryOfBracket(prefix: string, n: nat)
    requires n <= IntMax
    ensures NativeCategory(prefix + "[" + NatToString(n) + "]") == Some(n)
  {
    var d := NatToString(n);
    var href := prefix + "[" + d + "]";
    forall i | |prefix| < i < |href|
      ensures href[i] != '['
    {
      if i < |href| - 1 {
        assert href[i] == d[i - |prefix| - 1];
      }
    }
    LastIndexOfAt(href, '[', |prefix|);
    assert href[|prefix| + 1..] == d + "]";
    TrimBracketOfDigits(d);
    ParseIntOfNatToString(n);
  }

  /**
   * Hounddawgs stores peers as leechers plus seeders, and the search reply
   * subtracts the seeders again, so the reply shows the leecher count.
   */
  lemma ReplyPeersOfRowAreLeechers(indexer: Indexer, row: Row)
    requires CellsParse(row)
    ensures AC.Tag(indexer, RowRelease(row)).release.peers == row.leechers.value
  {
  }

  /** `NxtGnConfigurationData`: the user name and password items. */
  const Username := CD.NewStringItem("Username")
  const Password := CD.NewStringItem("Password")

  /** The password item is the one the configuration masks and protects; the user name is not. */
  lemma PasswordItemIsSecret()
    ensures Password.IsPassword() && !Username.IsPassword()
  {
    assert ToLower("Password") == "password";
    assert ToLower("Username")[0] == 'u';
  }

  /** The indexer, with the category table its base class keeps. */
  class HounddawgsIndexer {
    var categoryMapping: seq<CategoryMapping>

    constructor()
      ensures categoryMapping == DefaultMappings
    {
      categoryMapping := [];
      new;
      AddCategoryMapping(92, TV);
      AddCategoryMapping(92, TVHD);
      AddCategoryMapping(92, TVWEBDL);
      assert categoryMapping == DefaultMappings[..3];
      AddCategoryMapping(93, TVSD);
      AddCategoryMapping(93, TV);
      assert categoryMapping == DefaultMappings[..5];
      AddCategoryMapping(57, TV);
      AddCategoryMapping(57, TVHD);
      AddCategoryMapping(57, TVWEBDL);
      assert categoryMapping == DefaultMappings[..8];
      AddCategoryMapping(74, TVSD);
      AddCategoryMapping(74, TV);
    }

    /** `AddCategoryMapping`: appends one entry to the table. */
    method AddCategoryMapping(trackerCategory: int, torznabCategory: int)
      modifies this
      ensures categoryMapping == old(categoryMapping) + [CategoryMapping(trackerCategory, torznabCategory)]
    {
      categoryMapping := categoryMapping + [CategoryMapping(trackerCategory, torznabCategory)];
    }

    /**
     * `PerformQuery`'s handling of a results page: nothing when the page says
     * the search found nothing; otherwise the rows after the header, skipping
     * non-series rows; the query fails if a row throws.
     */
    method PerformQuery(content: string, rows: seq<Row>) returns (r: Result<seq<Release>>)
      ensures Contains(content, NoResultsMarker) ==> r == Ok([])
      ensures !Contains(content, NoResultsMarker) ==> r == PageReleases(rows)
    {
      if Contains(content, NoResultsMarker) {
        return Ok([]);
      }
      var releases := [];
      var i := 1;
      while i < |rows|
        invariant 1 <= i
        invariant ReleasesFrom(rows, i, releases, ProcessRow) == PageReleases(rows)
      {
        var row := rows[i];
        var category := NativeCategory(row.categoryHref);
        if category.None? {
          return Err(ParseError);
        }
        if category.value !in SeriesCategories {
          i := i + 1;
          continue;
        }
        if !CellsParse(row) {
          return Err(ParseError);
        }
        var release := RowRelease(row);
        releases := releases + [release];
        i := i + 1;
      }
      return Ok(releases);
    }
  }
}
