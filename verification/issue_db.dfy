/**
 * The query side of the issue store (`IssueDbService`): which repository
 * query a search runs, the extra confidence filter, the page window, the
 * page number `get_all` reports, and the confidence ranking. The repository
 * (SQL) is an input: a record of the answers its queries give.
 *
 * `get_all` and `search_issues` build their `PipelineStats` without the
 * required `after_deduplication` count, so as written both always end in a
 * validation error. `GetAllAsWritten`/`SearchIssuesAsWritten` model that;
 * `GetAll`/`SearchIssues` pass the stored-issue count for it as well, which
 * is what every other count of those statistics is.
 */
module IssueDb {
  import opened Outcomes
  import opened Seqs
  import opened IssueSchema

  /** One stored issue, as far as these queries look at it. */
  datatype StoredIssue = StoredIssue(id: nat, corp: string, summary: string, originalTitle: string, confidence: real)

  /** `get_statistics`: the stored-issue count and the number of distinct top companies, each possibly missing. */
  datatype Statistics = Statistics(totalCount: Option<int>, topCompanies: Option<nat>)

  /** What each repository query answers. */
  datatype Repository = Repository(
    getAll: (int, int) -> seq<StoredIssue>,
    countTotal: int,
    statistics: Statistics,
    byCorp: string -> seq<StoredIssue>,
    byKeyword: string -> seq<StoredIssue>,
    bySentiment: string -> seq<StoredIssue>,
    byConfidence: real -> seq<StoredIssue>,
    byDateRange: (string, string) -> seq<StoredIssue>)

  /** `IssueListResponse`. */
  datatype IssueListResponse = IssueListResponse(
    status: string,
    message: string,
    data: seq<StoredIssue>,
    totalCount: int,
    page: int,
    pageSize: int,
    stats: Option<PipelineStats>)

  // ---------------------------------------------------------------------
  // Statistics
  // ---------------------------------------------------------------------

  /** The statistics as written: `after_deduplication` is never passed. */
  function StatsAsWritten(s: Statistics): (r: Result<PipelineStats>)
  {
    var total := s.totalCount.GetOr(0);
    NewPipelineStats(Passed(total), Passed(total), Omitted, Passed(total), Passed(total), Passed(s.topCompanies.GetOr(0)))
  }

  /** Whatever the repository reports, the statistics as written fail validation. */
  lemma StatsAsWrittenAlwaysFails(s: Statistics)
    ensures StatsAsWritten(s).Failure?
  {
  }

  /** The statistics with every pipeline count set to the stored-issue count. */
  function Stats(s: Statistics): (r: Result<PipelineStats>)
    ensures r.Success?
    ensures r.value.totalCollected == r.value.afterKeywordFilter == r.value.afterDeduplication
         == r.value.afterClassification == r.value.finalSummaries == s.totalCount.GetOr(0)
    ensures r.value.companiesProcessed == s.topCompanies.GetOr(0)
  {
    var total := s.totalCount.GetOr(0);
    NewPipelineStats(Passed(total), Passed(total), Passed(total), Passed(total), Passed(total), Passed(s.topCompanies.GetOr(0)))
  }

  // ---------------------------------------------------------------------
  // get_all
  // ---------------------------------------------------------------------

  /** Python's `a // b`: the quotient rounded towards minus infinity. */
  function FloorDiv(a: int, b: int): (q: int)
    requires b != 0
    ensures b > 0 ==> b * q <= a < b * q + b
    ensures b < 0 ==> b * q >= a > b * q + b
  {
    if b > 0 then a / b else (-a) / (-b)
  }

  /** `skip // limit + 1`, which raises for a limit of 0. */
  function PageNumber(skip: int, limit: int): (r: Result<int>)
    ensures r.Success? <==> limit != 0
    ensures limit > 0 ==> (r.value - 1) * limit <= skip < r.value * limit
    ensures limit < 0 ==> (r.value - 1) * limit >= skip > r.value * limit
  {
    if limit == 0 then Failure("integer division or modulo by zero") else Success(FloorDiv(skip, limit) + 1)
  }

  /** `get_all` as written: the statistics fail before the page is computed. */
  function GetAllAsWritten(skip: int, limit: int, repo: Repository): (r: Result<IssueListResponse>)
  {
    match StatsAsWritten(repo.statistics)
    case Failure(e) => Failure(e)
    case Success(stats) =>
      match PageNumber(skip, limit)
      case Failure(e) => Failure(e)
      case Success(page) =>
        Success(IssueListResponse("success", "이슈 목록 조회 완료", repo.getAll(skip, limit), repo.countTotal,
                                  page, limit, Some(stats)))
  }

  /** Every call of `get_all` as written fails, whatever the arguments and the stored data. */
  lemma GetAllAsWrittenFails(skip: int, limit: int, repo: Repository)
    ensures GetAllAsWritten(skip, limit, repo).Failure?
  {
    StatsAsWrittenAlwaysFails(repo.statistics);
  }

  /**
   * `get_all` with complete statistics: the repository's page of rows, the
   * total count, the page number `skip // limit + 1` and the limit as the
   * page size; a limit of 0 divides by zero.
   */
  function GetAll(skip: int, limit: int, repo: Repository): (r: Result<IssueListResponse>)
    ensures r.Success? <==> limit != 0
    ensures r.Success? ==>
      && r.value.data == repo.getAll(skip, limit) && r.value.totalCount == repo.countTotal
      && r.value.pageSize == limit && r.value.stats == Some(Stats(repo.statistics).value)
      && (limit > 0 ==> (r.value.page - 1) * limit <= skip < r.value.page * limit)
  {
    var stats := Stats(repo.statistics).value;
    match PageNumber(skip, limit)
    case Failure(e) => Failure(e)
    case Success(page) =>
      Success(IssueListResponse("success", "이슈 목록 조회 완료", repo.getAll(skip, limit), repo.countTotal,
                                page, limit, Some(stats)))
  }

  /** The page a search computes its offset from is the page `get_all` reports for that offset. */
  lemma GetAllPageRoundTrip(page: int, limit: int, repo: Repository)
    requires page >= 1 && limit >= 1
    ensures GetAll((page - 1) * limit, limit, repo).value.page == page
  {
    var p := PageNumber((page - 1) * limit, limit).value;
    if p < page {
      MulMonotone(limit, p, page - 1);
    } else if p > page {
      MulMonotone(limit, page, p - 1);
    }
  }

  lemma MulMonotone(k: int, a: int, b: int)
    requires k >= 0 && a <= b
    ensures k * a <= k * b
  {
  }

  // ---------------------------------------------------------------------
  // search_issues
  // ---------------------------------------------------------------------

  /** Python truthiness of an optional text: present and non-empty. */
  predicate Given(s: Option<string>) {
    s.Some? && s.value != ""
  }

  /** Python truthiness of an optional number: present and not zero. */
  predicate GivenNumber(x: Option<real>) {
    x.Some? && x.value != 0.0
  }

  /** The repository query a search runs. */
  datatype Branch = ByCorp | ByKeyword | BySentiment | ByConfidence | ByDateRange | AllRows

  /** The first truthy criterion decides: company, keyword, sentiment, minimum confidence, then a complete date range. */
  function SearchBranch(q: IssueSearchRequest): (b: Branch)
  {
    if Given(q.corp) then ByCorp
    else if Given(q.keyword) then ByKeyword
    else if Given(q.sentiment) then BySentiment
    else if GivenNumber(q.minConfidence) then ByConfidence
    else if Given(q.startDate) && Given(q.endDate) then ByDateRange
    else AllRows
  }

  /**
   * Each criterion is used exactly when it is truthy and every criterion
   * before it is not; the unfiltered listing is used exactly when none applies.
   */
  lemma SearchBranchPrecedence(q: IssueSearchRequest)
    ensures SearchBranch(q) == ByCorp <==> Given(q.corp)
    ensures SearchBranch(q) == ByKeyword <==> !Given(q.corp) && Given(q.keyword)
    ensures SearchBranch(q) == BySentiment <==> !Given(q.corp) && !Given(q.keyword) && Given(q.sentiment)
    ensures SearchBranch(q) == ByConfidence <==>
      !Given(q.corp) && !Given(q.keyword) && !Given(q.sentiment) && GivenNumber(q.minConfidence)
    ensures SearchBranch(q) == AllRows <==>
      !Given(q.corp) && !Given(q.keyword) && !Given(q.sentiment) && !GivenNumber(q.minConfidence)
      && !(Given(q.startDate) && Given(q.endDate))
  {
  }

  /** `(page - 1) * page_size`. */
  function Skip(q: IssueSearchRequest): (skip: int)
    ensures q.page >= 1 && q.pageSize >= 0 ==> skip >= 0
  {
    (q.page - 1) * q.pageSize
  }

  /** The rows the chosen query returns, before any extra filtering. */
  function Fetch(q: IssueSearchRequest, repo: Repository): (rows: seq<StoredIssue>)
  {
    match SearchBranch(q)
    case ByCorp => repo.byCorp(q.corp.value)
    case ByKeyword => repo.byKeyword(q.keyword.value)
    case BySentiment => repo.bySentiment(q.sentiment.value)
    case ByConfidence => repo.byConfidence(q.minConfidence.value)
    case ByDateRange => repo.byDateRange(q.startDate.value, q.endDate.value)
    case AllRows => repo.getAll(Skip(q), q.pageSize)
  }

  /** The rows whose confidence reaches the minimum, in order. */
  function AtLeast(rows: seq<StoredIssue>, min: real): (r: seq<StoredIssue>)
    ensures |r| <= |rows|
    decreases |rows|
  {
    if |rows| == 0 then []
    else
      var last := rows[|rows| - 1];
      AtLeast(rows[..|rows| - 1], min) + (if last.confidence >= min then [last] else [])
  }

  /** The confidence filter keeps exactly the rows at or above the minimum, in order. */
  lemma {:induction false} AtLeastSpec(rows: seq<StoredIssue>, min: real)
    ensures IsSubseq(AtLeast(rows, min), rows)
    ensures forall x | x in AtLeast(rows, min) :: x.confidence >= min
    ensures forall x | x in rows && x.confidence >= min :: x in AtLeast(rows, min)
    decreases |rows|
  {
    if |rows| > 0 {
      var n := |rows| - 1;
      var last := rows[n];
      AtLeastSpec(rows[..n], min);
      assert rows == rows[..n] + [last];
      if last.confidence >= min {
        SubseqAppendBoth(AtLeast(rows[..n], min), rows[..n], last);
      } else {
        assert AtLeast(rows, min) == AtLeast(rows[..n], min);
        SubseqAppendRight(AtLeast(rows[..n], min), rows[..n], last);
      }
    }
  }

  /** The rows after the extra filter, which only the minimum-confidence query gets. */
  function Candidates(q: IssueSearchRequest, repo: Repository): (rows: seq<StoredIssue>)
  {
    var rows := Fetch(q, repo);
    if GivenNumber(q.minConfidence) && !Given(q.sentiment) && !Given(q.corp) && !Given(q.keyword)
    then AtLeast(rows, q.minConfidence.value)
    else rows
  }

  /** The page of a filtered list: `rows[skip : skip + page_size]`. */
  function PageOf(rows: seq<StoredIssue>, skip: int, pageSize: int): (r: seq<StoredIssue>)
    ensures pageSize >= 0 ==> |r| <= pageSize
  {
    PySlice(rows, skip, skip + pageSize)
  }

  /** The page and the total count a search reports. */
  function SearchWindow(q: IssueSearchRequest, repo: Repository): (w: (seq<StoredIssue>, int))
  {
    var rows := Candidates(q, repo);
    if SearchBranch(q) != AllRows then (PageOf(rows, Skip(q), q.pageSize), |rows|)
    else (rows, repo.countTotal)
  }

  /** `search_issues` as written: the statistics fail after the rows are fetched. */
  function SearchIssuesAsWritten(q: IssueSearchRequest, repo: Repository): (r: Result<IssueListResponse>)
  {
    var w := SearchWindow(q, repo);
    match StatsAsWritten(repo.statistics)
    case Failure(e) => Failure(e)
    case Success(stats) => Success(IssueListResponse("success", "이슈 검색 완료", w.0, w.1, q.page, q.pageSize, Some(stats)))
  }

  /** Every search as written fails, whatever the criteria and the stored data. */
  lemma SearchIssuesAsWrittenFails(q: IssueSearchRequest, repo: Repository)
    ensures SearchIssuesAsWritten(q, repo).Failure?
  {
    StatsAsWrittenAlwaysFails(repo.statistics);
  }

  /** `search_issues` with complete statistics. */
  function SearchIssues(q: IssueSearchRequest, repo: Repository): (r: IssueListResponse)
    ensures r.page == q.page && r.pageSize == q.pageSize
    ensures r.stats == Some(Stats(repo.statistics).value)
  {
    var w := SearchWindow(q, repo);
    IssueListResponse("success", "이슈 검색 완료", w.0, w.1, q.page, q.pageSize, Some(Stats(repo.statistics).value))
  }

  /**
   * A filtered search reports how many rows matched and returns the
   * requested window of them, never more than a page; the unfiltered one
   * returns the repository's page and total.
   */
  lemma SearchIssuesWindow(q: IssueSearchRequest, repo: Repository)
    ensures var r := SearchIssues(q, repo);
      var rows := Candidates(q, repo);
      && (SearchBranch(q) != AllRows ==>
            r.totalCount == |rows| && r.data == PySlice(rows, Skip(q), Skip(q) + q.pageSize)
            && (q.pageSize >= 0 ==> |r.data| <= q.pageSize))
      && (SearchBranch(q) == AllRows ==> r.data == repo.getAll(Skip(q), q.pageSize) && r.totalCount == repo.countTotal)
  {
  }

  /** A search by minimum confidence only returns rows that reach it. */
  lemma ConfidenceSearchFilters(q: IssueSearchRequest, repo: Repository)
    requires SearchBranch(q) == ByConfidence
    ensures forall x | x in SearchIssues(q, repo).data :: x.confidence >= q.minConfidence.value
  {
    var rows := Candidates(q, repo);
    AtLeastSpec(Fetch(q, repo), q.minConfidence.value);
    forall x | x in SearchIssues(q, repo).data
      ensures x.confidence >= q.minConfidence.value
    {
      PySliceMembership(rows, Skip(q), Skip(q) + q.pageSize, x);
    }
  }

  /** Whatever a slice holds comes from the sliced list. */
  lemma PySliceMembership<T>(s: seq<T>, lo: int, hi: int, x: T)
    requires x in PySlice(s, lo, hi)
    ensures x in s
  {
    var a := SliceBound(lo, |s|);
    var b := SliceBound(hi, |s|);
    assert PySlice(s, lo, hi) == s[a..b];
  }

  // ---------------------------------------------------------------------
  // Paging
  // ---------------------------------------------------------------------

  /** Pages 1 through `pages` of a list, one after the other. */
  function FirstPages(rows: seq<StoredIssue>, pageSize: nat, pages: nat): (r: seq<StoredIssue>)
    decreases pages
  {
    if pages == 0 then [] else FirstPages(rows, pageSize, pages - 1) + PageOf(rows, (pages - 1) * pageSize, pageSize)
  }

  lemma NextPageOffset(pages: nat, pageSize: nat)
    requires pages > 0
    ensures (pages - 1) * pageSize + pageSize == pages * pageSize
    ensures (pages - 1) * pageSize >= 0
  {
  }

  /** From a non-negative offset, a page is the window of the list between the offset and its end, both cut at the length. */
  lemma PageOfWindow(rows: seq<StoredIssue>, lo: nat, pageSize: nat)
    ensures var a := if lo <= |rows| then lo else |rows|;
      var b := if lo + pageSize <= |rows| then lo + pageSize else |rows|;
      PageOf(rows, lo, pageSize) == rows[a..b]
  {
  }

  /**
   * The pages of a filtered list tile it: the first `pages` of them, put
   * together, are exactly its first `pages * page_size` rows.
   */
  lemma {:induction false} PagesTile(rows: seq<StoredIssue>, pageSize: nat, pages: nat)
    ensures var end := if pages * pageSize <= |rows| then pages * pageSize else |rows|;
      FirstPages(rows, pageSize, pages) == rows[..end]
    decreases pages
  {
    if pages > 0 {
      PagesTile(rows, pageSize, pages - 1);
      var lo := (pages - 1) * pageSize;
      NextPageOffset(pages, pageSize);
      PageOfWindow(rows, lo, pageSize);
      var a := if lo <= |rows| then lo else |rows|;
      var b := if lo + pageSize <= |rows| then lo + pageSize else |rows|;
      assert rows[..a] + rows[a..b] == rows[..b];
    }
  }

  // ---------------------------------------------------------------------
  // get_top_issues_by_confidence
  // ---------------------------------------------------------------------

  /** Confidence never increases along the list. */
  predicate NonIncreasing(rows: seq<StoredIssue>) {
    forall i, j | 0 <= i < j < |rows| :: rows[i].confidence >= rows[j].confidence
  }

  /** Insert a row ahead of every row whose confidence does not exceed its own. */
  function InsertByConfidence(x: StoredIssue, rows: seq<StoredIssue>): (r: seq<StoredIssue>)
    ensures |r| == |rows| + 1
    ensures multiset(r) == multiset(rows) + multiset{x}
    decreases |rows|
  {
    if |rows| == 0 || rows[0].confidence <= x.confidence then [x] + rows
    else
      assert rows == [rows[0]] + rows[1..];
      [rows[0]] + InsertByConfidence(x, rows[1..])
  }

  /** Insertion keeps the order non-increasing. */
  lemma {:induction false} InsertKeepsOrder(x: StoredIssue, rows: seq<StoredIssue>)
    requires NonIncreasing(rows)
    ensures NonIncreasing(InsertByConfidence(x, rows))
    decreases |rows|
  {
    if |rows| > 0 && rows[0].confidence > x.confidence {
      InsertKeepsOrder(x, rows[1..]);
      var t := InsertByConfidence(x, rows[1..]);
      forall j | 0 <= j < |t|
        ensures t[j].confidence <= rows[0].confidence
      {
        assert t[j] in multiset(t);
        if t[j] != x {
          assert t[j] in multiset(rows[1..]);
          var k :| 0 <= k < |rows[1..]| && rows[1..][k] == t[j];
          assert rows[k + 1] == t[j];
        }
      }
      var r := [rows[0]] + t;
      forall i, j | 0 <= i < j < |r|
        ensures r[i].confidence >= r[j].confidence
      {
        if i > 0 {
          assert r[i] == t[i - 1] && r[j] == t[j - 1];
        } else {
          assert r[j] == t[j - 1];
        }
      }
    }
  }

  /** `sorted(issues, key=confidence, reverse=True)`: non-increasing confidence, the same rows. */
  function SortByConfidence(rows: seq<StoredIssue>): (r: seq<StoredIssue>)
    ensures |r| == |rows|
    ensures multiset(r) == multiset(rows)
    decreases |rows|
  {
    if |rows| == 0 then []
    else
      assert rows == [rows[0]] + rows[1..];
      InsertByConfidence(rows[0], SortByConfidence(rows[1..]))
  }

  /** Sorting orders the rows by non-increasing confidence. */
  lemma {:induction false} SortByConfidenceOrders(rows: seq<StoredIssue>)
    ensures NonIncreasing(SortByConfidence(rows))
    decreases |rows|
  {
    if |rows| > 0 {
      SortByConfidenceOrders(rows[1..]);
      InsertKeepsOrder(rows[0], SortByConfidence(rows[1..]));
    }
  }

  /** `get_top_issues_by_confidence`: the sorted rows cut with `[:limit]`. */
  function TopIssuesByConfidence(rows: seq<StoredIssue>, limit: int): (r: seq<StoredIssue>)
    ensures limit >= 0 ==> |r| <= limit
    ensures |r| <= |rows|
  {
    PySlice(SortByConfidence(rows), 0, limit)
  }

  /** The ranking is the first `limit` rows (Python's reading of a negative limit) of the sorted rows. */
  lemma TopIssuesPrefix(rows: seq<StoredIssue>, limit: int)
    ensures var r := TopIssuesByConfidence(rows, limit);
      && r == SortByConfidence(rows)[..SliceBound(limit, |rows|)]
      && (limit >= 0 ==> |r| == if limit <= |rows| then limit else |rows|)
  {
  }

  /** The ranking is ordered by non-increasing confidence. */
  lemma TopIssuesOrdered(rows: seq<StoredIssue>, limit: int)
    ensures NonIncreasing(TopIssuesByConfidence(rows, limit))
  {
    SortByConfidenceOrders(rows);
    TopIssuesPrefix(rows, limit);
  }

  /** In a non-increasing list, a row past position `b` ranks no higher than one before it. */
  lemma OmittedRowIsLater(s: seq<StoredIssue>, b: nat, x: StoredIssue, y: StoredIssue)
    requires NonIncreasing(s) && b <= |s|
    requires x in s[..b] && y in multiset(s) - multiset(s[..b])
    ensures y.confidence <= x.confidence
  {
    assert s == s[..b] + s[b..];
    assert y in multiset(s[b..]);
    var i :| 0 <= i < b && s[..b][i] == x;
    var j :| 0 <= j < |s[b..]| && s[b..][j] == y;
    assert s[i] == x && s[b + j] == y;
  }

  /** A prefix holds part of the list's rows. */
  lemma PrefixMultiset(s: seq<StoredIssue>, b: nat)
    requires b <= |s|
    ensures multiset(s[..b]) <= multiset(s)
  {
    assert s == s[..b] + s[b..];
  }

  /**
   * The ranking holds stored rows only, and every row it leaves out has a
   * confidence no higher than any row it returns.
   */
  lemma TopIssuesAreTop(rows: seq<StoredIssue>, limit: int)
    ensures multiset(TopIssuesByConfidence(rows, limit)) <= multiset(rows)
    ensures forall x, y | x in TopIssuesByConfidence(rows, limit)
                       && y in multiset(rows) - multiset(TopIssuesByConfidence(rows, limit)) ::
      y.confidence <= x.confidence
  {
    var s := SortByConfidence(rows);
    var r := TopIssuesByConfidence(rows, limit);
    var b := SliceBound(limit, |rows|);
    TopIssuesPrefix(rows, limit);
    SortByConfidenceOrders(rows);
    PrefixMultiset(s, b);
    forall x, y | x in r && y in multiset(rows) - multiset(r)
      ensures y.confidence <= x.confidence
    {
      OmittedRowIsLater(s, b, x, y);
    }
  }
}
