/**
 * The request and response schemas (`issue_schema`) as validators: each
 * constructor takes its keyword arguments, fills in the declared defaults
 * and either yields the record or fails the way a validation error does.
 * An argument that is not passed is `Omitted`; one that is passed may still
 * be `None` where the field is optional.
 */
module IssueSchema {
  import opened Outcomes
  import opened News

  /** A keyword argument: left out of the call, or passed with a value. */
  datatype Arg<+T> = Omitted | Passed(value: T)

  /** The value of an argument, or the field's default when it was left out. */
  function ArgOr<T>(a: Arg<T>, default: T): (v: T)
    ensures a.Passed? ==> v == a.value
    ensures a.Omitted? ==> v == default
  {
    if a.Passed? then a.value else default
  }

  /** Confidence fields are bounded by `ge=0.0, le=1.0`. */
  predicate UnitInterval(x: real) {
    0.0 <= x <= 1.0
  }

  const DefaultCategory: string := "일반"
  const DefaultSentiment: string := "neutral"

  /** `IssueItemCreate` (with the fields of `IssueItemBase`). */
  datatype IssueItemCreate = IssueItemCreate(
    corp: string,
    summary: string,
    originalTitle: string,
    confidence: real,
    matchedKeywords: Option<seq<string>>,
    newsUrl: Option<string>,
    publishedDate: Option<string>,
    category: Option<string>,
    sentiment: Option<string>)

  /**
   * Validating an `IssueItemCreate`: the confidence is required and must be a
   * number in [0, 1] (a `None` is rejected); category and sentiment default
   * to "일반" and "neutral", the other optional fields to `None`.
   */
  function NewIssueItemCreate(
    corp: string, summary: string, originalTitle: string, confidence: Option<real>,
    matchedKeywords: Arg<Option<seq<string>>>, newsUrl: Arg<Option<string>>,
    publishedDate: Arg<Option<string>>, category: Arg<Option<string>>,
    sentiment: Arg<Option<string>>): (r: Result<IssueItemCreate>)
    ensures r.Success? <==> confidence.Some? && UnitInterval(confidence.value)
    ensures r.Success? ==>
      && r.value.corp == corp && r.value.summary == summary && r.value.originalTitle == originalTitle
      && r.value.confidence == confidence.value
      && r.value.matchedKeywords == ArgOr(matchedKeywords, None)
      && r.value.newsUrl == ArgOr(newsUrl, None) && r.value.publishedDate == ArgOr(publishedDate, None)
      && r.value.category == ArgOr(category, Some(DefaultCategory))
      && r.value.sentiment == ArgOr(sentiment, Some(DefaultSentiment))
  {
    if confidence.None? then Failure("confidence: Input should be a valid number")
    else if !UnitInterval(confidence.value) then Failure("confidence: Input should be between 0 and 1")
    else Success(IssueItemCreate(
      corp, summary, originalTitle, confidence.value,
      ArgOr(matchedKeywords, None), ArgOr(newsUrl, None), ArgOr(publishedDate, None),
      ArgOr(category, Some(DefaultCategory)), ArgOr(sentiment, Some(DefaultSentiment))))
  }

  /** `IssueItemUpdate`: every field optional; a confidence, when given, is still bounded. */
  datatype IssueItemUpdate = IssueItemUpdate(
    corp: Option<string>,
    summary: Option<string>,
    originalTitle: Option<string>,
    confidence: Option<real>,
    matchedKeywords: Option<seq<string>>,
    newsUrl: Option<string>,
    publishedDate: Option<string>,
    category: Option<string>,
    sentiment: Option<string>)

  function NewIssueItemUpdate(u: IssueItemUpdate): (r: Result<IssueItemUpdate>)
    ensures r.Success? <==> u.confidence.None? || UnitInterval(u.confidence.value)
    ensures r.Success? ==> r.value == u
  {
    if u.confidence.Some? && !UnitInterval(u.confidence.value)
    then Failure("confidence: Input should be between 0 and 1")
    else Success(u)
  }

  /** `PipelineStats`: six required counts. */
  datatype PipelineStats = PipelineStats(
    totalCollected: int,
    afterKeywordFilter: int,
    afterDeduplication: int,
    afterClassification: int,
    finalSummaries: int,
    companiesProcessed: int)

  /** Validating `PipelineStats`: it fails exactly when one of the six counts is left out. */
  function NewPipelineStats(
    totalCollected: Arg<int>, afterKeywordFilter: Arg<int>, afterDeduplication: Arg<int>,
    afterClassification: Arg<int>, finalSummaries: Arg<int>, companiesProcessed: Arg<int>): (r: Result<PipelineStats>)
    ensures r.Success? <==>
      && totalCollected.Passed? && afterKeywordFilter.Passed? && afterDeduplication.Passed?
      && afterClassification.Passed? && finalSummaries.Passed? && companiesProcessed.Passed?
    ensures r.Success? ==> r.value == PipelineStats(
      totalCollected.value, afterKeywordFilter.value, afterDeduplication.value,
      afterClassification.value, finalSummaries.value, companiesProcessed.value)
  {
    if totalCollected.Omitted? then Failure("total_collected: Field required")
    else if afterKeywordFilter.Omitted? then Failure("after_keyword_filter: Field required")
    else if afterDeduplication.Omitted? then Failure("after_deduplication: Field required")
    else if afterClassification.Omitted? then Failure("after_classification: Field required")
    else if finalSummaries.Omitted? then Failure("final_summaries: Field required")
    else if companiesProcessed.Omitted? then Failure("companies_processed: Field required")
    else Success(PipelineStats(
      totalCollected.value, afterKeywordFilter.value, afterDeduplication.value,
      afterClassification.value, finalSummaries.value, companiesProcessed.value))
  }

  /** `IssueResponse`: the answer of a pipeline run. */
  datatype IssueResponse = IssueResponse(
    status: string,
    message: string,
    totalCollected: int,
    afterKeywordFilter: int,
    afterDeduplication: int,
    afterClassification: int,
    finalSummaries: int,
    companiesProcessed: int,
    results: seq<SummaryResult>)

  /** Validating `IssueResponse`: every one of its nine fields is required. */
  function NewIssueResponse(
    status: Arg<string>, message: Arg<string>, totalCollected: Arg<int>, afterKeywordFilter: Arg<int>,
    afterDeduplication: Arg<int>, afterClassification: Arg<int>, finalSummaries: Arg<int>,
    companiesProcessed: Arg<int>, results: Arg<seq<SummaryResult>>): (r: Result<IssueResponse>)
    ensures r.Success? <==>
      && status.Passed? && message.Passed? && totalCollected.Passed? && afterKeywordFilter.Passed?
      && afterDeduplication.Passed? && afterClassification.Passed? && finalSummaries.Passed?
      && companiesProcessed.Passed? && results.Passed?
    ensures r.Success? ==> r.value == IssueResponse(
      status.value, message.value, totalCollected.value, afterKeywordFilter.value,
      afterDeduplication.value, afterClassification.value, finalSummaries.value,
      companiesProcessed.value, results.value)
  {
    if status.Omitted? || message.Omitted? || totalCollected.Omitted? || afterKeywordFilter.Omitted?
       || afterDeduplication.Omitted? || afterClassification.Omitted? || finalSummaries.Omitted?
       || companiesProcessed.Omitted? || results.Omitted?
    then Failure("IssueResponse: Field required")
    else Success(IssueResponse(
      status.value, message.value, totalCollected.value, afterKeywordFilter.value,
      afterDeduplication.value, afterClassification.value, finalSummaries.value,
      companiesProcessed.value, results.value))
  }

  /** `IssueAnalysisRequest`: optional dates, companies and keywords; a bounded threshold defaulting to 0.7. */
  datatype IssueAnalysisRequest = IssueAnalysisRequest(
    startDate: Option<string>,
    endDate: Option<string>,
    companies: Option<seq<string>>,
    keywords: Option<seq<string>>,
    confidenceThreshold: real)

  const DefaultConfidenceThreshold: real := 0.7

  function NewIssueAnalysisRequest(
    startDate: Arg<Option<string>>, endDate: Arg<Option<string>>, companies: Arg<Option<seq<string>>>,
    keywords: Arg<Option<seq<string>>>, confidenceThreshold: Arg<real>): (r: Result<IssueAnalysisRequest>)
    ensures r.Success? <==> UnitInterval(ArgOr(confidenceThreshold, DefaultConfidenceThreshold))
    ensures r.Success? ==>
      && r.value.companies == ArgOr(companies, None)
      && r.value.confidenceThreshold == ArgOr(confidenceThreshold, DefaultConfidenceThreshold)
      && r.value.startDate == ArgOr(startDate, None) && r.value.endDate == ArgOr(endDate, None)
      && r.value.keywords == ArgOr(keywords, None)
  {
    var threshold := ArgOr(confidenceThreshold, DefaultConfidenceThreshold);
    if !UnitInterval(threshold) then Failure("confidence_threshold: Input should be between 0 and 1")
    else Success(IssueAnalysisRequest(
      ArgOr(startDate, None), ArgOr(endDate, None), ArgOr(companies, None), ArgOr(keywords, None), threshold))
  }

  /** `IssueSearchRequest`: optional filters and a page window. */
  datatype IssueSearchRequest = IssueSearchRequest(
    corp: Option<string>,
    keyword: Option<string>,
    sentiment: Option<string>,
    minConfidence: Option<real>,
    startDate: Option<string>,
    endDate: Option<string>,
    page: int,
    pageSize: int)

  const DefaultPage: int := 1
  const DefaultPageSize: int := 20
  const MaxPageSize: int := 100

  /** The bounds of a search request: page at least 1, page size in [1, 100], a minimum confidence in [0, 1]. */
  predicate ValidSearch(q: IssueSearchRequest) {
    && q.page >= 1
    && 1 <= q.pageSize <= MaxPageSize
    && (q.minConfidence.None? || UnitInterval(q.minConfidence.value))
  }

  function NewIssueSearchRequest(
    corp: Option<string>, keyword: Option<string>, sentiment: Option<string>, minConfidence: Option<real>,
    startDate: Option<string>, endDate: Option<string>, page: Arg<int>, pageSize: Arg<int>): (r: Result<IssueSearchRequest>)
    ensures r.Success? <==>
      && ArgOr(page, DefaultPage) >= 1
      && 1 <= ArgOr(pageSize, DefaultPageSize) <= 100
      && (minConfidence.None? || 0.0 <= minConfidence.value <= 1.0)
    ensures r.Success? ==>
      && ValidSearch(r.value)
      && r.value.page == ArgOr(page, 1) && r.value.pageSize == ArgOr(pageSize, 20)
      && r.value.corp == corp && r.value.keyword == keyword && r.value.sentiment == sentiment
      && r.value.minConfidence == minConfidence && r.value.startDate == startDate && r.value.endDate == endDate
  {
    var q := IssueSearchRequest(corp, keyword, sentiment, minConfidence, startDate, endDate,
                                ArgOr(page, DefaultPage), ArgOr(pageSize, DefaultPageSize));
    if ValidSearch(q) then Success(q) else Failure("IssueSearchRequest: Input should satisfy its bounds")
  }

  /** Left to their defaults, the search fields make a valid request for the first page of 20. */
  lemma DefaultSearchIsValid()
    ensures NewIssueSearchRequest(None, None, None, None, None, None, Omitted, Omitted)
         == Success(IssueSearchRequest(None, None, None, None, None, None, 1, 20))
  {
  }
}
