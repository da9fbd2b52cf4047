/**
 * The response wrapper (`IssueService.process_news_pipeline_with_response`):
 * it runs the pipeline and turns its dictionary into an `IssueResponse`.
 * Whether the pipeline call returned or raised is the input `PipelineCall`.
 */
module IssueService {
  import opened Outcomes
  import opened News
  import opened NewsPipeline
  import opened IssueSchema

  /** What awaiting the pipeline produced: its dictionary, or an exception. */
  datatype PipelineCall = Completed(record: PipelineRecord) | Crashed(message: string)

  const FailurePrefix: string := "뉴스 파이프라인 처리 실패: "

  /** The response to a pipeline that returned; whatever the record's status, the response says "success". */
  function WrapRecord(record: PipelineRecord): (r: IssueResponse)
  {
    var built := NewIssueResponse(
      Passed("success"), Passed(record.message),
      Passed(record.totalCollected), Passed(record.afterKeywordFilter),
      Passed(record.afterDeduplication.GetOr(0)), Passed(record.afterClassification),
      Passed(record.finalSummaries),
      Passed(|record.companiesProcessed.GetOr([])|), Passed(record.results));
    built.value
  }

  /** The response when the pipeline call raised: status "error", every count 0, no results. */
  function ErrorResponse(message: string): (r: IssueResponse)
  {
    var built := NewIssueResponse(
      Passed("error"), Passed(FailurePrefix + message),
      Passed(0), Passed(0), Passed(0), Passed(0), Passed(0), Passed(0), Passed([]));
    built.value
  }

  /** `process_news_pipeline_with_response`. */
  function ProcessWithResponse(call: PipelineCall): (r: IssueResponse)
    ensures r.status == "success" <==> call.Completed?
    ensures r.status == "error" <==> call.Crashed?
  {
    match call
    case Completed(record) => WrapRecord(record)
    case Crashed(message) => ErrorResponse(message)
  }

  /**
   * A returned record is copied field by field: message, counts and results
   * as they are, a missing deduplication count as 0, and the company list
   * as its length (0 when the key is missing).
   */
  lemma WrapRecordCopies(record: PipelineRecord)
    ensures var r := ProcessWithResponse(Completed(record));
      && r.status == "success" && r.message == record.message
      && r.totalCollected == record.totalCollected && r.afterKeywordFilter == record.afterKeywordFilter
      && r.afterDeduplication == (if record.afterDeduplication.Some? then record.afterDeduplication.value else 0)
      && r.afterClassification == record.afterClassification && r.finalSummaries == record.finalSummaries
      && r.companiesProcessed == (if record.companiesProcessed.Some? then |record.companiesProcessed.value| else 0)
      && r.results == record.results
  {
  }

  /** A raised call gives an error response with every count 0 and no results. */
  lemma RaisedCallReported(message: string)
    ensures var r := ProcessWithResponse(Crashed(message));
      && r.status == "error" && r.message == FailurePrefix + message
      && r.totalCollected == 0 && r.afterKeywordFilter == 0 && r.afterDeduplication == 0
      && r.afterClassification == 0 && r.finalSummaries == 0 && r.companiesProcessed == 0
      && r.results == []
  {
  }

  /**
   * Wrapping the pipeline's own record: even a run that failed inside is
   * reported as "success" (its message still carries the error), the
   * company count is the number of companies only after a complete run,
   * and the summary count always matches the results.
   */
  lemma PipelineResponse(
    companies: seq<string>, naver: NaverNews.NaverRequest -> NaverNews.NaverOutcome,
    ratio: (string, string) -> SimilarTitles.Score,
    classifier: seq<string> -> Classifier.ClassifierOutcome,
    summarizer: (nat, Summary.SummaryRequest) -> Summary.SummaryOutcome,
    ids: nat -> string, today: PubDate.DateStamp, fault: Option<Fault>)
    ensures var record := ProcessNewsPipeline(companies, naver, ratio, classifier, summarizer, ids, today, fault);
      var r := ProcessWithResponse(Completed(record));
      && r.status == "success"
      && (fault.Some? && record.status == "error" ==> r.message == ErrorPrefix + fault.value.message)
      && r.companiesProcessed == (if record.message == DoneMessage then |companies| else 0)
      && r.finalSummaries == |r.results|
  {
    var record := ProcessNewsPipeline(companies, naver, ratio, classifier, summarizer, ids, today, fault);
    PipelineExitMessages(companies, naver, ratio, classifier, summarizer, ids, today, fault);
    assert DoneMessage != NoNewsMessage && DoneMessage != NoKeywordMessage && DoneMessage != NoDedupMessage
        && DoneMessage != NoClassifiedMessage;
  }
}
