/**
 * The pipeline endpoint's controller (`IssueController.process_news_pipeline`):
 * it picks the companies, has the service run the pipeline, and saves the
 * results that carry a summary. The company registry (`COMPANY_NAMES`), the
 * pipeline call and the database are inputs; the controller's answer is the
 * service's response whatever happens to the save.
 */
module IssueController {
  import opened Outcomes
  import opened News
  import opened IssueSchema
  import opened IssueService
  import NewsPipeline
  import PubDate
  import NaverNews
  import SimilarTitles
  import Classifier
  import Summary

  /** The database behind the controller: none configured, or a session whose bulk insert succeeds or raises. */
  datatype DbSession = NoSession | Session(insertSucceeds: bool)

  /** What became of the save. */
  datatype SaveOutcome =
    | Skipped                          // no session, or no results
    | NothingToSave                    // no result had a summary
    | Saved(items: seq<IssueItemCreate>)
    | SaveFailed(message: string)      // building an item or inserting raised; the whole save is abandoned

  /** `None` or an empty list means every registered company. */
  function TargetCompanies(companies: Option<seq<string>>, registry: seq<string>): (r: seq<string>)
    ensures companies.None? || companies.value == [] ==> r == registry
    ensures companies.Some? && companies.value != [] ==> r == companies.value
  {
    if companies.None? || companies.value == [] then registry else companies.value
  }

  /** The item to store for one result; it fails when the confidence is missing or outside [0, 1]. */
  function ToIssueCreate(result: SummaryResult): (r: Result<IssueItemCreate>)
    ensures r.Success? <==> result.confidence.Some? && UnitInterval(result.confidence.value)
    ensures r.Success? ==>
      && r.value.corp == result.corp && r.value.summary == result.summary
      && r.value.originalTitle == result.originalTitle && r.value.confidence == result.confidence.value
      && r.value.matchedKeywords == Some(result.matchedKeywords)
      && r.value.newsUrl == Some(result.newsUrl) && r.value.publishedDate == Some(result.publishedDate)
      && r.value.category == Some(result.category) && r.value.sentiment == Some(result.sentiment)
  {
    NewIssueCreateFrom(result)
  }

  function NewIssueCreateFrom(result: SummaryResult): Result<IssueItemCreate> {
    NewIssueItemCreate(
      result.corp, result.summary, result.originalTitle, result.confidence,
      Passed(Some(result.matchedKeywords)), Passed(Some(result.newsUrl)), Passed(Some(result.publishedDate)),
      Passed(Some(result.category)), Passed(Some(result.sentiment)))
  }

  /**
   * The items for the results that carry a summary, in order; the first
   * result whose item cannot be built makes the whole batch fail.
   */
  function BuildCreates(results: seq<SummaryResult>): (r: Result<seq<IssueItemCreate>>)
    ensures r.Success? ==> |r.value| <= |results|
    decreases |results|
  {
    if |results| == 0 then Success([])
    else
      var rest := BuildCreates(results[..|results| - 1]);
      var last := results[|results| - 1];
      if rest.Failure? || last.summary == "" then rest
      else
        var item := ToIssueCreate(last);
        if item.Failure? then Failure(item.error) else Success(rest.value + [item.value])
  }

  /** The results with a summary, the ones the controller stores. */
  function WithSummary(results: seq<SummaryResult>): (r: seq<SummaryResult>)
    ensures |r| <= |results|
    decreases |results|
  {
    if |results| == 0 then []
    else
      var last := results[|results| - 1];
      WithSummary(results[..|results| - 1]) + (if last.summary != "" then [last] else [])
  }

  /** Every result can be turned into an item to store. */
  predicate AllStorable(results: seq<SummaryResult>) {
    forall k | 0 <= k < |results| :: ToIssueCreate(results[k]).Success?
  }

  /**
   * Building succeeds exactly when every result with a summary has a valid
   * confidence, and then yields one item per such result, in order.
   */
  lemma {:induction false} BuildCreatesSpec(results: seq<SummaryResult>)
    ensures BuildCreates(results).Success? <==> AllStorable(WithSummary(results))
    ensures BuildCreates(results).Success? ==> |BuildCreates(results).value| == |WithSummary(results)|
    ensures BuildCreates(results).Success? ==>
      forall k | 0 <= k < |WithSummary(results)| ::
        BuildCreates(results).value[k] == ToIssueCreate(WithSummary(results)[k]).value
    decreases |results|
  {
    if |results| > 0 {
      var n := |results| - 1;
      BuildCreatesSpec(results[..n]);
      var kept0 := WithSummary(results[..n]);
      var kept := WithSummary(results);
      var last := results[n];
      if last.summary == "" {
        assert kept == kept0;
      } else {
        assert kept == kept0 + [last];
        assert forall k | 0 <= k < |kept0| :: kept[k] == kept0[k];
        assert kept[|kept0|] == last;
      }
    }
  }

  /** The save step: only with a session and some results; nothing is inserted when no result has a summary. */
  function SaveResults(db: DbSession, results: seq<SummaryResult>): (s: SaveOutcome)
    ensures s.Skipped? <==> db.NoSession? || results == []
    ensures s.Saved? ==> |s.items| > 0 && |s.items| <= |results|
  {
    if db.NoSession? || results == [] then Skipped
    else
      match BuildCreates(results)
      case Failure(e) => SaveFailed(e)
      case Success(items) =>
        if items == [] then NothingToSave
        else if db.insertSucceeds then Saved(items)
        else SaveFailed("bulk insert failed")
  }

  /** `process_news_pipeline` of the controller: the service's response and what became of the save. */
  function ProcessNewsPipeline(
    companies: Option<seq<string>>, registry: seq<string>, pipeline: seq<string> -> PipelineCall,
    db: DbSession): (out: (IssueResponse, SaveOutcome))
    ensures out.0 == ProcessWithResponse(pipeline(TargetCompanies(companies, registry)))
  {
    var response := ProcessWithResponse(pipeline(TargetCompanies(companies, registry)));
    (response, SaveResults(db, response.results))
  }

  /** The response does not depend on the database: with or without a session, whether the insert succeeds or not. */
  lemma ResponseIgnoresDatabase(
    companies: Option<seq<string>>, registry: seq<string>, pipeline: seq<string> -> PipelineCall,
    db1: DbSession, db2: DbSession)
    ensures ProcessNewsPipeline(companies, registry, pipeline, db1).0
         == ProcessNewsPipeline(companies, registry, pipeline, db2).0
  {
  }

  /**
   * What is stored after a successful insert: one item per result with a
   * summary, in order, carrying that result's fields.
   */
  lemma SavedItemsMatchResults(
    companies: Option<seq<string>>, registry: seq<string>, pipeline: seq<string> -> PipelineCall, db: DbSession)
    ensures var out := ProcessNewsPipeline(companies, registry, pipeline, db);
      var kept := WithSummary(out.0.results);
      out.1.Saved? ==>
        && |out.1.items| == |kept|
        && forall k | 0 <= k < |kept| ::
             out.1.items[k].corp == kept[k].corp && out.1.items[k].summary == kept[k].summary
             && out.1.items[k].originalTitle == kept[k].originalTitle
             && Some(out.1.items[k].confidence) == kept[k].confidence
  {
    var out := ProcessNewsPipeline(companies, registry, pipeline, db);
    BuildCreatesSpec(out.0.results);
  }

  /** Every result of the pipeline has a summary, so none is left out of the save. */
  lemma {:induction false} AllSummarized(results: seq<SummaryResult>)
    requires forall k | 0 <= k < |results| :: results[k].summary != ""
    ensures WithSummary(results) == results
    decreases |results|
  {
    if |results| > 0 {
      var n := |results| - 1;
      AllSummarized(results[..n]);
      assert results[..n] + [results[n]] == results;
    }
  }

  /** A result whose confidence is above 1 (or missing) makes the whole save fail. */
  lemma {:induction false} OneBadConfidenceFailsAll(results: seq<SummaryResult>, k: nat)
    requires k < |results| && results[k].summary != ""
    requires results[k].confidence.None? || !UnitInterval(results[k].confidence.value)
    ensures BuildCreates(results).Failure?
  {
    BuildCreatesSpec(results);
    var kept := WithSummary(results);
    WithSummaryMembership(results, results[k]);
    var j :| 0 <= j < |kept| && kept[j] == results[k];
  }

  /** A result is kept exactly when it is one of the inputs and carries a summary. */
  lemma {:induction false} WithSummaryMembership(results: seq<SummaryResult>, x: SummaryResult)
    ensures x in WithSummary(results) <==> x in results && x.summary != ""
    decreases |results|
  {
    if |results| > 0 {
      var n := |results| - 1;
      WithSummaryMembership(results[..n], x);
      assert results == results[..n] + [results[n]];
    }
  }

  /**
   * Behind the real pipeline no result is passed over: every one carries a
   * summary, so the save covers all of them.
   */
  lemma PipelineResultsAllSelected(
    companies: seq<string>, naver: NaverNews.NaverRequest -> NaverNews.NaverOutcome,
    ratio: (string, string) -> SimilarTitles.Score,
    classifier: seq<string> -> Classifier.ClassifierOutcome,
    summarizer: (nat, Summary.SummaryRequest) -> Summary.SummaryOutcome,
    ids: nat -> string, today: PubDate.DateStamp, fault: Option<NewsPipeline.Fault>)
    ensures var record := NewsPipeline.ProcessNewsPipeline(companies, naver, ratio, classifier, summarizer, ids, today, fault);
      WithSummary(ProcessWithResponse(Completed(record)).results) == record.results
  {
    var record := NewsPipeline.ProcessNewsPipeline(companies, naver, ratio, classifier, summarizer, ids, today, fault);
    NewsPipeline.ResultsHaveSummaries(companies, naver, ratio, classifier, summarizer, ids, today, fault);
    AllSummarized(record.results);
  }
}
