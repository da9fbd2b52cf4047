/**
 * The pipeline orchestration (`process_news_pipeline`): collect news for
 * every company, keep items whose title hits the lexicon, drop near-duplicate
 * titles, classify, summarize. Each stage that leaves nothing ends the run
 * with a success record naming the stage; an unanticipated exception ends
 * it with an error record. Every external service is a parameter, and so is
 * the exception: `fault` names the stage at which one is raised, if any.
 */
module NewsPipeline {
  import opened Outcomes
  import opened Seqs
  import opened News
  import opened NaverNews
  import opened KeywordFilter
  import opened SimilarTitles
  import opened Classifier
  import opened Summary
  import opened PubDate

  /** What one gathered collection task produced: its list, or the exception it raised. */
  datatype TaskResult = Fetched(items: seq<NewsItem>) | Raised(message: string)

  /** The stages in the order the pipeline runs them. */
  datatype Stage = Collect | KeywordStage | Deduplicate | Classify | Summarize

  /** An unanticipated exception raised while running `stage`. */
  datatype Fault = Fault(stage: Stage, message: string)

  /** The dictionary the pipeline returns; `afterDeduplication` and `companiesProcessed` are absent from some. */
  datatype PipelineRecord = PipelineRecord(
    status: string,
    message: string,
    totalCollected: nat,
    afterKeywordFilter: nat,
    afterDeduplication: Option<nat>,
    afterClassification: nat,
    finalSummaries: nat,
    companiesProcessed: Option<seq<string>>,
    results: seq<SummaryResult>)

  const NoNewsMessage: string := "수집된 뉴스가 없습니다."
  const NoKeywordMessage: string := "키워드 필터링을 통과한 뉴스가 없습니다."
  const NoDedupMessage: string := "유사 제목 제거 후 남은 뉴스가 없습니다."
  const NoClassifiedMessage: string := "AI 분류를 통과한 뉴스가 없습니다."
  const DoneMessage: string := "뉴스 파이프라인 처리 완료"
  const ErrorPrefix: string := "파이프라인 처리 중 오류 발생: "

  /** The lists of the tasks that returned one, concatenated in company order; exceptions are skipped. */
  function CollectNews(results: seq<TaskResult>): (all: seq<NewsItem>)
    decreases |results|
  {
    if |results| == 0 then []
    else
      var last := results[|results| - 1];
      CollectNews(results[..|results| - 1]) + (if last.Fetched? then last.items else [])
  }

  /** Collecting distributes over the split of the task list. */
  lemma {:induction false} CollectNewsAppend(a: seq<TaskResult>, b: seq<TaskResult>)
    ensures CollectNews(a + b) == CollectNews(a) + CollectNews(b)
    decreases |b|
  {
    if |b| == 0 {
      assert a + b == a;
    } else {
      var n := |b| - 1;
      CollectNewsAppend(a, b[..n]);
      assert (a + b)[..|a + b| - 1] == a + b[..n];
      assert (a + b)[|a + b| - 1] == b[n];
    }
  }

  /** An item is collected exactly when one of the returned lists holds it. */
  lemma {:induction false} CollectNewsMembership(results: seq<TaskResult>, x: NewsItem)
    ensures x in CollectNews(results) <==> exists i | 0 <= i < |results| :: results[i].Fetched? && x in results[i].items
    decreases |results|
  {
    if |results| > 0 {
      var n := |results| - 1;
      CollectNewsMembership(results[..n], x);
      assert forall i | 0 <= i < n :: results[..n][i] == results[i];
    }
  }

  /** When no task returned any news, nothing is collected. */
  lemma {:induction false} CollectNewsEmpty(results: seq<TaskResult>)
    requires forall i | 0 <= i < |results| && results[i].Fetched? :: results[i].items == []
    ensures CollectNews(results) == []
    decreases |results|
  {
    if |results| > 0 {
      CollectNewsEmpty(results[..|results| - 1]);
    }
  }

  /** Every gathered task for the companies; the adapter itself never raises. */
  function GatherNews(companies: seq<string>, naver: NaverRequest -> NaverOutcome): (rs: seq<TaskResult>)
    ensures |rs| == |companies|
    ensures forall i | 0 <= i < |companies| :: rs[i] == Fetched(FetchNewsForCompany(companies[i], DefaultDisplay, naver))
  {
    seq(|companies|, i requires 0 <= i < |companies| => Fetched(FetchNewsForCompany(companies[i], DefaultDisplay, naver)))
  }

  /** The record of a run that ended early with nothing left; the counts of later stages are 0. */
  function EarlyExit(message: string, collected: nat, keyword: nat, dedup: Option<nat>): (r: PipelineRecord)
    ensures r.status == "success" && r.message == message && r.results == []
    ensures r.afterClassification == 0 && r.finalSummaries == 0 && r.companiesProcessed.None?
  {
    PipelineRecord("success", message, collected, keyword, dedup, 0, 0, None, [])
  }

  /** The record of the catch-all: every count 0, the exception's text in the message. */
  function ErrorRecord(message: string): (r: PipelineRecord)
    ensures r.status == "error" && r.message == ErrorPrefix + message && r.results == []
    ensures r.totalCollected == 0 && r.afterKeywordFilter == 0 && r.afterDeduplication == Some(0)
    ensures r.afterClassification == 0 && r.finalSummaries == 0 && r.companiesProcessed.None?
  {
    PipelineRecord("error", ErrorPrefix + message, 0, 0, Some(0), 0, 0, None, [])
  }

  predicate FaultAt(fault: Option<Fault>, stage: Stage) {
    fault.Some? && fault.value.stage == stage
  }

  /** The list each stage produces, every stage run on the previous one's list. */
  datatype Stages = Stages(
    all: seq<NewsItem>,
    filtered: seq<NewsItem>,
    deduped: seq<NewsItem>,
    classified: seq<NewsItem>,
    results: seq<SummaryResult>)

  /** The stages of a run; which of them the run reaches is decided by `Assemble`. */
  function RunStages(
    companies: seq<string>,
    naver: NaverRequest -> NaverOutcome,
    ratio: (string, string) -> Score,
    classifier: seq<string> -> ClassifierOutcome,
    summarizer: (nat, SummaryRequest) -> SummaryOutcome,
    ids: nat -> string,
    today: DateStamp): (st: Stages)
    ensures st.all == CollectNews(GatherNews(companies, naver))
  {
    var all := CollectNews(GatherNews(companies, naver));
    var filtered := FilterByKeywords(all);
    var deduped := RemoveSimilarTitles(filtered, ratio);
    var classified := ClassifyNews(deduped, classifier);
    Stages(all, filtered, deduped, classified, SummarizeNews(classified, summarizer, ids, today))
  }

  /**
   * The record of a run, given its stages: the first stage that raises or
   * leaves nothing ends the run; a run through every stage reports them all.
   */
  function Assemble(companies: seq<string>, st: Stages, fault: Option<Fault>): (r: PipelineRecord)
    ensures r.finalSummaries == |r.results|
  {
    if FaultAt(fault, Collect) then ErrorRecord(fault.value.message)
    else if |st.all| == 0 then EarlyExit(NoNewsMessage, 0, 0, None)
    else if FaultAt(fault, KeywordStage) then ErrorRecord(fault.value.message)
    else if |st.filtered| == 0 then EarlyExit(NoKeywordMessage, |st.all|, 0, Some(0))
    else if FaultAt(fault, Deduplicate) then ErrorRecord(fault.value.message)
    else if |st.deduped| == 0 then EarlyExit(NoDedupMessage, |st.all|, |st.filtered|, Some(0))
    else if FaultAt(fault, Classify) then ErrorRecord(fault.value.message)
    else if |st.classified| == 0 then EarlyExit(NoClassifiedMessage, |st.all|, |st.filtered|, Some(|st.deduped|))
    else if FaultAt(fault, Summarize) then ErrorRecord(fault.value.message)
    else PipelineRecord("success", DoneMessage, |st.all|, |st.filtered|, Some(|st.deduped|),
                        |st.classified|, |st.results|, Some(companies), st.results)
  }

  /** `process_news_pipeline`. */
  function ProcessNewsPipeline(
    companies: seq<string>,
    naver: NaverRequest -> NaverOutcome,
    ratio: (string, string) -> Score,
    classifier: seq<string> -> ClassifierOutcome,
    summarizer: (nat, SummaryRequest) -> SummaryOutcome,
    ids: nat -> string,
    today: DateStamp,
    fault: Option<Fault>): (r: PipelineRecord)
    ensures r.finalSummaries == |r.results|
  {
    Assemble(companies, RunStages(companies, naver, ratio, classifier, summarizer, ids, today), fault)
  }

  /** Deduplication never keeps more items than it is given. */
  lemma RemoveSimilarTitlesShrinks(news: seq<NewsItem>, ratio: (string, string) -> Score)
    ensures |RemoveSimilarTitles(news, ratio)| <= |news|
  {
    RemoveSimilarTitlesSubseq(news, ratio);
    SubseqLength(RemoveSimilarTitles(news, ratio), news);
  }

  /** No stage lengthens its list, and there is one summary per classified item. */
  predicate Shrinking(st: Stages) {
    |st.filtered| <= |st.all| && |st.deduped| <= |st.filtered| && |st.classified| <= |st.deduped|
    && |st.results| == |st.classified|
  }

  /** No stage lengthens its list, and the summaries match the classified items one to one. */
  lemma StagesShrink(
    companies: seq<string>, naver: NaverRequest -> NaverOutcome, ratio: (string, string) -> Score,
    classifier: seq<string> -> ClassifierOutcome, summarizer: (nat, SummaryRequest) -> SummaryOutcome,
    ids: nat -> string, today: DateStamp)
    ensures Shrinking(RunStages(companies, naver, ratio, classifier, summarizer, ids, today))
  {
    var st := RunStages(companies, naver, ratio, classifier, summarizer, ids, today);
    RemoveSimilarTitlesShrinks(st.filtered, ratio);
  }

  /** With shrinking stages, the counts of a successful record never grow. */
  lemma AssembleCounts(companies: seq<string>, st: Stages, fault: Option<Fault>)
    requires Shrinking(st)
    ensures var r := Assemble(companies, st, fault);
      r.status == "success" ==>
        && r.afterKeywordFilter <= r.totalCollected
        && r.afterDeduplication.GetOr(0) <= r.afterKeywordFilter
        && r.afterClassification <= r.afterDeduplication.GetOr(0)
        && r.finalSummaries == r.afterClassification
  {
  }

  /**
   * The counts of a successful record never grow from one stage to the next,
   * and a run that reaches the summaries has one per classified item.
   */
  lemma PipelineCountsShrink(
    companies: seq<string>, naver: NaverRequest -> NaverOutcome, ratio: (string, string) -> Score,
    classifier: seq<string> -> ClassifierOutcome, summarizer: (nat, SummaryRequest) -> SummaryOutcome,
    ids: nat -> string, today: DateStamp, fault: Option<Fault>)
    ensures var r := ProcessNewsPipeline(companies, naver, ratio, classifier, summarizer, ids, today, fault);
      r.status == "success" ==>
        && r.afterKeywordFilter <= r.totalCollected
        && r.afterDeduplication.GetOr(0) <= r.afterKeywordFilter
        && r.afterClassification <= r.afterDeduplication.GetOr(0)
        && r.finalSummaries == r.afterClassification
  {
    StagesShrink(companies, naver, ratio, classifier, summarizer, ids, today);
    AssembleCounts(companies, RunStages(companies, naver, ratio, classifier, summarizer, ids, today), fault);
  }

  /** Which record ends a run, read off its status and message. */
  lemma AssembleExits(companies: seq<string>, st: Stages, fault: Option<Fault>)
    requires |st.results| == |st.classified|
    ensures var r := Assemble(companies, st, fault);
      && (r.status == "success" || r.status == "error")
      && (r.status == "error" ==> fault.Some? && r.message == ErrorPrefix + fault.value.message && r.results == []
                                  && r.totalCollected == 0 && r.afterKeywordFilter == 0 && r.afterDeduplication == Some(0)
                                  && r.afterClassification == 0 && r.finalSummaries == 0 && r.companiesProcessed.None?)
      && (r.status == "success" && r.message != DoneMessage ==> r.results == [] && r.companiesProcessed.None?)
      && (r.message == DoneMessage ==> r.companiesProcessed == Some(companies) && |r.results| > 0)
      && (r.message == NoNewsMessage ==> r.totalCollected == 0 && r.afterDeduplication.None?)
  {
  }

  /** The record's message says where a successful run stopped, and only a complete run has results. */
  lemma PipelineExitMessages(
    companies: seq<string>, naver: NaverRequest -> NaverOutcome, ratio: (string, string) -> Score,
    classifier: seq<string> -> ClassifierOutcome, summarizer: (nat, SummaryRequest) -> SummaryOutcome,
    ids: nat -> string, today: DateStamp, fault: Option<Fault>)
    ensures var r := ProcessNewsPipeline(companies, naver, ratio, classifier, summarizer, ids, today, fault);
      && (r.status == "success" || r.status == "error")
      && (r.status == "error" ==> fault.Some? && r.message == ErrorPrefix + fault.value.message && r.results == []
                                  && r.totalCollected == 0 && r.afterKeywordFilter == 0 && r.afterDeduplication == Some(0)
                                  && r.afterClassification == 0 && r.finalSummaries == 0 && r.companiesProcessed.None?)
      && (r.status == "success" && r.message != DoneMessage ==> r.results == [] && r.companiesProcessed.None?)
      && (r.message == DoneMessage ==> r.companiesProcessed == Some(companies) && |r.results| > 0)
      && (r.message == NoNewsMessage ==> r.totalCollected == 0 && r.afterDeduplication.None?)
  {
    StagesShrink(companies, naver, ratio, classifier, summarizer, ids, today);
    AssembleExits(companies, RunStages(companies, naver, ratio, classifier, summarizer, ids, today), fault);
  }

  /**
   * The counts a successful record carries, by the stage it stopped at: the
   * stages that ran report their list lengths, and the later ones report 0.
   */
  predicate ExitCounts(st: Stages, r: PipelineRecord) {
    && (r.message == NoKeywordMessage ==>
          && r.totalCollected == |st.all| && r.afterKeywordFilter == 0 && r.afterDeduplication == Some(0)
          && r.afterClassification == 0 && r.finalSummaries == 0)
    && (r.message == NoDedupMessage ==>
          && r.totalCollected == |st.all| && r.afterKeywordFilter == |st.filtered| && r.afterDeduplication == Some(0)
          && r.afterClassification == 0 && r.finalSummaries == 0)
    && (r.message == NoClassifiedMessage ==>
          && r.totalCollected == |st.all| && r.afterKeywordFilter == |st.filtered|
          && r.afterDeduplication == Some(|st.deduped|) && r.afterClassification == 0 && r.finalSummaries == 0)
    && (r.message == DoneMessage ==>
          && r.totalCollected == |st.all| && r.afterKeywordFilter == |st.filtered|
          && r.afterDeduplication == Some(|st.deduped|) && r.afterClassification == |st.classified|
          && r.finalSummaries == |st.results|)
  }

  /** Each early exit of a successful record reports the lengths of the stages that ran. */
  lemma AssembleExitCounts(companies: seq<string>, st: Stages, fault: Option<Fault>)
    ensures var r := Assemble(companies, st, fault);
      r.status == "success" ==> ExitCounts(st, r)
  {
  }

  /**
   * A run that stops after keyword filtering, deduplication or classification
   * reports the lengths of the lists the stages before it produced, and 0 for
   * the stages after it; a complete run reports every length.
   */
  lemma PipelineExitCounts(
    companies: seq<string>, naver: NaverRequest -> NaverOutcome, ratio: (string, string) -> Score,
    classifier: seq<string> -> ClassifierOutcome, summarizer: (nat, SummaryRequest) -> SummaryOutcome,
    ids: nat -> string, today: DateStamp, fault: Option<Fault>)
    ensures var st := RunStages(companies, naver, ratio, classifier, summarizer, ids, today);
      var r := ProcessNewsPipeline(companies, naver, ratio, classifier, summarizer, ids, today, fault);
      r.status == "success" ==> ExitCounts(st, r)
  {
    var st := RunStages(companies, naver, ratio, classifier, summarizer, ids, today);
    AssembleExitCounts(companies, st, fault);
  }

  /** With no fault and no news for any company, the run stops at collection. */
  lemma NoNewsStopsEarly(
    companies: seq<string>, naver: NaverRequest -> NaverOutcome, ratio: (string, string) -> Score,
    classifier: seq<string> -> ClassifierOutcome, summarizer: (nat, SummaryRequest) -> SummaryOutcome,
    ids: nat -> string, today: DateStamp)
    requires forall c | c in companies :: FetchNewsForCompany(c, DefaultDisplay, naver) == []
    ensures ProcessNewsPipeline(companies, naver, ratio, classifier, summarizer, ids, today, None)
         == EarlyExit(NoNewsMessage, 0, 0, None)
  {
    var rs := GatherNews(companies, naver);
    forall i | 0 <= i < |rs| && rs[i].Fetched?
      ensures rs[i].items == []
    {
      assert companies[i] in companies;
    }
    CollectNewsEmpty(rs);
  }

  /** A record either has no results or carries the summaries of its run. */
  lemma AssembleResults(companies: seq<string>, st: Stages, fault: Option<Fault>)
    ensures Assemble(companies, st, fault).results == [] || Assemble(companies, st, fault).results == st.results
  {
  }

  /**
   * Every summary of a run traces back to a collected item of the same
   * company and title whose title hits the lexicon.
   */
  lemma StagesTrace(
    companies: seq<string>, naver: NaverRequest -> NaverOutcome, ratio: (string, string) -> Score,
    classifier: seq<string> -> ClassifierOutcome, summarizer: (nat, SummaryRequest) -> SummaryOutcome,
    ids: nat -> string, today: DateStamp)
    ensures var st := RunStages(companies, naver, ratio, classifier, summarizer, ids, today);
      forall k | 0 <= k < |st.results| ::
        exists x | x in st.all ::
          x.company == st.results[k].corp && x.title == st.results[k].originalTitle && HasKeyword(x)
  {
    var st := RunStages(companies, naver, ratio, classifier, summarizer, ids, today);
    SummarizeNewsFields(st.classified, summarizer, ids, today);
    RemoveSimilarTitlesSubseq(st.filtered, ratio);
    forall k | 0 <= k < |st.results|
      ensures exists x | x in st.all ::
        x.company == st.results[k].corp && x.title == st.results[k].originalTitle && HasKeyword(x)
    {
      var c := st.classified[k];
      assert c in st.classified;
      ClassifyNewsOrigin(st.deduped, classifier, c);
      var d :| d in st.deduped && c == d.(classification := c.classification);
      SubseqMembership(st.deduped, st.filtered, d);
      FilterByKeywordsOrigin(st.all, d);
      var x :| x in st.all && d == Annotate(x) && HasKeyword(x);
    }
  }

  /**
   * Every summary record traces back to a collected item of the same company
   * and title whose title hits the lexicon.
   */
  lemma ResultsTraceToCollectedNews(
    companies: seq<string>, naver: NaverRequest -> NaverOutcome, ratio: (string, string) -> Score,
    classifier: seq<string> -> ClassifierOutcome, summarizer: (nat, SummaryRequest) -> SummaryOutcome,
    ids: nat -> string, today: DateStamp, fault: Option<Fault>)
    ensures var r := ProcessNewsPipeline(companies, naver, ratio, classifier, summarizer, ids, today, fault);
      forall k | 0 <= k < |r.results| ::
        exists x | x in CollectNews(GatherNews(companies, naver)) ::
          x.company == r.results[k].corp && x.title == r.results[k].originalTitle && HasKeyword(x)
  {
    var st := RunStages(companies, naver, ratio, classifier, summarizer, ids, today);
    var r := ProcessNewsPipeline(companies, naver, ratio, classifier, summarizer, ids, today, fault);
    assert r == Assemble(companies, st, fault);
    StagesTrace(companies, naver, ratio, classifier, summarizer, ids, today);
    AssembleResults(companies, st, fault);
    assert r.results == [] || r.results == st.results;
  }

  /** Every record a run returns carries a non-empty summary. */
  lemma ResultsHaveSummaries(
    companies: seq<string>, naver: NaverRequest -> NaverOutcome, ratio: (string, string) -> Score,
    classifier: seq<string> -> ClassifierOutcome, summarizer: (nat, SummaryRequest) -> SummaryOutcome,
    ids: nat -> string, today: DateStamp, fault: Option<Fault>)
    ensures var r := ProcessNewsPipeline(companies, naver, ratio, classifier, summarizer, ids, today, fault);
      forall k | 0 <= k < |r.results| :: r.results[k].summary != ""
  {
    var st := RunStages(companies, naver, ratio, classifier, summarizer, ids, today);
    SummarizeNewsFields(st.classified, summarizer, ids, today);
    AssembleResults(companies, st, fault);
  }
}
