# weekly_issue news pipeline — a Dafny model

This project models the news pipeline of the `weekly_issue` backend. The
backend collects news about a list of game companies from the Naver search
API. It keeps the items whose title hits a fixed lexicon and drops
near-duplicate titles. It asks an importance classifier which items matter
and has a summarizer write one summary per remaining item. It then wraps the
run's statistics into an `IssueResponse` and stores the summaries. Queries
over the stored issues page, filter and rank them.

Every external service is an input of the model:

- the Naver search answer;
- the token-set similarity score;
- the classifier and summarizer answers;
- the repository's query answers;
- the fresh record identifiers;
- today's date;
- an exception raised at some stage of the run.

Given those inputs, every stage is a pure function over sequences of
immutable records.

| module | file | models |
|---|---|---|
| `Outcomes` | outcomes.dfy | `Option` / `Result` |
| `Text` | text.dfy | the Python string operations the code relies on: `strip`, `lower`, `in`, `split(sep)[0]`, `replace`, slicing, digit strings |
| `Seqs` | seqs.dfy | subsequences, masks, Python slicing |
| `News` | news.dfy | the news dictionary and the summary record |
| `KeywordFilter` | keyword_filter.dfy | the lexicon and `filter_by_keywords` |
| `SimilarTitles` | similar_titles.dfy | `remove_similar_titles` |
| `NaverNews` | naver_news.dfy | `fetch_news_for_company`, `_clean_html_tags` |
| `Classifier` | classifier.dfy | `classify_news`, `_create_fallback_results` |
| `PubDate` | pub_date.dfy | `_format_published_date` |
| `Summary` | summary.dfy | `summarize_news`, `_create_fallback_result`, `_generate_fallback_summary` |
| `NewsPipeline` | news_pipeline.dfy | `process_news_pipeline` |
| `IssueSchema` | issue_schema.dfy | the pydantic schemas as validators |
| `IssueService` | issue_service.dfy | `process_news_pipeline_with_response` |
| `IssueController` | issue_controller.dfy | the controller's `process_news_pipeline` |
| `IssueDb` | issue_db.dfy | `get_all`, `search_issues`, `get_top_issues_by_confidence` |
| `Predictor` | predictor.dfy | `_create_prompt`, `_clean_generated_text`, `generate_summary` |

Three behaviours of the code that are easy to misread, and that the model follows:

- The classifier falls back on any status other than 200, not only on an error status.
- The search adapter treats only statuses 400–599 as errors, the ones `raise_for_status` raises for. A 401 is rejected on its own before that check.
- The summary tag of a 200 answer whose `summary` is a truthy non-text value is "fallback_unknown_error": `.strip()` raises on it.

## Model

| member | source | states |
|---|---|---|
| KeywordFilter.MatchesInSpec | app/domain/service/keyword_filter_service.py:41-44 | the matched keywords are an in-order sublist of the lexicon, and an entry is listed exactly when its lower-cased form occurs in the lower-cased title |
| KeywordFilter.FilterByKeywordsSpec | app/domain/service/keyword_filter_service.py:34-48 | the output is an order-preserving subsequence of the annotated inputs; an input is kept exactly when some entry matches; every kept item carries the non-empty list of its own matches |
| KeywordFilter.FilterByKeywordsOrigin | app/domain/service/keyword_filter_service.py:46-48 | every kept item is an input item with only `matched_keywords` set, and its title hits the lexicon |
| KeywordFilter.FilterByKeywordsIdempotent | app/domain/service/keyword_filter_service.py:35-48 | filtering the output again keeps every item with identical `matched_keywords` |
| KeywordFilter.MatchClosedUnderSubstring | app/domain/service/keyword_filter_service.py:41-44 | when an entry matches, every lexicon entry contained in it matches too |
| KeywordFilter.PreRegistrationImpliesReservation | app/domain/service/keyword_filter_service.py:11-14 | a title that reports "사전 예약" also reports "예약" |
| KeywordFilter.EsgReportedAsSpelled | app/domain/service/keyword_filter_service.py:41-44 | matching ignores case, but the entry is reported as the lexicon spells it ("ESG") |
| SimilarTitles.RemoveSimilarTitlesSubseq | app/domain/service/news_pipeline_service.py:34-53 | deduplication keeps a subsequence of its input: nothing is invented or reordered |
| SimilarTitles.RemoveSimilarTitlesStep | app/domain/service/news_pipeline_service.py:34-53 | one more scanned item is appended exactly when its stripped title is non-empty and it scores below 85 against every kept title |
| SimilarTitles.RemoveSimilarTitlesDistinct | app/domain/service/news_pipeline_service.py:35-53 | the output has no blank title, and no kept item scores 85 or more against a kept item before it |
| SimilarTitles.AppendKeepsNoNearDuplicates | app/domain/service/news_pipeline_service.py:51-53 | appending a non-blank item that is similar to nothing kept preserves the no-near-duplicate invariant |
| SimilarTitles.RemoveSimilarTitlesLoop | app/domain/service/news_pipeline_service.py:27-56 | the nested loop as written, with the early `break`, computes the same list as the recursive definition |
| SimilarTitles.ScanKept | app/domain/service/news_pipeline_service.py:40-49 | the inner loop reports "similar" exactly when some kept title scores at least 85 |
| SimilarTitles.KeepMaskSelects | app/domain/service/news_pipeline_service.py:34-53 | the scan of any prefix selects exactly the items its keep-mask flags |
| SimilarTitles.SimilarToKeptIff | app/domain/service/news_pipeline_service.py:41-49 | an item is similar to something kept before it exactly when it is similar to an earlier flagged item |
| SimilarTitles.KeepMaskIsGreedy | app/domain/service/news_pipeline_service.py:34-53 | the scan's mask obeys the greedy rule: keep item i exactly when it is non-blank and not similar to any earlier kept item |
| SimilarTitles.GreedySelectionUnique | app/domain/service/news_pipeline_service.py:34-53 | exactly one selection obeys the greedy rule |
| SimilarTitles.RemoveSimilarTitlesIsGreedy | app/domain/service/news_pipeline_service.py:41-49 | the output is the greedy selection: first-seen wins, and every dropped non-blank item is similar to an earlier kept one |
| SimilarTitles.DistinctIsFixedPoint | app/domain/service/news_pipeline_service.py:27-53 | a list with no blank title and no near-duplicate pair, the empty list included, is returned unchanged |
| SimilarTitles.RemoveSimilarTitlesIdempotent | app/domain/service/news_pipeline_service.py:34-53 | deduplicating the output again changes nothing |
| SimilarTitles.FirstSeenWins | app/domain/service/news_pipeline_service.py:41-53 | of two near-duplicates the earlier survives, and a dissimilar third item is kept |
| SimilarTitles.SecondNearDuplicateDropped | app/domain/service/news_pipeline_service.py:47-49 | an item scoring at least 85 against a kept one is dropped |
| NaverNews.SearchRequest | app/domain/service/naver_news_service.py:61-66 | the request asks for the company's news, `display` items, starting at 1, sorted by date |
| NaverNews.CleanHtmlTagsSubseq | app/domain/service/naver_news_service.py:117-123 | stripping tags only deletes characters, so it never lengthens the text |
| NaverNews.CleanHtmlTagsNoTag | app/domain/service/naver_news_service.py:122-123 | no tag (a `<` followed by a `>` before any line break) is left after cleaning |
| NaverNews.NoTagIsFixedPoint | app/domain/service/naver_news_service.py:122-123 | text without a tag is left exactly as it is |
| NaverNews.CleanHtmlTagsIdempotent | app/domain/service/naver_news_service.py:122-123 | cleaning twice is cleaning once |
| NaverNews.NoAngleUnchanged | app/domain/service/naver_news_service.py:122-123 | text without `<` passes through unchanged |
| NaverNews.BoldMarkupRemoved | app/domain/service/naver_news_service.py:122-123 | the search service's bold markup around a hit is removed |
| NaverNews.ProcessItem | app/domain/service/naver_news_service.py:99-105 | an item becomes a news dictionary for the queried company, with the title and description passed through tag cleaning, the link and date copied, and "" for a missing key |
| NaverNews.FetchNewsForCompany | app/domain/service/naver_news_service.py:47-115 | every fetched item belongs to the queried company |
| NaverNews.FetchNewsCases | app/domain/service/naver_news_service.py:84-115 | news comes back exactly when the answer is a non-error status other than 401 with an `items` list, one item per entry in order; a 401, an error status, a transport error or any other failure gives [] |
| NaverNews.FetchedNewsHasNoTags | app/domain/service/naver_news_service.py:98-105 | titles and descriptions of fetched news carry no markup |
| Classifier.Titles | app/domain/service/classifier_service.py:25 | the payload holds every title, in item order |
| Classifier.Classified | app/domain/service/classifier_service.py:52-59 | a classified copy differs from its item only in `classification`, which holds the prediction's label and confidence |
| Classifier.FallbackResults | app/domain/service/classifier_service.py:103-116 | the fallback returns every item in order, each labelled "important" with confidence 0.7 |
| Classifier.PairPredictionsMembership | app/domain/service/classifier_service.py:48-67 | an item passes exactly when it has a prediction at its own position whose confidence reaches 0.6; items past the end of the predictions are dropped |
| Classifier.PairPredictionsInOrder | app/domain/service/classifier_service.py:48-64 | the passing items keep their input order and occur once per passing position: with classifications erased, they are a subsequence of the input |
| Classifier.PairedConfidenceAtLeastThreshold | app/domain/service/classifier_service.py:61-64 | every passing item carries a numeric confidence of at least 0.6 |
| Classifier.ClassifyResponseLoop | app/domain/service/classifier_service.py:44-70 | the loop as written computes the functional definition of the 200 branch, including the fallback when a prediction cannot be examined |
| Classifier.ClassifyNews | app/domain/service/classifier_service.py:18-19 | no items give no classified items, and the classifier never adds items |
| Classifier.ClassifyNewsShape | app/domain/service/classifier_service.py:40-116 | whatever the outcome, the returned items keep their input order and occur at most once per input position (a subsequence once classifications are erased), and each carries a confidence of at least 0.6 |
| Classifier.FailureKeepsEverything | app/domain/service/classifier_service.py:72-116 | on a non-200 status, a caught exception, a 200 whose body is not JSON, or a 200 with a prediction whose examination raises, the result is exactly the fallback list: every item in order with only the fallback classification attached |
| Classifier.ClassifyNewsOrigin | app/domain/service/classifier_service.py:52-59 | every classified item is an input item with only `classification` changed |
| Summary.SummaryTypeTagInjective | app/domain/service/summary_service.py:77-93 | distinct outcomes get distinct `summary_type` tags, the HTTP status of an API error included |
| Summary.FallbackSummary | app/domain/service/summary_service.py:128-143 | the fallback summary is never empty |
| Summary.FallbackSummaryBounds | app/domain/service/summary_service.py:132-141 | with title and description the fallback starts with the first 100 characters of "<company> 관련 뉴스: <title[:30]>", is that cut alone when the header has 80 characters or more, continues with " - " when it is shorter, and is at most 100 characters; with a title only, it starts with the company and the infix and has at most 70 title characters; it starts with the company name when the name has at most 100 characters |
| Summary.LongDescriptionLosesOneDot | app/domain/service/summary_service.py:135-139 | with a short header and a long description the text is cut to 100 characters, ending in two dots |
| Summary.RecordConfidence | app/domain/service/summary_service.py:65 | the stored confidence is the classification's, or 0 for an unclassified item |
| Summary.MakeResult | app/domain/service/summary_service.py:110-121 | a record copies company, title, link and keywords (default []), formats the date, defaults the category to "일반" and always says "neutral" |
| Summary.Decide | app/domain/service/summary_service.py:45-93 | the tag is "ai_generated" exactly when the answer is a 200 whose `summary` is text that is not blank after stripping |
| Summary.RequestFor | app/domain/service/summary_service.py:27-32 | the payload carries the item's title and description |
| Summary.SummarizeNews | app/domain/service/summary_service.py:22-93 | exactly one record per item, whatever each call produced |
| Summary.SummarizeNewsFields | app/domain/service/summary_service.py:22-93 | record i carries item i's fields and a non-empty summary: the summarizer's text verbatim when tagged "ai_generated", the fallback text otherwise |
| Summary.FailureTags | app/domain/service/summary_service.py:49-93 | an API error is tagged with its status, a network error and any other exception with their own tags; a 200 whose summary is missing, falsy, empty or blank after strip is tagged "fallback_empty_response"; a 200 whose summary is a non-text value, or whose body has no `.get`, is tagged "fallback_unknown_error" |
| PubDate.MonthNumber | app/domain/service/summary_service.py:157 | `%b` accepts exactly the twelve English month abbreviations, case ignored, and yields their number |
| PubDate.ParseTimestamp | app/domain/service/summary_service.py:157 | a parse yields a month in 1..12, a day in 1..31, a four-digit year and clock fields in the ranges of the format |
| PubDate.RenderRoundTrip | app/domain/service/summary_service.py:158 | the YYYYMMDD stamp reads back as the year, month and day it was made from |
| PubDate.RenderInjective | app/domain/service/summary_service.py:158 | different dates give different stamps |
| PubDate.FormatPublishedDate | app/domain/service/summary_service.py:150-163 | an empty date stays empty, and any other text becomes an eight-digit stamp: the parsed date's stamp, or today's when the text does not parse to a date (for years below 1000 the stamp assumes a zero-padded `%Y`) |
| PubDate.ParseTimestampRoundTrip | app/domain/service/summary_service.py:157 | the parser reads back every field of a "Www, DD Mon YYYY HH:MM:SS" timestamp |
| PubDate.CutZone | app/domain/service/summary_service.py:157 | cutting at the first `+` and stripping recovers the timestamp from "timestamp +zone" |
| PubDate.FormatPublishedDateRoundTrip | app/domain/service/summary_service.py:145-163 | a timestamp with a `+` zone formats to the stamp of its own date when that date exists, and to today's stamp when it does not |
| PubDate.SampleDateFormats | test_summarizer.py:133 | the sample publication date "Mon, 25 Dec 2023 14:30:00 +0900" formats to "20231225" whatever today is |
| PubDate.DocumentedDateFormats | app/domain/service/summary_service.py:145-158 | the documented example "Mon, 18 Dec 2023 14:30:00 +0900" formats to "20231218" whatever today is |
| PubDate.MondayInSeoulFormats | app/domain/service/summary_service.py:157-158 | a valid Monday timestamp with zone +0900 formats to the stamp of its own date |
| PubDate.ExampleTimestamp | test_summarizer.py:133 | the sample publication date is the timestamp of 25 December 2023, 14:30 |
| NewsPipeline.CollectNewsAppend | app/domain/service/news_pipeline_service.py:77-81 | collecting distributes over a split of the task list, so company order is kept |
| NewsPipeline.CollectNewsMembership | app/domain/service/news_pipeline_service.py:77-81 | an item is collected exactly when a task that returned a list holds it; failed tasks add nothing |
| NewsPipeline.CollectNewsEmpty | app/domain/service/news_pipeline_service.py:77-85 | when no task returned any news, nothing is collected |
| NewsPipeline.GatherNews | app/domain/service/news_pipeline_service.py:74-75 | one task per company, in company order, each asking for 100 items |
| NewsPipeline.EarlyExit | app/domain/service/news_pipeline_service.py:100-142 | an early exit is a "success" with its message, no results, no company list and 0 for the stages it did not reach |
| NewsPipeline.ErrorRecord | app/domain/service/news_pipeline_service.py:164-175 | the catch-all record has status "error", the exception's text after the prefix, every count 0 (deduplication included), no company list and no results |
| NewsPipeline.ProcessNewsPipeline | app/domain/service/news_pipeline_service.py:58-175 | the summary count always equals the number of results |
| NewsPipeline.RemoveSimilarTitlesShrinks | app/domain/service/news_pipeline_service.py:114 | deduplication never keeps more items than it is given |
| NewsPipeline.StagesShrink | app/domain/service/news_pipeline_service.py:98-146 | no stage lengthens its list, and there is one summary per classified item |
| NewsPipeline.AssembleCounts | app/domain/service/news_pipeline_service.py:149-159 | with shrinking stages, the counts of a successful record never grow from stage to stage |
| NewsPipeline.PipelineCountsShrink | app/domain/service/news_pipeline_service.py:149-159 | in a successful record, collected ≥ keyword-filtered ≥ deduplicated ≥ classified, and summaries = classified |
| NewsPipeline.AssembleExits | app/domain/service/news_pipeline_service.py:85-175 | given one summary per classified item, the status and message of a record say where and how the run ended |
| NewsPipeline.PipelineExitMessages | app/domain/service/news_pipeline_service.py:85-175 | only an exception gives "error", with its text in the message and every count 0; an early exit has no results and no company list; only a complete run lists the companies and has results; the no-news record has no deduplication count |
| NewsPipeline.AssembleExitCounts | app/domain/service/news_pipeline_service.py:96-155 | given the stage lists, a success record stopped after keyword filtering, deduplication or classification reports the lengths of the stages that ran and 0 for the rest; a complete record reports every length |
| NewsPipeline.PipelineExitCounts | app/domain/service/news_pipeline_service.py:96-155 | a run that stops after keyword filtering, deduplication or classification reports the collected, filtered and deduplicated lengths that were reached and 0 afterwards; a complete run reports every stage's length |
| NewsPipeline.NoNewsStopsEarly | app/domain/service/news_pipeline_service.py:85-94 | with no exception and no news for any company, the run is the no-news exit with every count 0 |
| NewsPipeline.StagesTrace | app/domain/service/news_pipeline_service.py:98-146 | every summary of the stages traces back to a collected item of the same company and title that hits the lexicon |
| NewsPipeline.ResultsTraceToCollectedNews | app/domain/service/news_pipeline_service.py:74-158 | every result the run returns comes from a collected item of the same company and title that hits the lexicon |
| NewsPipeline.ResultsHaveSummaries | app/domain/service/news_pipeline_service.py:146-158 | every result the run returns carries a non-empty summary |
| IssueSchema.NewIssueItemCreate | app/domain/schema/issue_schema.py:6-19 | validation succeeds exactly when the confidence is a number in [0, 1]; category and sentiment default to "일반" and "neutral", the other optional fields to `None` |
| IssueSchema.NewIssueItemUpdate | app/domain/schema/issue_schema.py:21-31 | an update is valid exactly when its confidence is absent or in [0, 1], and then it is kept unchanged |
| IssueSchema.NewPipelineStats | app/domain/schema/issue_schema.py:47-54 | the statistics fail validation exactly when one of the six counts is left out |
| IssueSchema.NewIssueResponse | app/domain/schema/issue_schema.py:57-67 | a response validates exactly when all nine fields are passed, and then holds them |
| IssueSchema.NewIssueAnalysisRequest | app/domain/schema/issue_schema.py:80-86 | the threshold defaults to 0.7 and must lie in [0, 1]; the companies default to `None` |
| IssueSchema.NewIssueSearchRequest | app/domain/schema/issue_schema.py:88-97 | a search request validates exactly when page ≥ 1, 1 ≤ page size ≤ 100 and any minimum confidence is in [0, 1]; page and size default to 1 and 20 |
| IssueSchema.DefaultSearchIsValid | app/domain/schema/issue_schema.py:96-97 | a search with every field left out asks for the first page of 20 |
| IssueService.ProcessWithResponse | app/domain/service/issue_service.py:35-64 | the response says "success" exactly when the pipeline call returned, and "error" exactly when it raised |
| IssueService.WrapRecordCopies | app/domain/service/issue_service.py:39-51 | a returned record is copied field by field: a missing deduplication count becomes 0, and the company list becomes its length (0 when missing) |
| IssueService.RaisedCallReported | app/domain/service/issue_service.py:52-64 | a raised call gives an error response with the failure prefix, every count 0 and no results |
| IssueService.PipelineResponse | app/domain/service/issue_service.py:36-51 | the pipeline's own record is reported as "success" even when the run failed inside; the company count is the number of companies only after a complete run; summaries equal results |
| IssueController.TargetCompanies | app/domain/controller/issue_controller.py:35-37 | no list or an empty list means every registered company; any other list is used as given |
| IssueController.ToIssueCreate | app/domain/controller/issue_controller.py:61-71 | an item can be built exactly when the result's confidence is present and in [0, 1], and it carries the result's fields |
| IssueController.BuildCreatesSpec | app/domain/controller/issue_controller.py:49-72 | building succeeds exactly when every result with a summary is storable, and then yields one item per such result, in order |
| IssueController.SaveResults | app/domain/controller/issue_controller.py:46-83 | the save is skipped exactly when there is no session or no result; a successful save stores between one item and one per result |
| IssueController.ProcessNewsPipeline | app/domain/controller/issue_controller.py:28-85 | the answer is the service's response for the defaulted company list, whatever happens to the save |
| IssueController.ResponseIgnoresDatabase | app/domain/controller/issue_controller.py:46-85 | the response does not depend on the session or on whether the insert succeeds |
| IssueController.SavedItemsMatchResults | app/domain/controller/issue_controller.py:49-76 | a successful save stores one item per result with a summary, in order, with that result's company, summary, title and confidence |
| IssueController.AllSummarized | app/domain/controller/issue_controller.py:57 | when every result has a summary, none is passed over |
| IssueController.OneBadConfidenceFailsAll | app/domain/controller/issue_controller.py:47-83 | one summarized result with a missing or out-of-range confidence abandons the whole save |
| IssueController.WithSummaryMembership | app/domain/controller/issue_controller.py:57 | a result is selected for saving exactly when it is one of the results and has a summary |
| IssueController.PipelineResultsAllSelected | app/domain/controller/issue_controller.py:57 | behind the real pipeline every result has a summary, so the save covers all of them |
| IssueDb.StatsAsWrittenAlwaysFails | app/domain/service/issue_db_service.py:37-43 | the statistics as written never validate, whatever the repository reports |
| IssueDb.Stats | app/domain/service/issue_db_service.py:37-43 | with the missing count supplied, the statistics always validate; every pipeline count is the stored-issue count (0 when missing) and the company count is the number of top companies |
| IssueDb.FloorDiv | app/domain/service/issue_db_service.py:50 | `//` rounds towards minus infinity: the remainder has the divisor's sign |
| IssueDb.PageNumber | app/domain/service/issue_db_service.py:50 | `skip // limit + 1` fails exactly for a limit of 0; for a positive limit the offset lies inside the reported page |
| IssueDb.GetAllAsWrittenFails | app/domain/service/issue_db_service.py:20-53 | every call of `get_all` as written ends in a validation error |
| IssueDb.GetAll | app/domain/service/issue_db_service.py:20-53 | the listing succeeds exactly when the limit is not 0, and then reports the repository's rows and total, the limit as page size and a page containing the offset |
| IssueDb.GetAllPageRoundTrip | app/domain/service/issue_db_service.py:50-51 | the offset a search computes for page p is reported back by the listing as page p |
| IssueDb.SearchBranchPrecedence | app/domain/service/issue_db_service.py:215-226 | each criterion decides the query exactly when it is truthy and every earlier one is not (company, keyword, sentiment, minimum confidence, full date range); otherwise the plain listing |
| IssueDb.Skip | app/domain/service/issue_db_service.py:212 | the offset of a valid page is never negative |
| IssueDb.AtLeastSpec | app/domain/service/issue_db_service.py:229-230 | the extra filter keeps exactly the rows at or above the minimum, in order |
| IssueDb.SearchIssuesAsWrittenFails | app/domain/service/issue_db_service.py:198-262 | every search as written ends in a validation error |
| IssueDb.SearchIssues | app/domain/service/issue_db_service.py:254-262 | the search reports the requested page and page size and the complete statistics |
| IssueDb.SearchIssuesWindow | app/domain/service/issue_db_service.py:232-237 | a filtered search reports how many rows matched and returns the requested slice of them, at most a page; the plain listing returns the repository's page and total |
| IssueDb.ConfidenceSearchFilters | app/domain/service/issue_db_service.py:221-230 | a search by minimum confidence returns only rows that reach it |
| IssueDb.PageOfWindow | app/domain/service/issue_db_service.py:235 | from a non-negative offset, a page is the window between the offset and the offset plus the page size, both cut at the length |
| IssueDb.PagesTile | app/domain/service/issue_db_service.py:233-235 | the first n pages of a filtered list, put together, are exactly its first n × page-size rows |
| IssueDb.InsertByConfidence | app/domain/service/issue_db_service.py:138 | inserting a row keeps every row and adds exactly that one |
| IssueDb.InsertKeepsOrder | app/domain/service/issue_db_service.py:138 | insertion keeps the confidence order non-increasing |
| IssueDb.SortByConfidence | app/domain/service/issue_db_service.py:138 | sorting is a permutation of the rows |
| IssueDb.SortByConfidenceOrders | app/domain/service/issue_db_service.py:138 | the sorted rows have non-increasing confidence |
| IssueDb.TopIssuesByConfidence | app/domain/service/issue_db_service.py:132-143 | the ranking has at most `limit` rows and no more rows than are stored |
| IssueDb.TopIssuesPrefix | app/domain/service/issue_db_service.py:138 | the ranking is the sorted list cut as Python cuts `[:limit]`, negative limits included |
| IssueDb.TopIssuesOrdered | app/domain/service/issue_db_service.py:138 | the ranking has non-increasing confidence |
| IssueDb.TopIssuesAreTop | app/domain/service/issue_db_service.py:136-138 | the ranking holds stored rows only, and every row it leaves out ranks no higher than any row it returns |
| Predictor.CreatePrompt | real_predictor.py:210-217 | the prompt is exactly as long as the instruction, the two labels, the title and the description together |
| Predictor.PromptRoundTrip | real_predictor.py:210-217 | a one-line title and any description are embedded verbatim: the prompt parses back to them |
| Predictor.CleanGeneratedText | real_predictor.py:219-232 | empty text cleans to empty, and a cleaned text never exceeds 203 characters |
| Predictor.CleanedIsOneLine | real_predictor.py:225-226 | a cleaned text never holds a line break |
| Predictor.LongTextCapped | real_predictor.py:229-232 | a cleaned line over 200 characters keeps its first 200 and gains "..." |
| Predictor.CleanTextIsFixedPoint | real_predictor.py:219-232 | a stripped single line of at most 200 characters without the label is already clean |
| Predictor.GenerateSummary | real_predictor.py:203-208 | generation never returns an empty string |
| Predictor.GenerateSummaryDecoded | real_predictor.py:190-203 | decoded text yields its cleaned form, one line of at most 203 characters, unless nothing is left, and then the fixed sentence |
| Predictor.FailuresReported | real_predictor.py:205-208 | a failure is reported with the error prefix and its message, a model that is not loaded included |

## Left out

- Network I/O is not modelled: the HTTP calls, headers, timeouts and JSON decoding. Each call's answer is an input value.
- Concurrency is not modelled: `asyncio.gather` and `await`. Collection is the per-company answers concatenated in company order.
- The token-set similarity score is a library primitive. It is an input function with values in 0..100.
- `uuid.uuid4()` and `datetime.now()` are inputs: `ids` and `today`.
- The configured company list (`COMPANY_NAMES`) is an input: `registry`. app/config/companies.py is not part of this model.
- The SQL repository, its ordering and its commits are not modelled. Each query's answer is a field of `Repository`.
- `IssueItem.model_validate` row conversion is not modelled, and neither is `IssueListResponse` validation. The stored row has an integer `id` (app/domain/model/issue_model.py:13), while `IssueItem.id` is declared `str` (app/domain/schema/issue_schema.py:35). Pydantic v2 does not coerce an integer into a `str` field, so this conversion probably fails for every non-empty result. The corrected `IssueDb.GetAll` and `IssueDb.SearchIssues` describe the listing and statistics logic, not what the program returns on a non-empty database.
- The database pass-through methods of `IssueDbService` are left out: `get_by_id`, `get_by_corp`, `search_by_keyword`, `get_summary_statistics`, `count_total`, `create`, `bulk_create`, `update`, `delete`. Each only forwards to the repository. `bulk_create` is the `insertSucceeds` flag of the controller's session.
- `get_important_news` is left out: it returns fixed sample data.
- The HTTP routers, the settings, the environment checks of the search adapter's constructor and the scripts are left out. They hold no pipeline logic.
- Model loading and GPU generation in the local summarizer are left out. Their result is the `Generation` input.
- Log output is left out, including the classifier's `error_type` and the summary-type statistics. Neither changes a result.
- Text.Lower: lower-cases ASCII letters only. Python's Unicode case mapping is not modelled. Hangul has no case.
- Text.Strip: strips exactly the characters `str.isspace` accepts; no other Unicode behaviour is modelled.
- PubDate.Render: writes the year as four zero-padded digits, so year 999 gives "0999". For years 1–999, `strftime("%Y")` is platform-dependent: glibc, as older CPython releases pass it through, writes the year unpadded ("999"), and the stamp then has fewer than eight digits. The model assumes the padded form. Timestamps from the search service carry current four-digit years.
- PubDate.ParseTimestamp: uses the C locale. `%Y` is read as four digits, as the search service writes it. `%d`, `%Y` and the clock fields accept ASCII digits only; Python's `strptime` also accepts other Unicode decimal digits there.
- NewsPipeline.ProcessNewsPipeline: models an unanticipated exception as at most one fault at a named stage. It does not model what the exception was.
- KeywordFilter.FilterByKeywords: returns annotated copies. The source sets `matched_keywords` on the caller's dictionaries in place.
- IssueController.ToIssueCreate: a result from the pipeline always carries every key. The defaults for missing keys are not modelled, and neither is the conversion of non-dictionary results.
- Classifier.Accepts: a JSON `true` or `false` confidence compares as 1 or 0 in Python. Such an answer is written as `Num(1.0)` or `Num(0.0)`, so booleans have no constructor of their own.
- IssueDb.TopIssuesByConfidence: proves the order and the selection. It does not prove that rows with equal confidence keep their stored order.

## Findings

| source | as written | input that shows it | evidently intended | confidence | as-written member | corrected member |
|---|---|---|---|---|---|---|
| app/domain/service/issue_db_service.py:37-43 | `get_all` builds `PipelineStats` without `after_deduplication`, a required field, so validation raises | any call, e.g. `get_all(0, 100)` on any database | pass the stored-issue count for `after_deduplication`, as for the other counts | not executed | IssueDb.GetAllAsWritten | IssueDb.GetAll |
| app/domain/service/issue_db_service.py:246-252 | `search_issues` builds the same incomplete `PipelineStats` after fetching the rows | any call, e.g. `search_issues()` with every default | the same complete statistics | not executed | IssueDb.SearchIssuesAsWritten | IssueDb.SearchIssues |
