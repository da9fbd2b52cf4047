/**
 * The records that flow through the news pipeline. The source passes Python
 * dictionaries from stage to stage; here each dictionary shape is a datatype
 * and a key that may be absent is an `Option`.
 */
module News {
  import opened Outcomes

  /** The `classification` entry a classified item carries: label and confidence as reported (or the fallback values). */
  datatype Classification = Classification(labelText: Option<string>, confidence: Option<real>)

  /**
   * One news dictionary. The search adapter fills the five text fields; the
   * keyword filter adds `matchedKeywords`, the classifier `classification`.
   * No stage sets `category`, but the summary adapter reads it with a default.
   */
  datatype NewsItem = NewsItem(
    company: string,
    title: string,
    description: string,
    link: string,
    pubDate: string,
    matchedKeywords: Option<seq<string>>,
    classification: Option<Classification>,
    category: Option<string>)

  /** How a summary was obtained; rendered as the `summary_type` tag. */
  datatype SummaryType =
    | AiGenerated
    | FallbackEmptyResponse
    | FallbackApiError(status: nat)
    | FallbackNetworkError
    | FallbackUnknownError

  /** The terminal record the summary adapter produces for one classified item. */
  datatype SummaryResult = SummaryResult(
    id: string,
    corp: string,
    summary: string,
    originalTitle: string,
    confidence: Option<real>,
    matchedKeywords: seq<string>,
    newsUrl: string,
    publishedDate: string,
    category: string,
    sentiment: string,
    summaryType: SummaryType)
}
