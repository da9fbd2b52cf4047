/**
 * The summary adapter (`SummaryService`). Each classified item is sent to
 * the summarizer on its own; the exchange is a parameter from the call's
 * position and payload to what came back, and the identifier each record
 * gets (a fresh UUID in the source) is a parameter too. Every item yields
 * exactly one record: the summarizer's text when it returned a usable one,
 * else a summary assembled from the title and description.
 */
module Summary {
  import opened Outcomes
  import opened Text
  import opened News
  import opened PubDate

  /** The `news` object posted for one item. */
  datatype SummaryRequest = SummaryRequest(title: string, description: string)

  /**
   * The `summary` value of a decoded answer: text, a falsy value (missing,
   * null, 0, an empty list), or some other truthy value that is not text.
   */
  datatype SummaryField = Text(text: string) | Falsy | NonText

  /** The body of a response: a JSON object, or something the adapter cannot `.get` from. */
  datatype SummaryBody = Parsed(summary: SummaryField) | Malformed

  /** What one call produced: a response, a transport error, or any other exception. */
  datatype SummaryOutcome = Responded(status: nat, body: SummaryBody) | NetworkError | UnknownError

  const DefaultCategory: string := "일반"
  const Sentiment: string := "neutral"

  /** The `summary_type` tag of each outcome. */
  function SummaryTypeTag(t: SummaryType): (tag: string)
  {
    match t
    case AiGenerated => "ai_generated"
    case FallbackEmptyResponse => "fallback_empty_response"
    case FallbackApiError(status) => "fallback_api_error_" + NatToString(status)
    case FallbackNetworkError => "fallback_network_error"
    case FallbackUnknownError => "fallback_unknown_error"
  }

  /** Distinct outcomes carry distinct tags, the status of an API error included. */
  lemma SummaryTypeTagInjective(a: SummaryType, b: SummaryType)
    requires SummaryTypeTag(a) == SummaryTypeTag(b)
    ensures a == b
  {
    var p := "fallback_api_error_";
    TagTenthLetter(a);
    TagTenthLetter(b);
    if a.FallbackApiError? && b.FallbackApiError? {
      var ta, tb := SummaryTypeTag(a), SummaryTypeTag(b);
      assert ta[|p|..] == NatToString(a.status);
      assert tb[|p|..] == NatToString(b.status);
      NatToStringInjective(a.status, b.status);
    }
  }

  /** Only the API-error tag has an `a` as its tenth letter. */
  lemma TagTenthLetter(t: SummaryType)
    ensures |SummaryTypeTag(t)| > 9
    ensures SummaryTypeTag(t)[9] == 'a' <==> t.FallbackApiError?
  {
  }

  const NewsInfix: string := " 관련 뉴스: "
  const AnnouncedSuffix: string := " 관련 뉴스가 발표되었습니다."

  /**
   * `_generate_fallback_summary`. With a title and a description: the company,
   * the infix and the first 30 title characters; when that is under 80
   * characters, " - ", a slice of the description and "..." follow; the
   * whole is cut to 100. With a title only: the company, the infix and the
   * first 70 title characters. Otherwise a fixed announcement sentence.
   */
  function FallbackSummary(news: NewsItem): (r: string)
    ensures r != ""
  {
    var title := news.title;
    var description := news.description;
    var company := news.company;
    if title != "" && description != "" then
      var base := company + NewsInfix + Take(title, 30);
      var remaining := 100 - |base| - 5;
      var extended := if |base| < 80 && remaining > 10 then base + " - " + Take(description, remaining) + "..." else base;
      Take(extended, 100)
    else if title != "" then company + NewsInfix + Take(title, 70)
    else company + AnnouncedSuffix
  }

  /**
   * The shape of the fallback text. With both fields it starts with the first
   * 100 characters of the header "<company> 관련 뉴스: <title[:30]>"; a header of
   * 80 characters or more is all there is, and a shorter one is followed by
   * " - " and the description. With a title only it starts with the company
   * and the infix. It names the company whenever the name fits in 100.
   */
  lemma FallbackSummaryBounds(news: NewsItem)
    ensures news.title != "" && news.description != "" ==> |FallbackSummary(news)| <= 100
    ensures news.title != "" && news.description != "" ==>
      var header := news.company + NewsInfix + Take(news.title, 30);
      && Take(header, 100) <= FallbackSummary(news)
      && (|header| >= 80 ==> FallbackSummary(news) == Take(header, 100))
      && (|header| < 80 ==> header + " - " <= FallbackSummary(news))
    ensures news.title != "" && news.description == "" ==>
      && news.company + NewsInfix <= FallbackSummary(news)
      && |FallbackSummary(news)| <= |news.company| + |NewsInfix| + 70
    ensures |news.company| <= 100 ==> news.company <= FallbackSummary(news)
  {
    var company := news.company;
    if news.title != "" && news.description != "" {
      var base := company + NewsInfix + Take(news.title, 30);
      assert company <= base;
      if |base| < 80 {
        var full := base + " - " + Take(news.description, 100 - |base| - 5) + "...";
        assert base + " - " <= full;
        assert base <= full;
        assert Take(full, 100)[..|base| + 3] == full[..|base| + 3];
      }
    }
  }

  /**
   * A short header with a long description: the description is cut so that
   * the text would be 101 characters, and the final cut to 100 leaves two of
   * the three closing dots.
   */
  lemma LongDescriptionLosesOneDot(news: NewsItem)
    requires news.title != ""
    requires |news.company + NewsInfix + Take(news.title, 30)| < 80
    requires |news.description| >= 100 - |news.company + NewsInfix + Take(news.title, 30)| - 5
    ensures |FallbackSummary(news)| == 100
    ensures FallbackSummary(news)[98..] == ".."
  {
    var base := news.company + NewsInfix + Take(news.title, 30);
    var full := base + " - " + Take(news.description, 100 - |base| - 5) + "...";
    assert |full| == 101;
    assert full[98..100] == "..";
  }

  /** The confidence a record stores: the classification's, or 0 when the item was never classified. */
  function RecordConfidence(news: NewsItem): (c: Option<real>)
    ensures news.classification.None? ==> c == Some(0.0)
    ensures news.classification.Some? ==> c == news.classification.value.confidence
  {
    if news.classification.Some? then news.classification.value.confidence else Some(0.0)
  }

  /** The record for one item; only the summary text and its tag depend on the summarizer. */
  function MakeResult(news: NewsItem, id: string, summary: string, summaryType: SummaryType, today: DateStamp): (r: SummaryResult)
    ensures r.id == id && r.corp == news.company && r.originalTitle == news.title
    ensures r.summary == summary && r.summaryType == summaryType
    ensures r.confidence == RecordConfidence(news)
    ensures r.matchedKeywords == news.matchedKeywords.GetOr([])
    ensures r.newsUrl == news.link && r.publishedDate == FormatPublishedDate(news.pubDate, today)
    ensures r.category == news.category.GetOr(DefaultCategory) && r.sentiment == Sentiment
  {
    SummaryResult(
      id, news.company, summary, news.title, RecordConfidence(news),
      news.matchedKeywords.GetOr([]), news.link, FormatPublishedDate(news.pubDate, today),
      news.category.GetOr(DefaultCategory), Sentiment, summaryType)
  }

  /** The summary text and tag an outcome leads to. */
  function Decide(news: NewsItem, outcome: SummaryOutcome): (d: (string, SummaryType))
    ensures d.1 == AiGenerated <==>
      outcome.Responded? && outcome.status == 200 && outcome.body.Parsed?
      && outcome.body.summary.Text? && Strip(outcome.body.summary.text) != ""
  {
    match outcome
    case Responded(status, body) =>
      if status != 200 then (FallbackSummary(news), FallbackApiError(status))
      else (
        match body
        case Parsed(Text(s)) =>
          if s == "" || Strip(s) == "" then (FallbackSummary(news), FallbackEmptyResponse)
          else (s, AiGenerated)
        case Parsed(Falsy) => (FallbackSummary(news), FallbackEmptyResponse)
        case Parsed(NonText) => (FallbackSummary(news), FallbackUnknownError)
        case Malformed => (FallbackSummary(news), FallbackUnknownError))
    case NetworkError => (FallbackSummary(news), FallbackNetworkError)
    case UnknownError => (FallbackSummary(news), FallbackUnknownError)
  }

  /** The payload for one item. */
  function RequestFor(news: NewsItem): (q: SummaryRequest)
    ensures q.title == news.title && q.description == news.description
  {
    SummaryRequest(news.title, news.description)
  }

  /** The record for item `i`, given what its call produced. */
  function SummarizeOne(news: NewsItem, outcome: SummaryOutcome, id: string, today: DateStamp): (r: SummaryResult)
  {
    var d := Decide(news, outcome);
    MakeResult(news, id, d.0, d.1, today)
  }

  /** `summarize_news`: one record per item, in order; call `i` is `summarizer(i, payload)`. */
  function SummarizeNews(news: seq<NewsItem>, summarizer: (nat, SummaryRequest) -> SummaryOutcome,
                         ids: nat -> string, today: DateStamp): (r: seq<SummaryResult>)
    ensures |r| == |news|
  {
    seq(|news|, i requires 0 <= i < |news| => SummarizeOne(news[i], summarizer(i, RequestFor(news[i])), ids(i), today))
  }

  /**
   * What every record holds: the item's own fields, a summary that is never
   * empty, and the summarizer's text verbatim exactly when it was tagged as
   * generated; every other tag comes with the fallback text.
   */
  lemma SummarizeNewsFields(news: seq<NewsItem>, summarizer: (nat, SummaryRequest) -> SummaryOutcome,
                            ids: nat -> string, today: DateStamp)
    ensures var r := SummarizeNews(news, summarizer, ids, today);
      forall i | 0 <= i < |news| ::
        && r[i].id == ids(i) && r[i].corp == news[i].company && r[i].originalTitle == news[i].title
        && r[i].newsUrl == news[i].link && r[i].confidence == RecordConfidence(news[i])
        && r[i].summary != ""
        && (var out := summarizer(i, RequestFor(news[i]));
            r[i].summaryType == AiGenerated ==>
              out.Responded? && out.body.Parsed? && out.body.summary.Text? && r[i].summary == out.body.summary.text)
        && (r[i].summaryType != AiGenerated ==> r[i].summary == FallbackSummary(news[i]))
  {
    var r := SummarizeNews(news, summarizer, ids, today);
    forall i | 0 <= i < |news|
      ensures r[i].summary != ""
    {
      var out := summarizer(i, RequestFor(news[i]));
      if Decide(news[i], out).1 == AiGenerated {
        StripSpec(out.body.summary.text);
      }
    }
  }

  /**
   * A failed exchange is tagged by how it failed: an HTTP error with its
   * status, an empty or blank summary as an empty response, and a summary
   * that is not text (or a body without one) as an unknown error.
   */
  lemma FailureTags(news: NewsItem, outcome: SummaryOutcome, id: string, today: DateStamp)
    ensures outcome.Responded? && outcome.status != 200 ==>
      SummarizeOne(news, outcome, id, today).summaryType == FallbackApiError(outcome.status)
    ensures outcome.NetworkError? ==> SummarizeOne(news, outcome, id, today).summaryType == FallbackNetworkError
    ensures outcome.UnknownError? ==> SummarizeOne(news, outcome, id, today).summaryType == FallbackUnknownError
    ensures (&& outcome.Responded? && outcome.status == 200 && outcome.body.Parsed?
             && (outcome.body.summary.Falsy? || (outcome.body.summary.Text? && Strip(outcome.body.summary.text) == "")))
      ==> SummarizeOne(news, outcome, id, today).summaryType == FallbackEmptyResponse
    ensures (&& outcome.Responded? && outcome.status == 200
             && (outcome.body.Malformed? || outcome.body.summary.NonText?))
      ==> SummarizeOne(news, outcome, id, today).summaryType == FallbackUnknownError
  {
  }
}
