/**
 * The importance classifier adapter (`ClassifierService.classify_news`).
 * All titles go to the classifier in one request; the HTTP exchange is a
 * parameter from the list of titles to what came back. An item passes when
 * the prediction at its position carries a confidence of at least 0.6; when
 * the call or the handling of its answer fails, every item passes with a
 * fixed fallback classification.
 */
module Classifier {
  import opened Outcomes
  import opened Seqs
  import opened News

  /**
   * The `confidence` value of a prediction as JSON: missing, a value that
   * cannot be compared with 0.6 (null, text, a list, ...), or a number. A JSON
   * boolean compares as 1 or 0 in Python, so `true` and `false` are written
   * `Num(1.0)` and `Num(0.0)`.
   */
  datatype JsonNumber = Absent | NonNumeric | Num(value: real)

  /** One element of the `result` array; anything but an object is `NotAnObject`. */
  datatype Prediction = Prediction(labelText: Option<string>, confidence: JsonNumber) | NotAnObject

  /** The decoded body: an object with a `result` array, an object without one, or no JSON at all. */
  datatype ClassifierBody = Results(predictions: seq<Prediction>) | NoResultKey | NotJson

  /** What the call produced: a response, or one of the exceptions the adapter catches. */
  datatype ClassifierOutcome =
    | Responded(status: int, body: ClassifierBody)
    | ConnectError
    | Timeout
    | RequestError
    | OtherError

  /** Predictions below this confidence are dropped. */
  const AcceptThreshold: real := 0.6

  const FallbackLabel: string := "important"
  const FallbackConfidence: real := 0.7

  /** The request payload: every title, in order. */
  function Titles(news: seq<NewsItem>): (ts: seq<string>)
    ensures |ts| == |news|
    ensures forall i | 0 <= i < |news| :: ts[i] == news[i].title
  {
    MapSeq((n: NewsItem) => n.title, news)
  }

  /** Examining this prediction raises: it is not an object, or its confidence cannot be compared with 0.6. */
  predicate Raises(p: Prediction) {
    p.NotAnObject? || p.confidence.NonNumeric?
  }

  /** The prediction lets its item through; a missing confidence counts as 0. */
  predicate Accepts(p: Prediction) {
    p.Prediction? && p.confidence.Num? && p.confidence.value >= AcceptThreshold
  }

  /** The confidence stored in the item: the JSON number, or nothing. */
  function StoredConfidence(c: JsonNumber): (r: Option<real>)
    ensures r.Some? <==> c.Num?
    ensures c.Num? ==> r.value == c.value
  {
    if c.Num? then Some(c.value) else None
  }

  /** The item with the prediction's label and confidence attached. */
  function Classified(news: NewsItem, p: Prediction): (r: NewsItem)
    requires p.Prediction?
    ensures r == news.(classification := r.classification)
    ensures r.classification == Some(Classification(p.labelText, StoredConfidence(p.confidence)))
  {
    news.(classification := Some(Classification(p.labelText, StoredConfidence(p.confidence))))
  }

  /** The item with the fallback classification attached. */
  function WithFallback(news: NewsItem): (r: NewsItem)
    ensures r == news.(classification := r.classification)
    ensures r.classification == Some(Classification(Some(FallbackLabel), Some(FallbackConfidence)))
  {
    news.(classification := Some(Classification(Some(FallbackLabel), Some(FallbackConfidence))))
  }

  /** `_create_fallback_results`: every item, in order, with the fallback classification. */
  function FallbackResults(news: seq<NewsItem>): (r: seq<NewsItem>)
    ensures |r| == |news|
    ensures forall i | 0 <= i < |news| :: r[i] == WithFallback(news[i])
  {
    MapSeq(WithFallback, news)
  }

  /** Some prediction that the loop examines (one with a matching item) raises. */
  predicate AnyExaminedRaises(news: seq<NewsItem>, preds: seq<Prediction>) {
    exists i | 0 <= i < |news| && i < |preds| :: Raises(preds[i])
  }

  /** The items whose prediction accepts them, classified, in input order. */
  function PairPredictions(news: seq<NewsItem>, preds: seq<Prediction>): (r: seq<NewsItem>)
    ensures |r| <= |news|
    decreases |news|
  {
    if |news| == 0 then []
    else
      var i := |news| - 1;
      PairPredictions(news[..i], preds)
        + (if i < |preds| && Accepts(preds[i]) then [Classified(news[i], preds[i])] else [])
  }

  /**
   * An item is in the paired list exactly when it is the classified copy of
   * an input item whose prediction accepts it.
   */
  lemma {:induction false} PairPredictionsMembership(news: seq<NewsItem>, preds: seq<Prediction>, y: NewsItem)
    ensures y in PairPredictions(news, preds)
        <==> exists i | 0 <= i < |news| && i < |preds| :: Accepts(preds[i]) && y == Classified(news[i], preds[i])
    decreases |news|
  {
    if |news| > 0 {
      var i := |news| - 1;
      PairPredictionsMembership(news[..i], preds, y);
      assert forall j | 0 <= j < i :: news[..i][j] == news[j];
    }
  }

  /** The item with its classification erased: what an input item and its classified copy share. */
  function Unclassified(n: NewsItem): NewsItem {
    n.(classification := None)
  }

  /**
   * The passing items keep their input order and occur once per passing
   * position: with classifications erased, the paired list is a subsequence
   * of the input.
   */
  lemma {:induction false} PairPredictionsInOrder(news: seq<NewsItem>, preds: seq<Prediction>)
    ensures IsSubseq(MapSeq(Unclassified, PairPredictions(news, preds)), MapSeq(Unclassified, news))
    decreases |news|
  {
    if |news| > 0 {
      var i := |news| - 1;
      var prefix := PairPredictions(news[..i], preds);
      PairPredictionsInOrder(news[..i], preds);
      assert MapSeq(Unclassified, news) == MapSeq(Unclassified, news[..i]) + [Unclassified(news[i])];
      if i < |preds| && Accepts(preds[i]) {
        var y := Classified(news[i], preds[i]);
        assert Unclassified(y) == Unclassified(news[i]);
        assert PairPredictions(news, preds) == prefix + [y];
        assert MapSeq(Unclassified, prefix + [y]) == MapSeq(Unclassified, prefix) + [Unclassified(y)];
        SubseqAppendBoth(MapSeq(Unclassified, prefix), MapSeq(Unclassified, news[..i]), Unclassified(news[i]));
      } else {
        assert PairPredictions(news, preds) == prefix;
        SubseqAppendRight(MapSeq(Unclassified, prefix), MapSeq(Unclassified, news[..i]), Unclassified(news[i]));
      }
    }
  }

  /** Every passing item carries a numeric confidence of at least 0.6. */
  lemma PairedConfidenceAtLeastThreshold(news: seq<NewsItem>, preds: seq<Prediction>)
    ensures forall y | y in PairPredictions(news, preds) ::
      y.classification.Some? && y.classification.value.confidence.Some?
      && y.classification.value.confidence.value >= AcceptThreshold
  {
    forall y | y in PairPredictions(news, preds)
      ensures y.classification.Some? && y.classification.value.confidence.Some?
      ensures y.classification.value.confidence.value >= AcceptThreshold
    {
      PairPredictionsMembership(news, preds, y);
    }
  }

  /** The answer to a successful call: fall back when some examined prediction raises, else pair. */
  function ClassifyResponse(news: seq<NewsItem>, preds: seq<Prediction>): (r: seq<NewsItem>)
    ensures |r| <= |news|
  {
    if AnyExaminedRaises(news, preds) then FallbackResults(news) else PairPredictions(news, preds)
  }

  /**
   * `classify_news`: no items, no call. A 200 answer with a `result` array is
   * paired with the items; one without it passes nothing. Any other status,
   * any caught exception, undecodable JSON or a prediction that cannot be
   * examined passes every item with the fallback classification.
   */
  function ClassifyNews(news: seq<NewsItem>, classifier: seq<string> -> ClassifierOutcome): (r: seq<NewsItem>)
    ensures news == [] ==> r == []
    ensures |r| <= |news|
  {
    if |news| == 0 then []
    else
      match classifier(Titles(news))
      case Responded(status, body) =>
        if status != 200 then FallbackResults(news)
        else (
          match body
          case Results(preds) => ClassifyResponse(news, preds)
          case NoResultKey => []
          case NotJson => FallbackResults(news))
      case _ => FallbackResults(news)
  }

  /**
   * The loop of the 200 branch as written: walk the items, look at the
   * prediction at the same position if there is one, keep the item when the
   * confidence reaches 0.6; a prediction that cannot be examined abandons the
   * loop for the fallback.
   */
  method ClassifyResponseLoop(news: seq<NewsItem>, preds: seq<Prediction>) returns (classified: seq<NewsItem>)
    ensures classified == ClassifyResponse(news, preds)
  {
    classified := [];
    for i := 0 to |news|
      invariant classified == PairPredictions(news[..i], preds)
      invariant forall j | 0 <= j < i && j < |preds| :: !Raises(preds[j])
    {
      assert news[..i + 1][..i] == news[..i];
      if i < |preds| {
        var prediction := preds[i];
        if Raises(prediction) {
          return FallbackResults(news);
        }
        if Accepts(prediction) {
          classified := classified + [Classified(news[i], prediction)];
        }
      }
    }
    assert news[..|news|] == news;
  }

  /**
   * Whatever the outcome, the items that come back keep their input order and
   * occur at most once per input position (with classifications erased they
   * are a subsequence of the input), and each carries a confidence of at
   * least 0.6: the prediction's, or the fallback's 0.7.
   */
  lemma ClassifyNewsShape(news: seq<NewsItem>, classifier: seq<string> -> ClassifierOutcome)
    ensures IsSubseq(MapSeq(Unclassified, ClassifyNews(news, classifier)), MapSeq(Unclassified, news))
    ensures forall y | y in ClassifyNews(news, classifier) ::
      y.classification.Some? && y.classification.value.confidence.Some?
      && y.classification.value.confidence.value >= AcceptThreshold
  {
    var r := ClassifyNews(news, classifier);
    if |news| > 0 {
      var out := classifier(Titles(news));
      if out.Responded? && out.status == 200 && out.body.Results? && !AnyExaminedRaises(news, out.body.predictions) {
        PairedConfidenceAtLeastThreshold(news, out.body.predictions);
        PairPredictionsInOrder(news, out.body.predictions);
      } else if out.Responded? && out.status == 200 && out.body.NoResultKey? {
        assert r == [];
      } else {
        assert r == FallbackResults(news);
        assert MapSeq(Unclassified, r) == MapSeq(Unclassified, news);
        SubseqRefl(MapSeq(Unclassified, news));
      }
    }
  }

  /**
   * The outcomes the adapter answers with the fallback: a status other than
   * 200, a caught exception, a 200 whose body is not JSON, and a 200 with a
   * prediction whose examination raises.
   */
  predicate FallsBack(news: seq<NewsItem>, out: ClassifierOutcome) {
    || !out.Responded?
    || out.status != 200
    || out.body.NotJson?
    || (out.body.Results? && AnyExaminedRaises(news, out.body.predictions))
  }

  /** A failed call never loses an item: all of them come back, in order, with the fallback classification. */
  lemma FailureKeepsEverything(news: seq<NewsItem>, classifier: seq<string> -> ClassifierOutcome)
    requires FallsBack(news, classifier(Titles(news)))
    ensures ClassifyNews(news, classifier) == FallbackResults(news)
    ensures |ClassifyNews(news, classifier)| == |news|
    ensures forall i | 0 <= i < |news| ::
      ClassifyNews(news, classifier)[i] == news[i].(classification := Some(Classification(Some("important"), Some(0.7))))
  {
  }

  /** Classification only attaches a classification: every other field is an input item's. */
  lemma ClassifyNewsOrigin(news: seq<NewsItem>, classifier: seq<string> -> ClassifierOutcome, y: NewsItem)
    requires y in ClassifyNews(news, classifier)
    ensures exists x | x in news :: y == x.(classification := y.classification)
  {
    var out := classifier(Titles(news));
    if out.Responded? && out.status == 200 && out.body.Results? && !AnyExaminedRaises(news, out.body.predictions) {
      PairPredictionsMembership(news, out.body.predictions, y);
      var i :| 0 <= i < |news| && i < |out.body.predictions| && Accepts(out.body.predictions[i])
        && y == Classified(news[i], out.body.predictions[i]);
      assert news[i] in news;
    } else {
      var i :| 0 <= i < |news| && y == FallbackResults(news)[i];
      assert news[i] in news;
    }
  }
}
