/**
 * The text handling of the local summarizer (`real_predictor.py`): the
 * prompt it builds, the cleanup of generated text, and the fallbacks of
 * `generate_summary`. The model and its generation are an input: the
 * decoded text, or the failure that stopped it.
 */
module Predictor {
  import opened Outcomes
  import opened Seqs
  import opened Text

  const PromptHead: string := "다음 뉴스를 한 문장으로 요약해주세요.\n\n제목: "
  const PromptMiddle: string := "\n내용: "
  const PromptTail: string := "\n\n요약:"

  /** `_create_prompt`: the instruction, then the title and the description after their labels. */
  function CreatePrompt(title: string, description: string): (p: string)
    ensures |p| == |PromptHead| + |title| + |PromptMiddle| + |description| + |PromptTail|
  {
    PromptHead + title + PromptMiddle + description + PromptTail
  }

  /** Reading a prompt back: the title runs to the first line break after its label. */
  function ParsePrompt(p: string): (r: Option<(string, string)>)
  {
    if |p| < |PromptHead| + |PromptTail| || p[..|PromptHead|] != PromptHead || p[|p| - |PromptTail|..] != PromptTail
    then None
    else
      var body := p[|PromptHead|..|p| - |PromptTail|];
      var title := BeforeFirst(body, '\n');
      var rest := body[|title|..];
      if |rest| < |PromptMiddle| || rest[..|PromptMiddle|] != PromptMiddle then None
      else Some((title, rest[|PromptMiddle|..]))
  }

  /** A one-line title and any description are embedded verbatim: the prompt reads back to them. */
  lemma PromptRoundTrip(title: string, description: string)
    requires '\n' !in title
    ensures ParsePrompt(CreatePrompt(title, description)) == Some((title, description))
  {
    var p := CreatePrompt(title, description);
    assert p[..|PromptHead|] == PromptHead;
    assert p[|p| - |PromptTail|..] == PromptTail;
    var body := p[|PromptHead|..|p| - |PromptTail|];
    assert body == title + PromptMiddle + description;
    BeforeFirstAt(body, '\n', |title|);
    assert body[..|title|] == title;
    assert body[|title|..] == PromptMiddle + description;
  }

  const NoSummary: string := "요약을 생성할 수 없습니다."
  const ErrorPrefix: string := "요약 생성 중 오류 발생: "
  const ModelNotLoadedMessage: string := "❌ 모델이 로드되지 않았습니다"
  const SummaryLabel: string := "요약:"
  const MaxSummary: nat := 200

  /**
   * `_clean_generated_text`: the first line, stripped, without any "요약:"
   * label, stripped again; longer than 200 characters, it is cut to 200 and
   * "..." is appended.
   */
  function CleanGeneratedText(text: string): (r: string)
    ensures text == "" ==> r == ""
    ensures |r| <= MaxSummary + 3
  {
    if text == "" then ""
    else
      var cleaned := Strip(RemoveAll(Strip(BeforeFirst(text, '\n')), SummaryLabel));
      if |cleaned| > MaxSummary then cleaned[..MaxSummary] + "..." else cleaned
  }

  /** A cleaned text is a single line. */
  lemma CleanedIsOneLine(text: string)
    ensures '\n' !in CleanGeneratedText(text)
  {
    if text != "" {
      var first := BeforeFirst(text, '\n');
      var stripped := Strip(first);
      var removed := RemoveAll(stripped, SummaryLabel);
      var cleaned := Strip(removed);
      if '\n' in cleaned {
        StripMembers(removed, '\n');
        SubseqMembership(removed, stripped, '\n');
        StripMembers(first, '\n');
      }
    }
  }

  /** A cleaned text over 200 characters keeps its first 200 and gains "...": 203 in all. */
  lemma LongTextCapped(text: string)
    requires text != ""
    requires |Strip(RemoveAll(Strip(BeforeFirst(text, '\n')), SummaryLabel))| > MaxSummary
    ensures |CleanGeneratedText(text)| == MaxSummary + 3
    ensures CleanGeneratedText(text)[MaxSummary..] == "..."
    ensures CleanGeneratedText(text)[..MaxSummary] == Strip(RemoveAll(Strip(BeforeFirst(text, '\n')), SummaryLabel))[..MaxSummary]
  {
  }

  /** A single stripped line of at most 200 characters without the label is already clean. */
  lemma CleanTextIsFixedPoint(s: string)
    requires '\n' !in s && Strip(s) == s && !Contains(s, SummaryLabel) && |s| <= MaxSummary
    ensures CleanGeneratedText(s) == s
  {
    if s != "" {
      assert BeforeFirst(s, '\n') == s;
    }
  }

  /** What generation produced: no model loaded, decoded text, or an exception with its message. */
  datatype Generation = ModelNotLoaded | Decoded(text: string) | GenerationFailed(message: string)

  /**
   * `generate_summary`: the decoded text, stripped and cleaned; an empty
   * result becomes a fixed sentence, and any failure an error sentence.
   */
  function GenerateSummary(g: Generation): (r: string)
    ensures r != ""
  {
    match g
    case ModelNotLoaded => ErrorPrefix + ModelNotLoadedMessage
    case GenerationFailed(message) => ErrorPrefix + message
    case Decoded(text) =>
      var summary := CleanGeneratedText(Strip(text));
      if summary == "" then NoSummary else summary
  }

  /**
   * A decoded text yields its cleaned form, one line of at most 203
   * characters, unless nothing is left, and then the fixed sentence.
   */
  lemma GenerateSummaryDecoded(text: string)
    ensures var r := GenerateSummary(Decoded(text));
      var cleaned := CleanGeneratedText(Strip(text));
      && (cleaned != "" ==> r == cleaned && '\n' !in r && |r| <= MaxSummary + 3)
      && (cleaned == "" ==> r == NoSummary)
  {
    CleanedIsOneLine(Strip(text));
  }

  /** A failure is reported with the error prefix and its message; a model that is not loaded is reported like any exception. */
  lemma FailuresReported(message: string)
    ensures GenerateSummary(ModelNotLoaded) == GenerateSummary(GenerationFailed(ModelNotLoadedMessage))
    ensures GenerateSummary(GenerationFailed(message)) == ErrorPrefix + message
  {
  }
}
