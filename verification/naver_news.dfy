/**
 * The news-search adapter (`NaverNewsService`). The HTTP exchange itself is
 * a parameter: a function from the request the adapter builds to what came
 * back. What the adapter decides from that answer is modelled exactly:
 * which answers yield no news, how items are turned into news dictionaries,
 * and how markup is stripped from titles and descriptions.
 */
module NaverNews {
  import opened Outcomes
  import opened Seqs
  import opened News

  /** The query parameters of the search request. */
  datatype NaverRequest = NaverRequest(query: string, display: int, start: int, sort: string)

  /** One entry of the `items` array; a key that is missing is `None`. */
  datatype NaverItem = NaverItem(title: Option<string>, description: Option<string>, link: Option<string>, pubDate: Option<string>)

  /** The parsed JSON body: an `items` array, an object without one, or something that is not JSON. */
  datatype NaverBody = Items(items: seq<NaverItem>) | NoItemsKey | Unparseable

  /** What the HTTP call produced: a response, a transport error, or any other exception. */
  datatype NaverOutcome = Responded(status: int, body: NaverBody) | RequestFailed | OtherFailure

  const DefaultDisplay: int := 100

  /** The request for one company: newest first, starting at the first hit. */
  function SearchRequest(company: string, display: int): (q: NaverRequest)
    ensures q.query == company && q.display == display
    ensures q.start == 1 && q.sort == "date"
  {
    NaverRequest(company, display, 1, "date")
  }

  // ---------------------------------------------------------------------
  // Markup removal: `re.sub('<.*?>', '', text)`
  // ---------------------------------------------------------------------

  /** Index of the first `>` or line break in `s`, or `|s|` when there is none. */
  function FirstStop(s: string): (k: nat)
    ensures k <= |s|
    decreases |s|
  {
    if |s| == 0 then 0
    else if s[0] == '>' || s[0] == '\n' then 0
    else 1 + FirstStop(s[1..])
  }

  /**
   * The text after a `<` closes a tag: a `>` comes before any line break
   * (the `.` of the pattern does not match a line break).
   */
  predicate ClosesTag(s: string) {
    FirstStop(s) < |s| && s[FirstStop(s)] == '>'
  }

  /** No `<` in `s` starts a match of the tag pattern. */
  predicate NoTag(s: string) {
    forall i | 0 <= i < |s| && s[i] == '<' :: !ClosesTag(s[i + 1..])
  }

  /**
   * `_clean_html_tags`: scanning left to right, each `<` that closes a tag
   * is removed together with everything up to and including the first `>`;
   * every other character is kept.
   */
  function CleanHtmlTags(s: string): (r: string)
    ensures |r| <= |s|
    decreases |s|
  {
    if |s| == 0 then ""
    else if s[0] == '<' && ClosesTag(s[1..]) then CleanHtmlTags(s[1..][FirstStop(s[1..]) + 1..])
    else [s[0]] + CleanHtmlTags(s[1..])
  }

  /** Cleaning only deletes characters: the result is a subsequence of the input. */
  lemma {:induction false} CleanHtmlTagsSubseq(s: string)
    ensures IsSubseq(CleanHtmlTags(s), s)
    decreases |s|
  {
    if |s| > 0 {
      if s[0] == '<' && ClosesTag(s[1..]) {
        var k := FirstStop(s[1..]) + 1;
        CleanHtmlTagsSubseq(s[1..][k..]);
        assert s[1..][k..] == s[k + 1..];
        SubseqDropFront(CleanHtmlTags(s[k + 1..]), s, k + 1);
      } else {
        CleanHtmlTagsSubseq(s[1..]);
        SubseqCons(s[0], CleanHtmlTags(s[1..]), s[1..]);
        assert [s[0]] + s[1..] == s;
      }
    }
  }

  /** Text that does not close a tag keeps that property once cleaned. */
  lemma {:induction false} CleanKeepsOpenTag(t: string)
    requires !ClosesTag(t)
    ensures !ClosesTag(CleanHtmlTags(t))
    decreases |t|
  {
    if |t| > 0 && t[0] != '\n' {
      assert FirstStop(t) == 1 + FirstStop(t[1..]);
      assert !ClosesTag(t[1..]) by {
        if FirstStop(t[1..]) < |t[1..]| {
          assert t[1..][FirstStop(t[1..])] == t[FirstStop(t)];
        }
      }
      CleanKeepsOpenTag(t[1..]);
      var c := CleanHtmlTags(t[1..]);
      assert CleanHtmlTags(t) == [t[0]] + c;
      assert FirstStop([t[0]] + c) == 1 + FirstStop(c) by {
        assert ([t[0]] + c)[1..] == c;
      }
      if FirstStop(c) < |c| {
        assert ([t[0]] + c)[1 + FirstStop(c)] == c[FirstStop(c)];
      }
    } else if |t| > 0 {
      assert CleanHtmlTags(t) == ['\n'] + CleanHtmlTags(t[1..]);
    }
  }

  /** Prefixing a character that is not `<` keeps a text free of tags. */
  lemma ConsKeepsNoTag(c: char, s: string)
    requires NoTag(s)
    requires c == '<' ==> !ClosesTag(s)
    ensures NoTag([c] + s)
  {
    var t := [c] + s;
    forall i | 0 <= i < |t| && t[i] == '<'
      ensures !ClosesTag(t[i + 1..])
    {
      if i == 0 {
        assert t[1..] == s;
      } else {
        assert t[i + 1..] == s[i..];
        assert s[i - 1] == '<';
      }
    }
  }

  /** After cleaning no tag is left. */
  lemma {:induction false} CleanHtmlTagsNoTag(s: string)
    ensures NoTag(CleanHtmlTags(s))
    decreases |s|
  {
    if |s| > 0 {
      if s[0] == '<' && ClosesTag(s[1..]) {
        CleanHtmlTagsNoTag(s[1..][FirstStop(s[1..]) + 1..]);
      } else {
        CleanHtmlTagsNoTag(s[1..]);
        if s[0] == '<' {
          CleanKeepsOpenTag(s[1..]);
        }
        ConsKeepsNoTag(s[0], CleanHtmlTags(s[1..]));
      }
    }
  }

  /** Text without tags is left exactly as it is. */
  lemma {:induction false} NoTagIsFixedPoint(s: string)
    requires NoTag(s)
    ensures CleanHtmlTags(s) == s
    decreases |s|
  {
    if |s| > 0 {
      assert NoTag(s[1..]) by {
        forall i | 0 <= i < |s[1..]| && s[1..][i] == '<'
          ensures !ClosesTag(s[1..][i + 1..])
        {
          assert s[1..][i + 1..] == s[i + 2..];
        }
      }
      NoTagIsFixedPoint(s[1..]);
      assert [s[0]] + s[1..] == s;
    }
  }

  /** Cleaning twice is cleaning once. */
  lemma CleanHtmlTagsIdempotent(s: string)
    ensures CleanHtmlTags(CleanHtmlTags(s)) == CleanHtmlTags(s)
  {
    CleanHtmlTagsNoTag(s);
    NoTagIsFixedPoint(CleanHtmlTags(s));
  }

  /** Text without any `<` passes through unchanged. */
  lemma NoAngleUnchanged(s: string)
    requires '<' !in s
    ensures CleanHtmlTags(s) == s
  {
    NoTagIsFixedPoint(s);
  }

  /** A bold-marked word loses its markup. */
  lemma BoldMarkupRemoved()
    ensures CleanHtmlTags("<b>AI</b>") == "AI"
  {
    var s := "<b>AI</b>";
    assert FirstStop(s[1..]) == 1;
    assert s[1..][2..] == "AI</b>";
    var t := "AI</b>";
    assert t[2..] == "</b>";
    var u := "</b>";
    assert u[1..] == "/b>" && "/b>"[1..] == "b>" && "b>"[1..] == ">";
    assert FirstStop(">") == 0;
    assert FirstStop("b>") == 1;
    assert FirstStop(u[1..]) == 2;
    assert u[1..][3..] == "";
  }

  // ---------------------------------------------------------------------
  // fetch_news_for_company
  // ---------------------------------------------------------------------

  /** One item as a news dictionary: company attached, markup stripped, missing keys as "". */
  function ProcessItem(company: string, item: NaverItem): (n: NewsItem)
    ensures n.company == company
    ensures n.title == CleanHtmlTags(item.title.GetOr(""))
    ensures n.description == CleanHtmlTags(item.description.GetOr(""))
    ensures n.link == item.link.GetOr("") && n.pubDate == item.pubDate.GetOr("")
    ensures n.matchedKeywords.None? && n.classification.None? && n.category.None?
  {
    NewsItem(company,
      CleanHtmlTags(item.title.GetOr("")),
      CleanHtmlTags(item.description.GetOr("")),
      item.link.GetOr(""),
      item.pubDate.GetOr(""),
      None, None, None)
  }

  /** `raise_for_status` raises for client and server errors only. */
  predicate IsHttpError(status: int) {
    400 <= status < 600
  }

  /**
   * `fetch_news_for_company`: a 401, any HTTP error status, a transport error
   * or any other exception gives no news; otherwise every entry of `items`
   * becomes one news dictionary, in order.
   */
  function FetchNewsForCompany(company: string, display: int, naver: NaverRequest -> NaverOutcome): (r: seq<NewsItem>)
    ensures forall y | y in r :: y.company == company
  {
    match naver(SearchRequest(company, display))
    case Responded(status, body) =>
      if status == 401 || IsHttpError(status) then []
      else if body.Items? then MapSeq(item => ProcessItem(company, item), body.items)
      else []
    case RequestFailed => []
    case OtherFailure => []
  }

  /**
   * The adapter returns news exactly when the service answered with a status
   * that is not an error and a body carrying items; then it returns one per item.
   */
  lemma FetchNewsCases(company: string, display: int, naver: NaverRequest -> NaverOutcome)
    ensures var out := naver(SearchRequest(company, display));
      var r := FetchNewsForCompany(company, display, naver);
      if out.Responded? && !IsHttpError(out.status) && out.body.Items?
      then |r| == |out.body.items|
        && forall i | 0 <= i < |r| :: r[i] == ProcessItem(company, out.body.items[i])
      else r == []
  {
  }

  /** Titles and descriptions of fetched news carry no markup. */
  lemma FetchedNewsHasNoTags(company: string, display: int, naver: NaverRequest -> NaverOutcome)
    ensures forall y | y in FetchNewsForCompany(company, display, naver) :: NoTag(y.title) && NoTag(y.description)
  {
    forall y | y in FetchNewsForCompany(company, display, naver)
      ensures NoTag(y.title) && NoTag(y.description)
    {
      var out := naver(SearchRequest(company, display));
      var items := out.body.items;
      var i :| 0 <= i < |items| && y == ProcessItem(company, items[i]);
      CleanHtmlTagsNoTag(items[i].title.GetOr(""));
      CleanHtmlTagsNoTag(items[i].description.GetOr(""));
    }
  }
}
