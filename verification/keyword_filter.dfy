/**
 * The first-pass keyword filter: a fixed lexicon matched against each
 * lower-cased title by substring containment.
 */
module KeywordFilter {
  import opened Outcomes
  import opened Text
  import opened Seqs
  import opened News

  /** The lexicon, in the order its entries are reported (one literal per source line). */
  const ImportantKeywords: seq<string> :=
    ["가상자산", "감사보고서", "강화", "강세", "개최", "거래", "거짓", "게임 매출", "결과", "결의", "결정", "계약", "계약 체결", "공개"]
    + ["공매도", "공시", "기술", "기록", "규탄", "갱신", "기각", "급등"]
    + ["누적", "단행", "달성", "대비", "대표이사", "돌파", "론칭"]
    + ["매입", "매출", "매출액", "매수세", "미공개"]
    + ["메타버스", "발행", "베타", "변동", "부진", "북미", "분기", "법적 대응", "법적"]
    + ["블록체인", "비용", "사업", "사외이사", "사전", "사전 예약", "사전예약", "상장", "상장폐지", "상승 마감"]
    + ["상향", "상향 조정", "선임", "선정", "설립", "소각", "소송", "소집", "수혜"]
    + ["순손실", "신규", "신작"]
    + ["실적", "실적발표", "업데이트", "영업손실", "영업이익", "예약", "예정", "예고", "오픈", "온라인", "온보딩"]
    + ["완료", "위믹스", "유상증자", "유지", "이상", "인건비", "인수", "자기주식"]
    + ["자사주", "자본", "자본 잠식", "적자전환", "전략", "전환", "장중", "잠식"]
    + ["정기주주총회", "정식", "제출", "조정", "종가", "주당", "주식회사", "주요", "주주총회", "주총", "중국"]
    + ["증가", "지급", "지분", "지속", "지속가능경영보고서", "참가"]
    + ["참여", "처분", "체결", "최대", "최초", "추진", "출시", "취득", "테스트"]
    + ["투자", "투자 단행", "파트너십", "파트너십 체결", "판호", "퍼블리싱", "퍼블리싱 계약"]
    + ["한한령", "항소", "항고", "하향", "하락", "합병", "현금배당", "협력", "협약", "협약 체결", "확대", "확장"]
    + ["획득", "흑자전환", "흥행"]
    + ["ESG", "%", "DLC", "1위", "ai", "cbt", "ip", "mou", "nft"]

  /** A lexicon entry matches a title when its lower-cased form is a substring of the lower-cased title. */
  predicate Hit(keyword: string, title: string) {
    Contains(Lower(title), Lower(keyword))
  }

  /** The entries of `lexicon` that match `title`, in lexicon order and spelled as in the lexicon. */
  function MatchesIn(lexicon: seq<string>, title: string): (r: seq<string>)
    ensures |r| <= |lexicon|
    decreases |lexicon|
  {
    if |lexicon| == 0 then []
    else
      var rest := MatchesIn(lexicon[1..], title);
      if Hit(lexicon[0], title) then [lexicon[0]] + rest else rest
  }

  /** The matches are the lexicon's matching entries: in order, and nothing else. */
  lemma {:induction false} MatchesInSpec(lexicon: seq<string>, title: string)
    ensures IsSubseq(MatchesIn(lexicon, title), lexicon)
    ensures forall k :: k in MatchesIn(lexicon, title) <==> k in lexicon && Hit(k, title)
    decreases |lexicon|
  {
    if |lexicon| > 0 {
      var rest := MatchesIn(lexicon[1..], title);
      MatchesInSpec(lexicon[1..], title);
      SubseqCons(lexicon[0], rest, lexicon[1..]);
      assert [lexicon[0]] + lexicon[1..] == lexicon;
    }
  }

  /** The `matched_keywords` list computed for a title. */
  function MatchedKeywords(title: string): seq<string> {
    MatchesIn(ImportantKeywords, title)
  }

  predicate HasKeyword(news: NewsItem) {
    |MatchedKeywords(news.title)| > 0
  }

  /** The item with `matched_keywords` set for its title; every other field is kept. */
  function Annotate(news: NewsItem): NewsItem {
    news.(matchedKeywords := Some(MatchedKeywords(news.title)))
  }

  /**
   * `filter_by_keywords`: keeps, in order, the items whose title matches at
   * least one entry, each with `matched_keywords` attached.
   */
  function FilterByKeywords(news: seq<NewsItem>): (r: seq<NewsItem>)
    ensures |r| <= |news|
    decreases |news|
  {
    if |news| == 0 then []
    else
      var rest := FilterByKeywords(news[1..]);
      if HasKeyword(news[0]) then [Annotate(news[0])] + rest else rest
  }

  /**
   * The kept items are the annotated inputs, in order; an input is kept
   * exactly when its title matches; every kept item carries its own matches.
   */
  lemma {:induction false} FilterByKeywordsSpec(news: seq<NewsItem>)
    ensures IsSubseq(FilterByKeywords(news), MapSeq(Annotate, news))
    ensures forall x | x in news :: Annotate(x) in FilterByKeywords(news) <==> HasKeyword(x)
    ensures forall y | y in FilterByKeywords(news) :: y.matchedKeywords == Some(MatchedKeywords(y.title)) && HasKeyword(y)
    decreases |news|
  {
    if |news| > 0 {
      var rest := FilterByKeywords(news[1..]);
      FilterByKeywordsSpec(news[1..]);
      assert MapSeq(Annotate, news) == [Annotate(news[0])] + MapSeq(Annotate, news[1..]);
      SubseqCons(Annotate(news[0]), rest, MapSeq(Annotate, news[1..]));
    }
  }

  /** Every kept item is an input item with its matches attached. */
  lemma FilterByKeywordsOrigin(news: seq<NewsItem>, y: NewsItem)
    requires y in FilterByKeywords(news)
    ensures exists x | x in news :: y == Annotate(x) && HasKeyword(x)
  {
    FilterByKeywordsSpec(news);
    SubseqMembership(FilterByKeywords(news), MapSeq(Annotate, news), y);
  }

  /** Filtering the filter's output again keeps every item, with the same `matched_keywords`. */
  lemma {:induction false} FilterByKeywordsIdempotent(news: seq<NewsItem>)
    ensures FilterByKeywords(FilterByKeywords(news)) == FilterByKeywords(news)
    decreases |news|
  {
    if |news| > 0 {
      var rest := FilterByKeywords(news[1..]);
      FilterByKeywordsIdempotent(news[1..]);
      if HasKeyword(news[0]) {
        var a := Annotate(news[0]);
        assert Annotate(a) == a;
        var r := [a] + rest;
        assert r[0] == a && r[1..] == rest;
      }
    }
  }

  /** A lexicon entry contained in a matching entry matches too. */
  lemma MatchClosedUnderSubstring(lexicon: seq<string>, title: string, entry: string, smaller: string)
    requires entry in MatchesIn(lexicon, title)
    requires smaller in lexicon
    requires Contains(Lower(entry), Lower(smaller))
    ensures smaller in MatchesIn(lexicon, title)
  {
    MatchesInSpec(lexicon, title);
    ContainsTransitive(Lower(title), Lower(entry), Lower(smaller));
  }

  /** A title matching "사전 예약" (pre-registration) also reports "예약" (reservation). */
  lemma PreRegistrationImpliesReservation(title: string)
    requires "사전 예약" in MatchedKeywords(title)
    ensures "예약" in MatchedKeywords(title)
  {
    assert Lower("예약") == "예약";
    assert Lower("사전 예약") == "사전 예약";
    assert Contains("사전 예약", "예약");
    MatchClosedUnderSubstring(ImportantKeywords, title, "사전 예약", "예약");
  }

  /** Case is ignored when matching, but the entry is reported as the lexicon spells it. */
  lemma EsgReportedAsSpelled(title: string)
    requires Contains(Lower(title), "esg")
    ensures "ESG" in MatchedKeywords(title)
  {
    assert Lower("ESG") == "esg";
    MatchesInSpec(ImportantKeywords, title);
  }
}
