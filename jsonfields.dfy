/** The JSON field extractors of the current site service: cover images,
    title, price, description and goods read from a response body. A
    candidate "first;second" reaches a value with the cascade "first": its
    first label is looked up in the body, the others with iterativeJSON.
    When "second" is non-empty the value is taken as a list: every element
    at positions 0 .. Size - 1 is narrowed by the cascade "second", and an
    element whose narrowed value is not legal is skipped. The first
    candidate that yields anything wins. */
module JsonFields {
  import opened Wrappers
  import opened GoText
  import opened Seqs
  import opened Markup
  import opened JsonAny
  import opened Cascade
  import opened Resource
  import opened HtmlFields

  // ----- the values of a candidate -----

  /** The value the part before ';' reaches from the body. */
  function BaseValue(body: Body, labelList: seq<string>): Json
    requires |labelList| >= 1
  {
    var labels := Split(labelList[0], LabelSeparate);
    CascadeJSON(Get(body.root, labels[0]), labels[1..])
  }

  /** Whether the part after ';' names a list level. */
  predicate Listed(labelList: seq<string>) {
    |labelList| > 1 && labelList[1] != ""
  }

  /** What list element i gives: its narrowing, when legal. */
  function ItemValue(base: Json, labels: seq<string>, i: nat): (r: seq<Json>)
    ensures |r| <= 1 && forall v :: v in r ==> JsonLegal(v)
  {
    var it := CascadeJSON(At(base, i), labels);
    if JsonLegal(it) then [it] else []
  }

  /** The legal narrowings of the first n list elements, in order. */
  function ListItems(base: Json, labels: seq<string>, n: nat): (items: seq<Json>)
    ensures |items| <= n
    ensures forall v :: v in items ==> JsonLegal(v)
  {
    if n == 0 then [] else ListItems(base, labels, n - 1) + ItemValue(base, labels, n - 1)
  }

  /** The values one candidate reads: none when the base value is not legal,
      the legal list narrowings when the candidate has a list level, and the
      base value otherwise. */
  function Values(body: Body, selector: string): (vs: seq<Json>)
    ensures forall v :: v in vs ==> JsonLegal(v)
  {
    var labelList := Split(selector, ListSeparate);
    var base := BaseValue(body, labelList);
    if !JsonLegal(base) then []
    else if Listed(labelList) then ListItems(base, Split(labelList[1], LabelSeparate), Size(base))
    else [base]
  }

  /** A candidate without a list level reads at most its base value, and a
      candidate with one reads at most one value per element. */
  lemma ValuesCount(body: Body, selector: string)
    ensures var labelList := Split(selector, ListSeparate);
      var base := BaseValue(body, labelList);
      (!Listed(labelList) ==> Values(body, selector) == (if JsonLegal(base) then [base] else []))
      && (Listed(labelList) ==> |Values(body, selector)| <= Size(base))
  {
  }

  /** The list loop each JSON extractor carries. */
  method ListValues(base: Json, listPart: string) returns (items: seq<Json>)
    ensures items == ListItems(base, Split(listPart, LabelSeparate), Size(base))
  {
    var labels := Split(listPart, LabelSeparate);
    var iterNum := Size(base);
    items := [];
    var i := 0;
    while i < iterNum
      invariant 0 <= i <= iterNum
      invariant items == ListItems(base, labels, i)
    {
      var iter := IterativeJSON(At(base, i), labels);
      if JsonLegal(iter) {
        items := items + [iter];
      }
      i := i + 1;
    }
  }

  /** The lookups before the per-field work: base value, legality, list
      level. */
  method CandidateValues(body: Body, selector: string) returns (vs: seq<Json>)
    ensures vs == Values(body, selector)
  {
    var labelList := Split(selector, ListSeparate);
    var labels := Split(labelList[0], LabelSeparate);
    var jIter := Get(body.root, labels[0]);
    jIter := IterativeJSON(jIter, labels[1..]);
    if !JsonLegal(jIter) {
      return [];
    }
    if |labelList| > 1 && |labelList[1]| > 0 {
      vs := ListValues(jIter, labelList[1]);
    } else {
      vs := [jIter];
    }
  }

  // ----- cover -----

  function URLOfValue(page: Page): Json -> string {
    (v: Json) => GetResourceURL(ToString(v), page)
  }

  function CoversOfCandidate(body: Body, page: Page, selector: string): seq<string> {
    Map(Values(body, selector), URLOfValue(page))
  }

  function CoverCandidate(body: Body, page: Page): string -> seq<string> {
    (selector: string) => CoversOfCandidate(body, page, selector)
  }

  /** The list parseCoverImagesJSON returns. */
  function CoverJSON(body: Body, page: Page, selectors: seq<string>): seq<string> {
    FirstHit(selectors, CoverCandidate(body, page))
  }

  method URLsOfValues(vs: seq<Json>, page: Page) returns (images: seq<string>)
    ensures images == Map(vs, URLOfValue(page))
  {
    images := [];
    var i := 0;
    while i < |vs|
      invariant 0 <= i <= |vs|
      invariant images == Map(vs[..i], URLOfValue(page))
    {
      MapPrefix(vs, i, URLOfValue(page));
      images := images + [GetResourceURL(ToString(vs[i]), page)];
      i := i + 1;
    }
    assert vs[..|vs|] == vs;
  }

  /** parseCoverImagesJSON */
  method ParseCoverImagesJSON(body: Body, page: Page, selectors: seq<string>) returns (images: seq<string>)
    ensures images == CoverJSON(body, page, selectors)
  {
    var i := 0;
    while i < |selectors|
      invariant 0 <= i <= |selectors|
      invariant FirstHit(selectors[i..], CoverCandidate(body, page)) == CoverJSON(body, page, selectors)
    {
      var vs := CandidateValues(body, selectors[i]);
      var found := URLsOfValues(vs, page);
      if |found| > 0 {
        FirstHitHere(selectors, i, CoverCandidate(body, page));
        return found;
      }
      FirstHitSkip(selectors, i, CoverCandidate(body, page));
      i := i + 1;
    }
    return [];
  }

  /** Every legal value gives a URL, even one normalised to "": the cover
      list is empty exactly when no candidate reads any value, and the
      first candidate that reads values gives one URL per value. */
  lemma CoverJSONEmptyIff(body: Body, page: Page, selectors: seq<string>)
    ensures CoverJSON(body, page, selectors) == [] <==>
      forall k :: 0 <= k < |selectors| ==> Values(body, selectors[k]) == []
    ensures |selectors| > 0 && Values(body, selectors[0]) != [] ==>
      CoverJSON(body, page, selectors) == Map(Values(body, selectors[0]), URLOfValue(page))
  {
    FirstHitSpec(selectors, CoverCandidate(body, page));
    assert forall k :: 0 <= k < |selectors| ==>
      (CoverCandidate(body, page)(selectors[k]) == [] <==> Values(body, selectors[k]) == []);
  }

  /** Every cover URL is normalised: no line break and no query. */
  lemma CoverJSONClean(body: Body, page: Page, selectors: seq<string>)
    ensures forall u :: u in CoverJSON(body, page, selectors) ==> '\r' !in u && '\n' !in u && '?' !in u
  {
    FirstHitSpec(selectors, CoverCandidate(body, page));
    var r := CoverJSON(body, page, selectors);
    if r != [] {
      var k :| 0 <= k < |selectors| && r == CoverCandidate(body, page)(selectors[k]);
      URLsClean(Values(body, selectors[k]), page);
    }
  }

  lemma URLsClean(vs: seq<Json>, page: Page)
    ensures forall u :: u in Map(vs, URLOfValue(page)) ==> '\r' !in u && '\n' !in u && '?' !in u
  {
    var r := Map(vs, URLOfValue(page));
    forall u | u in r ensures '\r' !in u && '\n' !in u && '?' !in u {
      var i :| 0 <= i < |r| && r[i] == u;
      assert u == GetResourceURL(ToString(vs[i]), page);
    }
  }

  // ----- title -----

  function TrimmedString(v: Json): string {
    TrimSpace(ToString(v))
  }

  function TrimmedStringFn(): Json -> string {
    (v: Json) => TrimmedString(v)
  }

  /** What parseTitleJSON makes of one candidate: the trimmed renderings
      of its values joined with ",". Blank renderings are kept. */
  function TitleOfCandidate(body: Body, selector: string): string {
    Join(Map(Values(body, selector), TrimmedStringFn()), ",")
  }

  function TitleCandidate(body: Body): string -> string {
    (selector: string) => TitleOfCandidate(body, selector)
  }

  /** The string parseTitleJSON returns. */
  function TitleJSON(body: Body, selectors: seq<string>): string {
    FirstHit(selectors, TitleCandidate(body))
  }

  method TrimmedStrings(vs: seq<Json>) returns (titles: seq<string>)
    ensures titles == Map(vs, TrimmedStringFn())
  {
    titles := [];
    var i := 0;
    while i < |vs|
      invariant 0 <= i <= |vs|
      invariant titles == Map(vs[..i], TrimmedStringFn())
    {
      MapPrefix(vs, i, TrimmedStringFn());
      titles := titles + [TrimSpace(ToString(vs[i]))];
      i := i + 1;
    }
    assert vs[..|vs|] == vs;
  }

  /** parseTitleJSON */
  method ParseTitleJSON(body: Body, selectors: seq<string>) returns (title: string)
    ensures title == TitleJSON(body, selectors)
  {
    var i := 0;
    while i < |selectors|
      invariant 0 <= i <= |selectors|
      invariant FirstHit(selectors[i..], TitleCandidate(body)) == TitleJSON(body, selectors)
    {
      var vs := CandidateValues(body, selectors[i]);
      var titles := TrimmedStrings(vs);
      var joined := Join(titles, ",");
      if |joined| > 0 {
        FirstHitHere(selectors, i, TitleCandidate(body));
        return joined;
      }
      FirstHitSkip(selectors, i, TitleCandidate(body));
      i := i + 1;
    }
    return "";
  }

  /** A join of two or more pieces holds its separator, so it is never
      empty. */
  lemma JoinOfMany(xs: seq<string>, sep: string)
    requires |xs| >= 2 && sep != ""
    ensures Join(xs, sep) != ""
  {
    assert Join(xs, sep) == xs[0] + sep + Join(xs[1..], sep);
  }

  /** A candidate gives no title exactly when it reads no value, or a
      single value whose rendering is blank: with two or more values the
      separators alone make the title non-empty. */
  lemma TitleOfCandidateEmptyIff(body: Body, selector: string)
    ensures var vs := Values(body, selector);
      TitleOfCandidate(body, selector) == "" <==> |vs| == 0 || (|vs| == 1 && TrimmedString(vs[0]) == "")
  {
    var vs := Values(body, selector);
    if |vs| >= 2 {
      JoinOfMany(Map(vs, TrimmedStringFn()), ",");
    }
  }

  // ----- price -----

  /** The price one value gives: the trimmed text of the document its
      rendering parses to, unless blank. */
  function PriceText(dom: Dom, v: Json): seq<string> {
    TrimmedText(dom, [dom.parse(ToString(v))])
  }

  function PriceTextFn(dom: Dom): Json -> seq<string> {
    (v: Json) => PriceText(dom, v)
  }

  function Prices(dom: Dom, body: Body, selector: string): seq<string> {
    FlatMap(Values(body, selector), PriceTextFn(dom))
  }

  function PriceOfCandidate(dom: Dom, body: Body, selector: string): string {
    Join(Prices(dom, body, selector), ",")
  }

  function PriceCandidate(dom: Dom, body: Body): string -> string {
    (selector: string) => PriceOfCandidate(dom, body, selector)
  }

  /** The string parsePriceJSON returns. */
  function PriceJSON(dom: Dom, body: Body, selectors: seq<string>): string {
    FirstHit(selectors, PriceCandidate(dom, body))
  }

  /** The loop over the price fragments. */
  method PricesOf(dom: Dom, vs: seq<Json>) returns (prices: seq<string>)
    ensures prices == FlatMap(vs, PriceTextFn(dom))
  {
    prices := [];
    var i := 0;
    while i < |vs|
      invariant 0 <= i <= |vs|
      invariant prices == FlatMap(vs[..i], PriceTextFn(dom))
    {
      FlatMapPrefix(vs, i, PriceTextFn(dom));
      var doc := dom.parse(ToString(vs[i]));
      var text := TrimSpace(Text(dom, [doc]));
      if |text| > 0 {
        prices := prices + [text];
      }
      i := i + 1;
    }
    assert vs[..|vs|] == vs;
  }

  /** parsePriceJSON */
  method ParsePriceJSON(dom: Dom, body: Body, selectors: seq<string>) returns (price: string)
    ensures price == PriceJSON(dom, body, selectors)
  {
    var i := 0;
    while i < |selectors|
      invariant 0 <= i <= |selectors|
      invariant FirstHit(selectors[i..], PriceCandidate(dom, body)) == PriceJSON(dom, body, selectors)
    {
      var vs := CandidateValues(body, selectors[i]);
      var prices := PricesOf(dom, vs);
      var joined := Join(prices, ",");
      if |joined| > 0 {
        FirstHitHere(selectors, i, PriceCandidate(dom, body));
        return joined;
      }
      FirstHitSkip(selectors, i, PriceCandidate(dom, body));
      i := i + 1;
    }
    return "";
  }

  /** A price is either empty or neither starts nor ends with white space. */
  lemma PriceJSONTrimmed(dom: Dom, body: Body, selectors: seq<string>)
    ensures var r := PriceJSON(dom, body, selectors); r == "" || Trimmed(r)
  {
    FirstHitSpec(selectors, PriceCandidate(dom, body));
    var r := PriceJSON(dom, body, selectors);
    if r != "" {
      var k :| 0 <= k < |selectors| && r == PriceCandidate(dom, body)(selectors[k]);
      JoinedPricesTrimmed(dom, Values(body, selectors[k]));
    }
  }

  /** Every price piece is non-blank and trimmed, and so is their join
      unless there are none. */
  lemma JoinedPricesTrimmed(dom: Dom, vs: seq<Json>)
    ensures var pieces := FlatMap(vs, PriceTextFn(dom));
      (forall j :: 0 <= j < |pieces| ==> Trimmed(pieces[j]))
      && (Join(pieces, ",") == "" <==> pieces == [])
      && (pieces != [] ==> Trimmed(Join(pieces, ",")))
  {
    var pieces := FlatMap(vs, PriceTextFn(dom));
    forall i | 0 <= i < |vs| ensures forall y :: y in PriceTextFn(dom)(vs[i]) ==> Trimmed(y) {
      TrimmedTextTrimmed(dom, [dom.parse(ToString(vs[i]))]);
    }
    FlatMapFrom(vs, PriceTextFn(dom), Trimmed);
    forall j | 0 <= j < |pieces| ensures Trimmed(pieces[j]) {
      assert pieces[j] in pieces;
    }
    JoinEmptyIff(pieces, ",");
    if pieces != [] {
      JoinEnds(pieces, ",");
    }
  }

  /** No price is found exactly when no value of any candidate renders to
      a document with non-blank text. */
  lemma PriceJSONEmptyIff(dom: Dom, body: Body, selectors: seq<string>)
    ensures PriceJSON(dom, body, selectors) == "" <==>
      forall k :: 0 <= k < |selectors| ==> Prices(dom, body, selectors[k]) == []
  {
    FirstHitSpec(selectors, PriceCandidate(dom, body));
    forall k | 0 <= k < |selectors|
      ensures PriceCandidate(dom, body)(selectors[k]) == "" <==> Prices(dom, body, selectors[k]) == []
    {
      JoinedPricesTrimmed(dom, Values(body, selectors[k]));
    }
  }

  // ----- description -----

  function DescOfValue(dom: Dom, page: Page): Json -> seq<string> {
    (v: Json) => SplitDesc(dom, ToString(v), page)
  }

  function DescOfCandidate(dom: Dom, body: Body, page: Page, selector: string): seq<string> {
    FlatMap(Values(body, selector), DescOfValue(dom, page))
  }

  function DescCandidate(dom: Dom, body: Body, page: Page): string -> seq<string> {
    (selector: string) => DescOfCandidate(dom, body, page, selector)
  }

  /** The list parseDescJSON returns. */
  function DescJSON(dom: Dom, body: Body, page: Page, selectors: seq<string>): seq<string> {
    FirstHit(selectors, DescCandidate(dom, body, page))
  }

  /** The loop over the description fragments. */
  method DescsOf(dom: Dom, vs: seq<Json>, page: Page) returns (dataInfos: seq<string>)
    ensures dataInfos == FlatMap(vs, DescOfValue(dom, page))
  {
    dataInfos := [];
    var i := 0;
    while i < |vs|
      invariant 0 <= i <= |vs|
      invariant dataInfos == FlatMap(vs[..i], DescOfValue(dom, page))
    {
      FlatMapPrefix(vs, i, DescOfValue(dom, page));
      var descs := SplitDescHTMLParse(dom, ToString(vs[i]), page);
      dataInfos := dataInfos + descs;
      i := i + 1;
    }
    assert vs[..|vs|] == vs;
  }

  /** parseDescJSON */
  method ParseDescJSON(dom: Dom, body: Body, page: Page, selectors: seq<string>) returns (descs: seq<string>)
    ensures descs == DescJSON(dom, body, page, selectors)
  {
    var i := 0;
    while i < |selectors|
      invariant 0 <= i <= |selectors|
      invariant FirstHit(selectors[i..], DescCandidate(dom, body, page)) == DescJSON(dom, body, page, selectors)
    {
      var vs := CandidateValues(body, selectors[i]);
      var found := DescsOf(dom, vs, page);
      if |found| > 0 {
        FirstHitHere(selectors, i, DescCandidate(dom, body, page));
        return found;
      }
      FirstHitSkip(selectors, i, DescCandidate(dom, body, page));
      i := i + 1;
    }
    return [];
  }

  /** A JSON description is read the way an HTML one is: a candidate
      without a list level gives splitDescHTMLParse of its value's
      rendering, so the lines of that rendering are described one by one. */
  lemma DescOfCandidateLines(dom: Dom, body: Body, page: Page, selector: string, a: string, b: string)
    requires var labelList := Split(selector, ListSeparate);
      !Listed(labelList) && ToString(BaseValue(body, labelList)) == a + "\n" + b
    ensures DescOfCandidate(dom, body, page, selector) == SplitDesc(dom, a, page) + SplitDesc(dom, b, page)
  {
    var labelList := Split(selector, ListSeparate);
    var base := BaseValue(body, labelList);
    assert Values(body, selector) == [base];
    FlatMapSingle(base, DescOfValue(dom, page));
    SplitDescLines(dom, page, a, b);
  }

  // ----- goods -----

  /** The goods row one value gives: [page MD5, rendering, ""] unless the
      rendering is empty. */
  function GoodOfValue(urlMD5: string, v: Json): seq<seq<string>> {
    var text := ToString(v);
    if |text| > 0 then [[urlMD5, text, ""]] else []
  }

  function GoodOfValueFn(urlMD5: string): Json -> seq<seq<string>> {
    (v: Json) => GoodOfValue(urlMD5, v)
  }

  function GoodsOfCandidate(body: Body, urlMD5: string, selector: string): seq<seq<string>> {
    FlatMap(Values(body, selector), GoodOfValueFn(urlMD5))
  }

  function GoodCandidate(body: Body, urlMD5: string): string -> seq<seq<string>> {
    (selector: string) => GoodsOfCandidate(body, urlMD5, selector)
  }

  /** The rows parseGoodJSON returns. */
  function GoodJSON(body: Body, page: Page, md5: string -> string, selectors: seq<string>): seq<seq<string>> {
    FirstHit(selectors, GoodCandidate(body, md5(page.url)))
  }

  method GoodsOf(vs: seq<Json>, urlMD5: string) returns (dataInfos: seq<seq<string>>)
    ensures dataInfos == FlatMap(vs, GoodOfValueFn(urlMD5))
  {
    dataInfos := [];
    var i := 0;
    while i < |vs|
      invariant 0 <= i <= |vs|
      invariant dataInfos == FlatMap(vs[..i], GoodOfValueFn(urlMD5))
    {
      FlatMapPrefix(vs, i, GoodOfValueFn(urlMD5));
      var text := ToString(vs[i]);
      if |text| > 0 {
        dataInfos := dataInfos + [[urlMD5, text, ""]];
      }
      i := i + 1;
    }
    assert vs[..|vs|] == vs;
  }

  /** parseGoodJSON */
  method ParseGoodJSON(body: Body, page: Page, md5: string -> string, selectors: seq<string>)
    returns (goods: seq<seq<string>>)
    ensures goods == GoodJSON(body, page, md5, selectors)
  {
    var urlMD5 := md5(page.url);
    var i := 0;
    while i < |selectors|
      invariant 0 <= i <= |selectors|
      invariant FirstHit(selectors[i..], GoodCandidate(body, urlMD5)) == GoodJSON(body, page, md5, selectors)
    {
      var vs := CandidateValues(body, selectors[i]);
      var found := GoodsOf(vs, urlMD5);
      if |found| > 0 {
        FirstHitHere(selectors, i, GoodCandidate(body, urlMD5));
        return found;
      }
      FirstHitSkip(selectors, i, GoodCandidate(body, urlMD5));
      i := i + 1;
    }
    return [];
  }

  /** Every value read is legal, so each gives exactly one row: the rows
      are the values' renderings, in order, with the page MD5 and an empty
      image. */
  lemma {:induction false} GoodsOfValues(vs: seq<Json>, urlMD5: string)
    requires forall v :: v in vs ==> JsonLegal(v)
    ensures var rows := FlatMap(vs, GoodOfValueFn(urlMD5));
      |rows| == |vs| && forall i :: 0 <= i < |vs| ==> rows[i] == [urlMD5, ToString(vs[i]), ""]
  {
    if |vs| > 0 {
      var init := vs[..|vs| - 1];
      assert forall v :: v in init ==> v in vs;
      GoodsOfValues(init, urlMD5);
      assert vs[|vs| - 1] in vs;
    }
  }

  /** The goods of parseGoodJSON are the renderings of the values of the
      first candidate that reads any, each as [page MD5, rendering, ""]. */
  lemma GoodJSONRows(body: Body, page: Page, md5: string -> string, selectors: seq<string>)
    ensures var r := GoodJSON(body, page, md5, selectors);
      r != [] ==> exists k :: 0 <= k < |selectors| && |r| == |Values(body, selectors[k])| &&
                    forall i :: 0 <= i < |r| ==> r[i] == [md5(page.url), ToString(Values(body, selectors[k])[i]), ""]
  {
    FirstHitSpec(selectors, GoodCandidate(body, md5(page.url)));
    var r := GoodJSON(body, page, md5, selectors);
    if r != [] {
      var k :| 0 <= k < |selectors| && r == GoodCandidate(body, md5(page.url))(selectors[k]);
      GoodsOfValues(Values(body, selectors[k]), md5(page.url));
    }
  }

  /** Every goods row of parseGoodJSON has three columns, the page MD5
      first and an empty image column last. */
  lemma GoodJSONImageEmpty(body: Body, page: Page, md5: string -> string, selectors: seq<string>)
    ensures forall row :: row in GoodJSON(body, page, md5, selectors) ==>
      |row| == 3 && row[0] == md5(page.url) && row[2] == ""
  {
    GoodJSONRows(body, page, md5, selectors);
    var r := GoodJSON(body, page, md5, selectors);
    forall row | row in r ensures |row| == 3 && row[0] == md5(page.url) && row[2] == "" {
      var i :| 0 <= i < |r| && r[i] == row;
    }
  }
}
