/** parseSpecHTML: the specification table of a page. A candidate
    "first;{titles:values}" picks a selection with "first"; the style
    titles are the trimmed texts of the nodes "titles" finds in it, without
    repeats; for every node i of the selection, every match j of "values"
    below it and every child of that match, the child gives rows
    [page MD5, style, key, text, image] with style titles[j mod N] and key
    "good_<i>-num_<floor(j / N)>", N being the number of titles. */
module HtmlSpec {
  import opened Wrappers
  import opened GoText
  import opened Seqs
  import opened Markup
  import opened Cascade
  import opened Resource
  import opened Patterns
  import opened HtmlFields
  import opened SpecKeys

  // ----- style titles -----

  /** The texts without repeats, in order of first occurrence: what the
      styleMap guard lets through. */
  function Dedup(xs: seq<string>): (d: seq<string>)
    ensures forall x :: x in d <==> x in xs
    ensures forall a, b :: 0 <= a < b < |d| ==> d[a] != d[b]
  {
    if |xs| == 0 then []
    else
      var init := xs[..|xs| - 1];
      var x := xs[|xs| - 1];
      assert xs == init + [x];
      var d := Dedup(init);
      if x in d then d else d + [x]
  }

  /** Titles found earlier keep their place when more texts follow. */
  lemma {:induction false} DedupPrefix(xs: seq<string>, k: nat)
    requires k <= |xs|
    ensures Dedup(xs[..k]) <= Dedup(xs)
    decreases |xs| - k
  {
    if k < |xs| {
      DedupPrefix(xs[..|xs| - 1], k);
      assert xs[..|xs| - 1][..k] == xs[..k];
    } else {
      assert xs[..k] == xs;
    }
  }

  /** One more text is kept exactly when it was not seen before. */
  lemma DedupSnoc(xs: seq<string>, x: string)
    ensures Dedup(xs + [x]) == if x in Dedup(xs) then Dedup(xs) else Dedup(xs) + [x]
  {
    assert (xs + [x])[..|xs|] == xs;
  }

  function StyleTitle(dom: Dom, n: Node): string {
    TrimSpace(Text(dom, [n]))
  }

  function StyleTitleFn(dom: Dom): Node -> string {
    (n: Node) => StyleTitle(dom, n)
  }

  /** The style title loop: each node's trimmed text, kept the first time
      it is seen. */
  method StyleTitles(dom: Dom, nodes: seq<Node>) returns (titles: seq<string>)
    ensures titles == Dedup(Map(nodes, StyleTitleFn(dom)))
  {
    var styleMap: map<string, int> := map[];
    titles := [];
    var k := 0;
    while k < |nodes|
      invariant 0 <= k <= |nodes|
      invariant titles == Dedup(Map(nodes[..k], StyleTitleFn(dom)))
      invariant forall t :: t in styleMap <==> t in titles
    {
      MapPrefix(nodes, k, StyleTitleFn(dom));
      var sText := TrimSpace(Text(dom, [nodes[k]]));
      styleMap, titles := KeepTitle(Map(nodes[..k], StyleTitleFn(dom)), styleMap, titles, sText);
      k := k + 1;
    }
    assert nodes[..|nodes|] == nodes;
  }

  /** The styleMap guard: a title is appended, and recorded, only when it
      has not been recorded before. */
  method KeepTitle(ghost seen: seq<string>, styleMap: map<string, int>, titles: seq<string>, sText: string)
    returns (styleMap': map<string, int>, titles': seq<string>)
    requires titles == Dedup(seen)
    requires forall t :: t in styleMap <==> t in titles
    ensures titles' == Dedup(seen + [sText])
    ensures forall t :: t in styleMap' <==> t in titles'
  {
    DedupSnoc(seen, sText);
    styleMap', titles' := styleMap, titles;
    if sText !in styleMap {
      styleMap' := styleMap[sText := 1];
      titles' := titles + [sText];
    }
  }

  /** The style titles and the selector of the values. */
  datatype Style = Style(titles: seq<string>, valueSelector: string)

  /** The style part of a candidate. Without a non-empty part after ';', or
      when that part has no "{...}" group, there are no titles and the
      value selector is "", which matches nothing. A group without ':'
      panics on the missing value selector. */
  function StyleOf(dom: Dom, top: seq<Node>, labelList: seq<string>): (o: Outcome<Style>)
    ensures o.Returned? ==> forall a, b :: 0 <= a < b < |o.value.titles| ==> o.value.titles[a] != o.value.titles[b]
  {
    if |labelList| > 1 && labelList[1] != "" then
      match StyleGroup(labelList[1])
        case None => Returned(Style([], ""))
        case Some(g) =>
          var values := Split(g, ':');
          if |values| < 2 then Panicked("index out of range")
          else Returned(Style(Dedup(Map(Find(dom, top, values[0]), StyleTitleFn(dom))), values[1]))
    else Returned(Style([], ""))
  }

  // ----- rows -----

  function SpecRowOf(urlMD5: string, style: string, key: string, text: string): string -> seq<string> {
    (image: string) => [urlMD5, style, key, text, image]
  }

  /** The rows of one child: one per image, or one with an empty image. */
  function SpecRows(urlMD5: string, style: string, key: string, text: string, images: seq<string>): (rows: seq<seq<string>>)
    ensures |rows| == if |images| == 0 then 1 else |images|
    ensures forall k :: 0 <= k < |rows| ==>
      rows[k] == [urlMD5, style, key, text, if |images| == 0 then "" else images[k]]
  {
    if |images| == 0 then [[urlMD5, style, key, text, ""]] else Map(images, SpecRowOf(urlMD5, style, key, text))
  }

  lemma SpecRowsIn(urlMD5: string, style: string, key: string, text: string, images: seq<string>)
    ensures forall row :: row in SpecRows(urlMD5, style, key, text, images) ==>
      |row| == 5 && row[0] == urlMD5 && row[1] == style && row[2] == key && row[3] == text
  {
    var rows := SpecRows(urlMD5, style, key, text, images);
    forall row | row in rows
      ensures |row| == 5 && row[0] == urlMD5 && row[1] == style && row[2] == key && row[3] == text
    {
      var k :| 0 <= k < |rows| && rows[k] == row;
    }
  }

  method MakeSpecRows(urlMD5: string, style: string, key: string, text: string, images: seq<string>)
    returns (rows: seq<seq<string>>)
    ensures rows == SpecRows(urlMD5, style, key, text, images)
  {
    rows := [];
    if |images| <= 0 {
      rows := rows + [[urlMD5, style, key, text, ""]];
    }
    var k := 0;
    while k < |images|
      invariant 0 <= k <= |images|
      invariant |images| > 0 ==> rows == Map(images[..k], SpecRowOf(urlMD5, style, key, text))
      invariant |images| == 0 ==> rows == [[urlMD5, style, key, text, ""]]
    {
      MapPrefix(images, k, SpecRowOf(urlMD5, style, key, text));
      rows := rows + [[urlMD5, style, key, text, images[k]]];
      k := k + 1;
    }
    assert images[..|images|] == images;
  }

  /** What the child of value match j under node i gives. A child whose
      HTML cannot be rendered gives nothing; otherwise, with no titles the
      modulo panics, and with N titles every row carries style
      titles[j mod N] and key good_<i>-num_<floor(j / N)>. */
  function ChildSpec(dom: Dom, page: Page, urlMD5: string, titles: seq<string>, i: nat, j: nat, child: Node)
    : (o: Outcome<seq<seq<string>>>)
    ensures o.Panicked? <==> dom.html(child).Some? && |titles| == 0
    ensures dom.html(child).None? ==> o == Returned([])
    ensures o.Returned? && |titles| > 0 ==> forall row :: row in o.value ==>
      |row| == 5 && row[0] == urlMD5 && row[1] == titles[j % |titles|] && row[2] == SpecKey(i, j / |titles|)
        && row[3] == TrimSpace(Text(dom, [child]))
  {
    match dom.html(child)
      case None => Returned([])
      case Some(h) =>
        if |titles| == 0 then Panicked("integer divide by zero")
        else
          var style, key, text := titles[j % |titles|], SpecKey(i, j / |titles|), TrimSpace(Text(dom, [child]));
          var rows := SpecRows(urlMD5, style, key, text, ImagePaths(dom, h, page));
          SpecRowsIn(urlMD5, style, key, text, ImagePaths(dom, h, page));
          Returned(rows)
  }

  function ChildFn(dom: Dom, page: Page, urlMD5: string, titles: seq<string>, i: nat, j: nat)
    : Node -> Outcome<seq<seq<string>>>
  {
    (child: Node) => ChildSpec(dom, page, urlMD5, titles, i, j, child)
  }

  /** What value match j (node n) under node i gives: its children in
      order. */
  function ValueSpec(dom: Dom, page: Page, urlMD5: string, titles: seq<string>, i: nat, j: nat, n: Node)
    : Outcome<seq<seq<string>>>
  {
    FlatMapOutcome(dom.children(n), ChildFn(dom, page, urlMD5, titles, i, j))
  }

  function ValueFn(dom: Dom, page: Page, urlMD5: string, titles: seq<string>, i: nat)
    : (nat, Node) -> Outcome<seq<seq<string>>>
  {
    (j: nat, n: Node) => ValueSpec(dom, page, urlMD5, titles, i, j, n)
  }

  /** What node i (n) of the first-level selection gives: the value matches
      below it, numbered from 0. */
  function MatchSpec(dom: Dom, page: Page, urlMD5: string, style: Style, i: nat, n: Node)
    : Outcome<seq<seq<string>>>
  {
    FlatMapIndexedOutcome(Find(dom, [n], style.valueSelector), ValueFn(dom, page, urlMD5, style.titles, i))
  }

  function MatchFn(dom: Dom, page: Page, urlMD5: string, style: Style): (nat, Node) -> Outcome<seq<seq<string>>> {
    (i: nat, n: Node) => MatchSpec(dom, page, urlMD5, style, i, n)
  }

  /** What one candidate of parseSpecHTML gives. */
  function SelectorSpec(dom: Dom, root: Node, page: Page, urlMD5: string, selector: string): Outcome<seq<seq<string>>> {
    var labelList := Split(selector, ListSeparate);
    var top := TopSelection(dom, root, labelList);
    if !HtmlLegal(dom, top) then Returned([])
    else match StyleOf(dom, top, labelList)
      case Panicked(why) => Panicked(why)
      case Returned(style) => FlatMapIndexedOutcome(top, MatchFn(dom, page, urlMD5, style))
  }

  /** The candidates tried in order: the first non-empty table wins, and a
      panic ends the search. */
  function SpecFrom(dom: Dom, root: Node, page: Page, urlMD5: string, selectors: seq<string>): Outcome<seq<seq<string>>>
    decreases |selectors|
  {
    if |selectors| == 0 then Returned([])
    else match SelectorSpec(dom, root, page, urlMD5, selectors[0])
      case Panicked(why) => Panicked(why)
      case Returned(rows) => if |rows| > 0 then Returned(rows) else SpecFrom(dom, root, page, urlMD5, selectors[1..])
  }

  /** The outcome of parseSpecHTML. */
  function SpecHTML(dom: Dom, root: Node, page: Page, md5: string -> string, selectors: seq<string>): Outcome<seq<seq<string>>> {
    SpecFrom(dom, root, page, md5(page.url), selectors)
  }

  // ----- the loops -----

  /** One child of a value match: render it, then, when it renders, the
      row style, the key, the text and the images. */
  method SpecOfChild(dom: Dom, page: Page, urlMD5: string, titles: seq<string>, i: nat, j: nat, child: Node)
    returns (o: Outcome<seq<seq<string>>>)
    ensures o == ChildSpec(dom, page, urlMD5, titles, i, j, child)
  {
    var html := dom.html(child);
    if html.None? {
      return Returned([]);
    }
    if |titles| == 0 {
      return Panicked("integer divide by zero");
    }
    var style := titles[j % |titles|];
    var bigID := Itoa(j / |titles|);
    var text := Text(dom, [child]);
    var images := ReplaceImagePaths(dom, html.value, page);
    var rows := MakeSpecRows(urlMD5, style, "good_" + Itoa(i) + "-num_" + bigID, TrimSpace(text), images);
    return Returned(rows);
  }

  /** The loop over the children of a matched element. */
  method SpecOfChildren(dom: Dom, page: Page, urlMD5: string, titles: seq<string>, i: nat, j: nat, children: seq<Node>)
    returns (o: Outcome<seq<seq<string>>>)
    ensures o == FlatMapOutcome(children, ChildFn(dom, page, urlMD5, titles, i, j))
  {
    var f := ChildFn(dom, page, urlMD5, titles, i, j);
    var dataInfos: seq<seq<string>> := [];
    var k := 0;
    while k < |children|
      invariant 0 <= k <= |children|
      invariant FlatMapOutcome(children[..k], f) == Returned(dataInfos)
    {
      FlatMapOutcomePrefix(children, k, f);
      var sub := SpecOfChild(dom, page, urlMD5, titles, i, j, children[k]);
      if sub.Panicked? {
        FlatMapOutcomePanics(children, k + 1, f);
        return sub;
      }
      dataInfos := dataInfos + sub.value;
      k := k + 1;
    }
    assert children[..|children|] == children;
    return Returned(dataInfos);
  }

  /** The loop over the elements the value selector finds under a
      matched element. */
  method SpecOfValues(dom: Dom, page: Page, urlMD5: string, titles: seq<string>, i: nat, values: seq<Node>)
    returns (o: Outcome<seq<seq<string>>>)
    ensures o == FlatMapIndexedOutcome(values, ValueFn(dom, page, urlMD5, titles, i))
  {
    var f := ValueFn(dom, page, urlMD5, titles, i);
    var dataInfos: seq<seq<string>> := [];
    var j := 0;
    while j < |values|
      invariant 0 <= j <= |values|
      invariant FlatMapIndexedOutcome(values[..j], f) == Returned(dataInfos)
    {
      FlatMapIndexedOutcomePrefix(values, j, f);
      var sub := SpecOfChildren(dom, page, urlMD5, titles, i, j, dom.children(values[j]));
      if sub.Panicked? {
        FlatMapIndexedOutcomePanics(values, j + 1, f);
        return sub;
      }
      dataInfos := dataInfos + sub.value;
      j := j + 1;
    }
    assert values[..|values|] == values;
    return Returned(dataInfos);
  }

  /** The outer loop, over the elements of the first-level selection. */
  method SpecOfSelection(dom: Dom, page: Page, urlMD5: string, style: Style, top: seq<Node>)
    returns (o: Outcome<seq<seq<string>>>)
    ensures o == FlatMapIndexedOutcome(top, MatchFn(dom, page, urlMD5, style))
  {
    var f := MatchFn(dom, page, urlMD5, style);
    var dataInfos: seq<seq<string>> := [];
    var i := 0;
    while i < |top|
      invariant 0 <= i <= |top|
      invariant FlatMapIndexedOutcome(top[..i], f) == Returned(dataInfos)
    {
      FlatMapIndexedOutcomePrefix(top, i, f);
      var sub := SpecOfValues(dom, page, urlMD5, style.titles, i, Find(dom, [top[i]], style.valueSelector));
      if sub.Panicked? {
        FlatMapIndexedOutcomePanics(top, i + 1, f);
        return sub;
      }
      dataInfos := dataInfos + sub.value;
      i := i + 1;
    }
    assert top[..|top|] == top;
    return Returned(dataInfos);
  }

  /** The style part, as parseSpecHTML computes it. */
  method StyleSetup(dom: Dom, selection: seq<Node>, labelList: seq<string>) returns (o: Outcome<Style>)
    ensures o == StyleOf(dom, selection, labelList)
  {
    var styleTitles: seq<string> := [];
    var valueSelector := "";
    if |labelList| > 1 && |labelList[1]| > 0 {
      var sub := StyleGroup(labelList[1]);
      if sub.Some? {
        var values := Split(sub.value, ':');
        styleTitles := StyleTitles(dom, Find(dom, selection, values[0]));
        if |values| < 2 {
          return Panicked("index out of range");
        }
        valueSelector := values[1];
      }
    }
    return Returned(Style(styleTitles, valueSelector));
  }

  /** parseSpecHTML */
  method ParseSpecHTML(dom: Dom, root: Node, page: Page, md5: string -> string, selectors: seq<string>)
    returns (o: Outcome<seq<seq<string>>>)
    ensures o == SpecHTML(dom, root, page, md5, selectors)
  {
    var urlMD5 := md5(page.url);
    var i := 0;
    while i < |selectors|
      invariant 0 <= i <= |selectors|
      invariant SpecFrom(dom, root, page, urlMD5, selectors[i..]) == SpecHTML(dom, root, page, md5, selectors)
    {
      assert selectors[i..][0] == selectors[i] && selectors[i..][1..] == selectors[i + 1..];
      var labelList := Split(selectors[i], ListSeparate);
      var selection := IterativeHTML(dom, [root], labelList[0]);
      if HtmlLegal(dom, selection) {
        var style := StyleSetup(dom, selection, labelList);
        if style.Panicked? {
          return Panicked(style.reason);
        }
        var sub := SpecOfSelection(dom, page, urlMD5, style.value, selection);
        if sub.Panicked? || |sub.value| > 0 {
          return sub;
        }
      }
      i := i + 1;
    }
    return Returned([]);
  }

  // ----- properties -----

  /** Two different value positions under the same node never share both
      style and key: the titles are distinct, and the pair (j mod N,
      floor(j / N)) determines j. */
  lemma SpecPositionsDistinct(titles: seq<string>, i: nat, j1: nat, j2: nat)
    requires |titles| > 0 && forall a, b :: 0 <= a < b < |titles| ==> titles[a] != titles[b]
    requires j1 != j2
    ensures titles[j1 % |titles|] != titles[j2 % |titles|] || SpecKey(i, j1 / |titles|) != SpecKey(i, j2 / |titles|)
  {
    var n := |titles|;
    var r1, r2 := j1 % n, j2 % n;
    if titles[r1] == titles[r2] {
      assert r1 == r2;
      DivModDetermine(j1, j2, n);
      KeysDiffer(i, j1 / n, j2 / n);
    }
  }

  /** Different numbers with the same remainder have different quotients. */
  lemma DivModDetermine(a: nat, b: nat, n: nat)
    requires n > 0 && a != b && a % n == b % n
    ensures a / n != b / n
  {
    var qa, qb, r := a / n, b / n, a % n;
    assert a == n * qa + r;
    assert b == n * qb + r;
  }

  lemma KeysDiffer(i: nat, a: nat, b: nat)
    requires a != b
    ensures SpecKey(i, a) != SpecKey(i, b)
  {
    if SpecKey(i, a) == SpecKey(i, b) {
      SpecKeyInjective(i, a, i, b);
    }
  }

  /** A panic anywhere among the contributions panics the whole. */
  lemma FlatMapOutcomePanicsAt<A, B>(xs: seq<A>, k: nat, f: A -> Outcome<seq<B>>)
    requires k < |xs| && f(xs[k]).Panicked?
    ensures FlatMapOutcome(xs, f).Panicked?
  {
    FlatMapOutcomePrefix(xs, k, f);
    FlatMapOutcomePanics(xs, k + 1, f);
  }

  lemma FlatMapIndexedOutcomePanicsAt<A, B>(xs: seq<A>, k: nat, f: (nat, A) -> Outcome<seq<B>>)
    requires k < |xs| && f(k, xs[k]).Panicked?
    ensures FlatMapIndexedOutcome(xs, f).Panicked?
  {
    FlatMapIndexedOutcomePrefix(xs, k, f);
    FlatMapIndexedOutcomePanics(xs, k + 1, f);
  }

  /** A candidate without style titles panics as soon as some value match
      has a child whose HTML renders: the modulo by N = 0. */
  lemma SelectorPanicsWithoutTitles(dom: Dom, root: Node, page: Page, urlMD5: string, selector: string,
                                    i: nat, j: nat, k: nat)
    requires var labelList := Split(selector, ListSeparate);
      var top := TopSelection(dom, root, labelList);
      HtmlLegal(dom, top) && StyleOf(dom, top, labelList).Returned?
      && StyleOf(dom, top, labelList).value.titles == []
      && i < |top|
      && j < |Find(dom, [top[i]], StyleOf(dom, top, labelList).value.valueSelector)|
      && k < |dom.children(Find(dom, [top[i]], StyleOf(dom, top, labelList).value.valueSelector)[j])|
      && dom.html(dom.children(Find(dom, [top[i]], StyleOf(dom, top, labelList).value.valueSelector)[j])[k]).Some?
    ensures SelectorSpec(dom, root, page, urlMD5, selector).Panicked?
  {
    var labelList := Split(selector, ListSeparate);
    var top := TopSelection(dom, root, labelList);
    var style := StyleOf(dom, top, labelList).value;
    MatchPanics(dom, page, urlMD5, style, i, top[i], j, k);
    FlatMapIndexedOutcomePanicsAt(top, i, MatchFn(dom, page, urlMD5, style));
  }

  /** Without titles, a node panics once one of its value matches has a
      child whose HTML renders. */
  lemma MatchPanics(dom: Dom, page: Page, urlMD5: string, style: Style, i: nat, n: Node, j: nat, k: nat)
    requires style.titles == []
    requires j < |Find(dom, [n], style.valueSelector)|
    requires k < |dom.children(Find(dom, [n], style.valueSelector)[j])|
    requires dom.html(dom.children(Find(dom, [n], style.valueSelector)[j])[k]).Some?
    ensures MatchSpec(dom, page, urlMD5, style, i, n).Panicked?
  {
    var values := Find(dom, [n], style.valueSelector);
    ValuePanics(dom, page, urlMD5, i, j, values[j], k);
    FlatMapIndexedOutcomePanicsAt(values, j, ValueFn(dom, page, urlMD5, style.titles, i));
  }

  /** Without titles, a value match panics once one of its children has
      HTML that renders. */
  lemma ValuePanics(dom: Dom, page: Page, urlMD5: string, i: nat, j: nat, v: Node, k: nat)
    requires k < |dom.children(v)| && dom.html(dom.children(v)[k]).Some?
    ensures ValueSpec(dom, page, urlMD5, [], i, j, v).Panicked?
  {
    var children := dom.children(v);
    assert ChildSpec(dom, page, urlMD5, [], i, j, children[k]).Panicked?;
    FlatMapOutcomePanicsAt(children, k, ChildFn(dom, page, urlMD5, [], i, j));
  }

  /** The rows of a node i of the first-level selection carry its key: each
      row has five columns, the page MD5 first, and a style among the
      titles. */
  predicate SpecRowOk(urlMD5: string, titles: seq<string>, row: seq<string>) {
    |row| == 5 && row[0] == urlMD5 && row[1] in titles
  }

  lemma MatchSpecRows(dom: Dom, page: Page, urlMD5: string, style: Style, i: nat, n: Node)
    ensures var o := MatchSpec(dom, page, urlMD5, style, i, n);
      o.Returned? ==> forall row :: row in o.value ==> SpecRowOk(urlMD5, style.titles, row)
  {
    var P := (row: seq<string>) => SpecRowOk(urlMD5, style.titles, row);
    var values := Find(dom, [n], style.valueSelector);
    forall j | 0 <= j < |values|
      ensures var v := ValueFn(dom, page, urlMD5, style.titles, i)(j, values[j]);
        v.Returned? ==> forall row :: row in v.value ==> P(row)
    {
      var children := dom.children(values[j]);
      FlatMapOutcomeFrom(children, ChildFn(dom, page, urlMD5, style.titles, i, j), P);
    }
    FlatMapIndexedOutcomeFrom(values, ValueFn(dom, page, urlMD5, style.titles, i), P);
  }

  /** Every row of a non-panicking parseSpecHTML has five columns and
      starts with the MD5 of the page URL. */
  lemma {:induction false} SpecFromRows(dom: Dom, root: Node, page: Page, urlMD5: string, selectors: seq<string>)
    ensures var o := SpecFrom(dom, root, page, urlMD5, selectors);
      o.Returned? ==> forall row :: row in o.value ==> |row| == 5 && row[0] == urlMD5
    decreases |selectors|
  {
    if |selectors| > 0 {
      var labelList := Split(selectors[0], ListSeparate);
      var top := TopSelection(dom, root, labelList);
      var st := StyleOf(dom, top, labelList);
      if HtmlLegal(dom, top) && st.Returned? {
        var P := (row: seq<string>) => |row| == 5 && row[0] == urlMD5;
        forall i | 0 <= i < |top|
          ensures var m := MatchFn(dom, page, urlMD5, st.value)(i, top[i]);
            m.Returned? ==> forall row :: row in m.value ==> P(row)
        {
          MatchSpecRows(dom, page, urlMD5, st.value, i, top[i]);
        }
        FlatMapIndexedOutcomeFrom(top, MatchFn(dom, page, urlMD5, st.value), P);
      }
      SpecFromRows(dom, root, page, urlMD5, selectors[1..]);
    }
  }
}
