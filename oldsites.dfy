/** The older site service of the `task` package. Its template rows put the
    specification selectors in column 7 and a list of "set" selectors in
    column 8; its cascade resolver `iterativeHTML` skips the first label and
    checks nothing; and its `iterativeLoopHTML` walks ';'-separated list
    levels, emitting one row per matched element of the innermost level
    with a level key that grows with every sibling visited. The helpers
    GetResourceURL, generateImageName and checkSelectionLegal of this file
    are character-for-character the ones of the current service and are
    modelled once, in Resource and Cascade. */
module OldSites {
  import opened Wrappers
  import opened GoText
  import opened Seqs
  import opened Markup
  import opened Cascade
  import opened Patterns
  import Registry

  /** The older LabelsParse: `spec` and `set` where the current one has
      `good` and `spec`. */
  datatype Labels = Labels(
    character: string,
    order: seq<string>,
    cover: seq<string>,
    title: seq<string>,
    price: seq<string>,
    desc: seq<string>,
    spec: seq<string>,
    sets: seq<string>)

  /** The template a row describes. The columns are domain, character,
      order, cover, title, price, desc, spec, set. */
  function LabelsOfRecord(record: seq<string>): Labels
    requires |record| >= 9
  {
    var f := Registry.FieldLabels;
    Labels(record[1], f(record[2]), f(record[3]), f(record[4]), f(record[5]), f(record[6]),
           f(record[7]), f(record[8]))
  }

  /** The two layouts read the same row alike up to the names of the last
      two lists: the older `spec` is the current `good` (column 7) and the
      older `set` is the current `spec` (column 8). */
  lemma ColumnsAgainstCurrent(record: seq<string>)
    requires |record| >= 9
    ensures var o, n := LabelsOfRecord(record), Registry.LabelsOfRecord(record);
      o.character == n.character && o.order == n.order && o.cover == n.cover && o.title == n.title
      && o.price == n.price && o.desc == n.desc && o.spec == n.good && o.sets == n.spec
  {
  }

  /** A further row for a known domain: character and order are
      overwritten, every other list grows by the new row's candidates. */
  function Merge(stored: Labels, incoming: Labels): (m: Labels)
    ensures m.character == incoming.character && m.order == incoming.order
    ensures |m.cover| == |stored.cover| + |incoming.cover| && m.cover[..|stored.cover|] == stored.cover && m.cover[|stored.cover|..] == incoming.cover
    ensures |m.title| == |stored.title| + |incoming.title| && m.title[..|stored.title|] == stored.title && m.title[|stored.title|..] == incoming.title
    ensures |m.price| == |stored.price| + |incoming.price| && m.price[..|stored.price|] == stored.price && m.price[|stored.price|..] == incoming.price
    ensures |m.desc| == |stored.desc| + |incoming.desc| && m.desc[..|stored.desc|] == stored.desc && m.desc[|stored.desc|..] == incoming.desc
    ensures |m.spec| == |stored.spec| + |incoming.spec| && m.spec[..|stored.spec|] == stored.spec && m.spec[|stored.spec|..] == incoming.spec
    ensures |m.sets| == |stored.sets| + |incoming.sets| && m.sets[..|stored.sets|] == stored.sets && m.sets[|stored.sets|..] == incoming.sets
  {
    Labels(incoming.character, incoming.order, stored.cover + incoming.cover, stored.title + incoming.title,
           stored.price + incoming.price, stored.desc + incoming.desc, stored.spec + incoming.spec,
           stored.sets + incoming.sets)
  }

  /** The registry after a row of at least nine columns with a non-empty
      domain. */
  function Registered(maps: map<string, Labels>, record: seq<string>, md5: string -> string): map<string, Labels>
    requires |record| >= 9
  {
    var key := md5(record[0]);
    if key in maps then maps[key := Merge(maps[key], LabelsOfRecord(record))]
    else maps[key := LabelsOfRecord(record)]
  }

  /** A row touches only its own domain's entry, and a second row for a
      new domain leaves the merge of the two templates. */
  lemma RegisteredMeaning(maps: map<string, Labels>, record: seq<string>, next: seq<string>, md5: string -> string)
    requires |record| >= 9 && |next| >= 9
    ensures var r := Registered(maps, record, md5); var key := md5(record[0]);
      key in r
      && (key !in maps ==> r[key] == LabelsOfRecord(record))
      && (key in maps ==> r[key] == Merge(maps[key], LabelsOfRecord(record)))
      && r.Keys == maps.Keys + {key}
      && forall k :: k in maps && k != key ==> r[k] == maps[k]
    ensures md5(next[0]) == md5(record[0]) && md5(record[0]) !in maps ==>
      Registered(Registered(maps, record, md5), next, md5)[md5(record[0])]
        == Merge(LabelsOfRecord(record), LabelsOfRecord(next))
  {
  }

  /** The older site service's template map, keyed by the MD5 of the
      domain. */
  class SiteService {
    var sitesLabelMaps: map<string, Labels>

    constructor ()
      ensures sitesLabelMaps == map[]
    {
      sitesLabelMaps := map[];
    }

    /** addSiteResource of the older layout. A row that lacks one of the
        nine columns read panics on the index, and an empty domain panics
        on purpose; either way the map is left as it was. */
    method AddSiteResource(record: seq<string>, md5: string -> string) returns (o: Outcome<()>)
      modifies this
      ensures (|record| < 9 || record[0] == "") <==> o.Panicked?
      ensures o.Panicked? ==> sitesLabelMaps == old(sitesLabelMaps)
      ensures o.Returned? ==> sitesLabelMaps == Registered(old(sitesLabelMaps), record, md5)
    {
      if |record| == 0 {
        return Panicked("index out of range");
      }
      var domain := record[0];
      if domain == "" {
        return Panicked("can not get domain str");
      }
      if |record| < 9 {
        return Panicked("index out of range");
      }
      var key := md5(domain);
      var incoming := LabelsOfRecord(record);
      if key in sitesLabelMaps {
        var lab := sitesLabelMaps[key];
        var cover := Registry.AppendAll(lab.cover, incoming.cover);
        var title := Registry.AppendAll(lab.title, incoming.title);
        var price := Registry.AppendAll(lab.price, incoming.price);
        var desc := Registry.AppendAll(lab.desc, incoming.desc);
        var spec := Registry.AppendAll(lab.spec, incoming.spec);
        var sets := Registry.AppendAll(lab.sets, incoming.sets);
        lab := Labels(incoming.character, incoming.order, cover, title, price, desc, spec, sets);
        sitesLabelMaps := sitesLabelMaps[key := lab];
        return Returned(());
      }
      sitesLabelMaps := sitesLabelMaps[key := incoming];
      return Returned(());
    }
  }

  /** The selection the older iterativeHTML(selection, selector) returns:
      the labels after the first one, each found in turn with no legality
      test. */
  function ChainHTML(dom: Dom, sel: seq<Node>, selector: string): seq<Node> {
    ChainBy(HtmlStep(dom), sel, Split(selector, LabelSeparate)[1..])
  }

  /** iterativeHTML of the older file: the loop starts at label 1. */
  method IterativeHTML(dom: Dom, selection: seq<Node>, selector: string) returns (r: seq<Node>)
    ensures r == ChainHTML(dom, selection, selector)
  {
    var labels := Split(selector, LabelSeparate);
    r := selection;
    var i := 1;
    while i < |labels|
      invariant 1 <= i <= |labels|
      invariant ChainBy(HtmlStep(dom), r, labels[i..]) == ChainHTML(dom, selection, selector)
    {
      assert labels[i..][0] == labels[i] && labels[i..][1..] == labels[i + 1..];
      r := Find(dom, r, labels[i]);
      i := i + 1;
    }
  }

  /** The first label only names the starting point: whatever it says, the
      chain is that of the labels after it, and a selector of one label
      leaves the selection as it was. Where every step of the current
      resolver stays legal, the two resolvers agree on the labels after the
      first. */
  lemma FirstLabelIgnored(dom: Dom, sel: seq<Node>, first: string, rest: string)
    requires LabelSeparate !in first
    ensures ChainHTML(dom, sel, first) == sel
    ensures ChainHTML(dom, sel, first + [LabelSeparate] + rest) == ChainBy(HtmlStep(dom), sel, Split(rest, LabelSeparate))
    ensures HtmlLegal(dom, CascadeHTML(dom, sel, Split(rest, LabelSeparate))) ==>
      ChainHTML(dom, sel, first + [LabelSeparate] + rest) == CascadeHTML(dom, sel, Split(rest, LabelSeparate))
  {
    SplitConcatFirst(first, LabelSeparate, rest);
    assert ([first] + Split(rest, LabelSeparate))[1..] == Split(rest, LabelSeparate);
    if HtmlLegal(dom, CascadeHTML(dom, sel, Split(rest, LabelSeparate))) {
      CascadeLegalIsChain(HtmlStep(dom), HtmlLegalFn(dom), sel, Split(rest, LabelSeparate));
    }
  }

  /** `n` copies of `x`. */
  function Repeat(x: string, n: nat): (r: seq<string>)
    ensures |r| == n && forall k :: 0 <= k < n ==> r[k] == x
  {
    if n == 0 then [] else Repeat(x, n - 1) + [x]
  }

  /** The level entry a list level adds: "level-" and its depth. */
  function LevelTag(level: int): string {
    "level-" + Itoa(level)
  }

  /** What one matched element of the innermost level contributes: the row
      [urlMD5, style, the joined level key, its inner HTML], or nothing when
      rendering it fails. */
  function LeafRow(dom: Dom, urlMD5: string, style: string, levels: seq<string>): Node -> seq<seq<string>> {
    (n: Node) =>
      match dom.html(n)
        case Some(h) => [[urlMD5, style, Join(levels, "-"), h]]
        case None => []
  }

  /** The style of a level and the selection it continues from. The whole
      match of `\{(.*)\}`, braces included, is split on ':'; the style is
      the text under its first piece and the selection moves under its
      second, which panics on the index when there is no ':'. Without a
      match, both stay as they were. */
  function StyleStep(dom: Dom, sel: seq<Node>, part: string, style: string): Outcome<(string, seq<Node>)> {
    match StyleMatch(part)
      case None => Returned((style, sel))
      case Some(m) =>
        var values := Split(m, ':');
        if |values| < 2 then Panicked("index out of range")
        else Returned((Text(dom, Find(dom, sel, values[0])), Find(dom, sel, values[1])))
  }

  /** The rows iterativeLoopHTML appends to `acc`, or its panic. */
  function LoopHTML(dom: Dom, sel: seq<Node>, selector: string, levels: seq<string>, level: int,
                    urlMD5: string, style: string, acc: seq<seq<string>>): Outcome<seq<seq<string>>>
    decreases |selector|, 0, 0
  {
    var index := IndexOf(selector, ListSeparate);
    if index == -1 then
      Returned(acc + FlatMap(ChainHTML(dom, sel, selector), LeafRow(dom, urlMD5, style, levels)))
    else
      match StyleStep(dom, sel, selector[..index], style)
        case Panicked(why) => Panicked(why)
        case Returned(p) =>
          var top := ChainHTML(dom, p.1, selector[..index]);
          if !HtmlLegal(dom, top) then Returned(acc)
          else Siblings(dom, top, selector[index + 1..], levels, level, urlMD5, p.0, |top|, acc)
  }

  /** The first `n` siblings of a list level, in order. Sibling k (from 0)
      continues with the levels grown by k + 1 copies of this level's tag:
      the closure appends to the captured slice on every visit. */
  function Siblings(dom: Dom, top: seq<Node>, rest: string, levels: seq<string>, level: int,
                    urlMD5: string, style: string, n: nat, acc: seq<seq<string>>): Outcome<seq<seq<string>>>
    requires n <= |top|
    decreases |rest|, 1, n
  {
    if n == 0 then Returned(acc)
    else match Siblings(dom, top, rest, levels, level, urlMD5, style, n - 1, acc)
      case Panicked(why) => Panicked(why)
      case Returned(before) =>
        LoopHTML(dom, [top[n - 1]], rest, levels + Repeat(LevelTag(level), n), level + 1, urlMD5, style, before)
  }

  /** A panic among the first k siblings is the panic of the first n. */
  lemma {:induction false} SiblingsPanics(dom: Dom, top: seq<Node>, rest: string, levels: seq<string>, level: int,
                                          urlMD5: string, style: string, k: nat, n: nat, acc: seq<seq<string>>)
    requires k <= n <= |top|
    requires Siblings(dom, top, rest, levels, level, urlMD5, style, k, acc).Panicked?
    ensures Siblings(dom, top, rest, levels, level, urlMD5, style, n, acc)
         == Siblings(dom, top, rest, levels, level, urlMD5, style, k, acc)
    decreases n
  {
    if n > k {
      SiblingsPanics(dom, top, rest, levels, level, urlMD5, style, k, n - 1, acc);
    }
  }

  /** One more visit appends one more copy of the tag. */
  lemma GrowLevels(levels: seq<string>, tag: string, i: nat)
    ensures (levels + Repeat(tag, i)) + [tag] == levels + Repeat(tag, i + 1)
  {
  }

  /** Sibling i continues from the rows of the siblings before it. */
  lemma SiblingsNext(dom: Dom, top: seq<Node>, rest: string, levels: seq<string>, level: int,
                     urlMD5: string, style: string, i: nat, acc0: seq<seq<string>>, acc: seq<seq<string>>)
    requires i < |top| && Siblings(dom, top, rest, levels, level, urlMD5, style, i, acc0) == Returned(acc)
    ensures Siblings(dom, top, rest, levels, level, urlMD5, style, i + 1, acc0)
         == LoopHTML(dom, [top[i]], rest, levels + Repeat(LevelTag(level), i + 1), level + 1, urlMD5, style, acc)
  {
  }

  /** The innermost level of iterativeLoopHTML: each match of the selector
      that renders adds its row, in document order. */
  method LeafLevel(dom: Dom, selection: seq<Node>, selector: string, levels: seq<string>,
                   urlMD5: string, style: string, dataList: seq<seq<string>>)
    returns (rows: seq<seq<string>>)
    ensures rows == dataList + FlatMap(ChainHTML(dom, selection, selector), LeafRow(dom, urlMD5, style, levels))
  {
    var sel := IterativeHTML(dom, selection, selector);
    rows := dataList;
    var i := 0;
    while i < |sel|
      invariant 0 <= i <= |sel|
      invariant rows == dataList + FlatMap(sel[..i], LeafRow(dom, urlMD5, style, levels))
    {
      FlatMapPrefix(sel, i, LeafRow(dom, urlMD5, style, levels));
      var h := dom.html(sel[i]);
      if h.Some? {
        rows := rows + [[urlMD5, style, Join(levels, "-"), h.value]];
      }
      i := i + 1;
    }
    assert sel[..|sel|] == sel;
  }

  /** The style step of a level, as the older code takes it. */
  method StyleOfLevel(dom: Dom, selection: seq<Node>, part: string, style: string)
    returns (o: Outcome<(string, seq<Node>)>)
    ensures o == StyleStep(dom, selection, part, style)
  {
    var sub := StyleMatch(part);
    if sub.None? {
      return Returned((style, selection));
    }
    var values := Split(sub.value, ':');
    var st := Text(dom, Find(dom, selection, values[0]));
    if |values| < 2 {
      return Panicked("index out of range");
    }
    return Returned((st, Find(dom, selection, values[1])));
  }

  /** iterativeLoopHTML of the older file, with the row list passed and
      returned by value. */
  method IterativeLoopHTML(dom: Dom, selection: seq<Node>, selector: string, levels: seq<string>, level: int,
                           urlMD5: string, style: string, dataList: seq<seq<string>>)
    returns (o: Outcome<seq<seq<string>>>)
    ensures o == LoopHTML(dom, selection, selector, levels, level, urlMD5, style, dataList)
    decreases |selector|, 1
  {
    var index := IndexOf(selector, ListSeparate);
    if index == -1 {
      LoopHTMLLeaf(dom, selection, selector, levels, level, urlMD5, style, dataList);
      var rows := LeafLevel(dom, selection, selector, levels, urlMD5, style, dataList);
      return Returned(rows);
    }
    var part := selector[..index];
    var p := StyleOfLevel(dom, selection, part, style);
    LoopHTMLOfList(dom, selection, selector, levels, level, urlMD5, style, dataList);
    if p.Panicked? {
      return Panicked(p.reason);
    }
    var top := IterativeHTML(dom, p.value.1, part);
    if !HtmlLegal(dom, top) {
      return Returned(dataList);
    }
    o := EachSibling(dom, top, selector[index + 1..], levels, level, urlMD5, p.value.0, dataList);
  }

  /** One unfolding of LoopHTML at a list level. */
  lemma LoopHTMLOfList(dom: Dom, sel: seq<Node>, selector: string, levels: seq<string>, level: int,
                       urlMD5: string, style: string, acc: seq<seq<string>>)
    requires ListSeparate in selector
    ensures var index := IndexOf(selector, ListSeparate);
      var st := StyleStep(dom, sel, selector[..index], style);
      var o := LoopHTML(dom, sel, selector, levels, level, urlMD5, style, acc);
      (st.Panicked? ==> o == Panicked(st.reason))
      && (st.Returned? ==>
            var top := ChainHTML(dom, st.value.1, selector[..index]);
            o == if HtmlLegal(dom, top) then Siblings(dom, top, selector[index + 1..], levels, level, urlMD5, st.value.0, |top|, acc)
                 else Returned(acc))
  {
  }

  /** The Each over a list level: the closure appends this level's tag to
      the captured levels before descending into each sibling. */
  method EachSibling(dom: Dom, top: seq<Node>, rest: string, levels: seq<string>, level: int,
                     urlMD5: string, style: string, dataList: seq<seq<string>>)
    returns (o: Outcome<seq<seq<string>>>)
    ensures o == Siblings(dom, top, rest, levels, level, urlMD5, style, |top|, dataList)
    decreases |rest|, 2
  {
    var tag := LevelTag(level);
    var lv := levels;
    var acc := dataList;
    var i := 0;
    while i < |top|
      invariant 0 <= i <= |top|
      invariant lv == levels + Repeat(tag, i)
      invariant Siblings(dom, top, rest, levels, level, urlMD5, style, i, dataList) == Returned(acc)
    {
      GrowLevels(levels, tag, i);
      lv := lv + [tag];
      var r := IterativeLoopHTML(dom, [top[i]], rest, lv, level + 1, urlMD5, style, acc);
      SiblingsNext(dom, top, rest, levels, level, urlMD5, style, i, dataList, acc);
      if r.Panicked? {
        SiblingsPanics(dom, top, rest, levels, level, urlMD5, style, i + 1, |top|, dataList);
        return r;
      }
      acc := r.value;
      i := i + 1;
    }
    return Returned(acc);
  }

  /** Every row has the four columns urlMD5, style, level key and HTML. */
  predicate RowsShaped(rows: seq<seq<string>>, urlMD5: string) {
    forall k :: 0 <= k < |rows| ==> |rows[k]| == 4 && rows[k][0] == urlMD5
  }

  /** rows starts with acc and every row of it is shaped. */
  predicate Extends(acc: seq<seq<string>>, rows: seq<seq<string>>, urlMD5: string) {
    |acc| <= |rows| && rows[..|acc|] == acc && RowsShaped(rows, urlMD5)
  }

  /** The innermost level: one row per matched element that renders, in
      document order, each carrying the style, the level key joined with
      '-' and the element's inner HTML; an element that fails to render is
      skipped. */
  lemma {:induction false} LeafRows(dom: Dom, nodes: seq<Node>, urlMD5: string, style: string, levels: seq<string>)
    ensures var rows := FlatMap(nodes, LeafRow(dom, urlMD5, style, levels));
      (forall k :: 0 <= k < |rows| ==> |rows[k]| == 4 && rows[k][..3] == [urlMD5, style, Join(levels, "-")])
      && ((forall k :: 0 <= k < |nodes| ==> dom.html(nodes[k]).None?) ==> rows == [])
      && ((forall k :: 0 <= k < |nodes| ==> dom.html(nodes[k]).Some?) ==>
            |rows| == |nodes| && forall k :: 0 <= k < |nodes| ==> rows[k][3] == dom.html(nodes[k]).value)
  {
    if |nodes| > 0 {
      var init := nodes[..|nodes| - 1];
      assert forall k :: 0 <= k < |init| ==> init[k] == nodes[k];
      LeafRows(dom, init, urlMD5, style, levels);
    }
  }

  /** A selector without ';' is a single level: the rows of its matches are
      appended to what was already collected. */
  lemma LoopHTMLLeaf(dom: Dom, sel: seq<Node>, selector: string, levels: seq<string>, level: int,
                     urlMD5: string, style: string, acc: seq<seq<string>>)
    requires ListSeparate !in selector
    ensures LoopHTML(dom, sel, selector, levels, level, urlMD5, style, acc)
         == Returned(acc + FlatMap(ChainHTML(dom, sel, selector), LeafRow(dom, urlMD5, style, levels)))
  {
  }

  lemma LeafRowsShaped(dom: Dom, nodes: seq<Node>, urlMD5: string, style: string, levels: seq<string>)
    ensures RowsShaped(FlatMap(nodes, LeafRow(dom, urlMD5, style, levels)), urlMD5)
  {
    var rows := FlatMap(nodes, LeafRow(dom, urlMD5, style, levels));
    LeafRows(dom, nodes, urlMD5, style, levels);
    forall k | 0 <= k < |rows|
      ensures |rows[k]| == 4 && rows[k][0] == urlMD5
    {
      assert rows[k][..3][0] == rows[k][0];
    }
  }

  lemma AppendShaped(acc: seq<seq<string>>, more: seq<seq<string>>, urlMD5: string)
    requires RowsShaped(acc, urlMD5) && RowsShaped(more, urlMD5)
    ensures Extends(acc, acc + more, urlMD5)
  {
    assert (acc + more)[..|acc|] == acc;
  }

  lemma ExtendsTrans(acc: seq<seq<string>>, before: seq<seq<string>>, after: seq<seq<string>>, urlMD5: string)
    requires Extends(acc, before, urlMD5) && Extends(before, after, urlMD5)
    ensures Extends(acc, after, urlMD5)
  {
    assert after[..|before|][..|acc|] == after[..|acc|];
  }

  /** The walk only appends: whatever it returns starts with the rows it was
      given, and every row it adds has the four columns and the page's
      MD5 first. */
  lemma {:induction false} LoopHTMLAppends(dom: Dom, sel: seq<Node>, selector: string, levels: seq<string>, level: int,
                                           urlMD5: string, style: string, acc: seq<seq<string>>)
    requires RowsShaped(acc, urlMD5)
    ensures var o := LoopHTML(dom, sel, selector, levels, level, urlMD5, style, acc);
      o.Returned? ==> Extends(acc, o.value, urlMD5)
    decreases |selector|, 0, 0
  {
    var index := IndexOf(selector, ListSeparate);
    if index == -1 {
      var nodes := ChainHTML(dom, sel, selector);
      LoopHTMLLeaf(dom, sel, selector, levels, level, urlMD5, style, acc);
      LeafRowsShaped(dom, nodes, urlMD5, style, levels);
      AppendShaped(acc, FlatMap(nodes, LeafRow(dom, urlMD5, style, levels)), urlMD5);
    } else {
      match StyleStep(dom, sel, selector[..index], style)
        case Panicked(_) =>
        case Returned(p) =>
          var top := ChainHTML(dom, p.1, selector[..index]);
          if HtmlLegal(dom, top) {
            SiblingsAppends(dom, top, selector[index + 1..], levels, level, urlMD5, p.0, |top|, acc);
          }
    }
  }

  lemma {:induction false} SiblingsAppends(dom: Dom, top: seq<Node>, rest: string, levels: seq<string>, level: int,
                                           urlMD5: string, style: string, n: nat, acc: seq<seq<string>>)
    requires n <= |top| && RowsShaped(acc, urlMD5)
    ensures var o := Siblings(dom, top, rest, levels, level, urlMD5, style, n, acc);
      o.Returned? ==> Extends(acc, o.value, urlMD5)
    decreases |rest|, 1, n
  {
    if n > 0 {
      SiblingsAppends(dom, top, rest, levels, level, urlMD5, style, n - 1, acc);
      var prev := Siblings(dom, top, rest, levels, level, urlMD5, style, n - 1, acc);
      if prev.Returned? {
        var before := prev.value;
        var lv := levels + Repeat(LevelTag(level), n);
        SiblingsNext(dom, top, rest, levels, level, urlMD5, style, n - 1, acc, before);
        LoopHTMLAppends(dom, [top[n - 1]], rest, lv, level + 1, urlMD5, style, before);
        var o := LoopHTML(dom, [top[n - 1]], rest, lv, level + 1, urlMD5, style, before);
        if o.Returned? {
          ExtendsTrans(acc, before, o.value, urlMD5);
        }
      }
    } else {
      assert acc[..|acc|] == acc;
    }
  }

  /** The rows of sibling k of a level whose rest is a single level: those
      of its own matches, keyed with the levels grown by k + 1 tags. */
  function SiblingRows(dom: Dom, leaf: string, levels: seq<string>, level: int, urlMD5: string, style: string): (nat, Node) -> seq<seq<string>> {
    (k: nat, node: Node) =>
      FlatMap(ChainHTML(dom, [node], leaf), LeafRow(dom, urlMD5, style, levels + Repeat(LevelTag(level), k + 1)))
  }

  lemma AccPrefix<A, B>(acc: seq<B>, xs: seq<A>, k: nat, f: (nat, A) -> seq<B>)
    requires k < |xs|
    ensures (acc + FlatMapIndexed(xs[..k], f)) + f(k, xs[k]) == acc + FlatMapIndexed(xs[..k + 1], f)
  {
    FlatMapIndexedPrefix(xs, k, f);
  }

  lemma {:induction false} SiblingsOfLeaf(dom: Dom, top: seq<Node>, leaf: string, levels: seq<string>, level: int,
                                          urlMD5: string, style: string, n: nat, acc: seq<seq<string>>)
    requires n <= |top| && ListSeparate !in leaf
    ensures Siblings(dom, top, leaf, levels, level, urlMD5, style, n, acc)
         == Returned(acc + FlatMapIndexed(top[..n], SiblingRows(dom, leaf, levels, level, urlMD5, style)))
    decreases n
  {
    var f := SiblingRows(dom, leaf, levels, level, urlMD5, style);
    if n > 0 {
      SiblingsOfLeaf(dom, top, leaf, levels, level, urlMD5, style, n - 1, acc);
      var before := acc + FlatMapIndexed(top[..n - 1], f);
      var lv := levels + Repeat(LevelTag(level), n);
      SiblingsNext(dom, top, leaf, levels, level, urlMD5, style, n - 1, acc, before);
      LoopHTMLLeaf(dom, [top[n - 1]], leaf, lv, level + 1, urlMD5, style, before);
      assert f(n - 1, top[n - 1]) == FlatMap(ChainHTML(dom, [top[n - 1]], leaf), LeafRow(dom, urlMD5, style, lv));
      AccPrefix(acc, top, n - 1, f);
    } else {
      assert acc + FlatMapIndexed(top[..0], f) == acc;
    }
  }

  /** Two levels, "outer;inner" with no style group in the outer part and a
      legal outer selection: sibling k of the outer level contributes the
      rows of its inner matches, and its level key is the initial levels
      followed by k + 1 copies of "level-<level>", so later siblings carry
      longer keys. */
  lemma TwoLevelKeys(dom: Dom, sel: seq<Node>, outer: string, inner: string, levels: seq<string>, level: int,
                     urlMD5: string, style: string, acc: seq<seq<string>>)
    requires ListSeparate !in outer && ListSeparate !in inner && StyleMatch(outer).None?
    requires HtmlLegal(dom, ChainHTML(dom, sel, outer))
    ensures var top := ChainHTML(dom, sel, outer);
      LoopHTML(dom, sel, outer + [ListSeparate] + inner, levels, level, urlMD5, style, acc)
        == Returned(acc + FlatMapIndexed(top, SiblingRows(dom, inner, levels, level, urlMD5, style)))
  {
    var selector := outer + [ListSeparate] + inner;
    IndexOfSeparated(outer, ListSeparate, inner);
    assert selector[..|outer|] == outer && selector[|outer| + 1..] == inner;
    var top := ChainHTML(dom, sel, outer);
    SiblingsOfLeaf(dom, top, inner, levels, level, urlMD5, style, |top|, acc);
    assert top[..|top|] == top;
  }

  /** Splitting at the one ':' of a string. */
  lemma SplitAtColon(x: string, y: string)
    requires ':' !in x && ':' !in y
    ensures Split(x + ":" + y, ':') == [x, y]
  {
    SplitConcatFirst(x, ':', y);
    SplitConcatFirst(y, ':', "");
    assert x + ":" + y == x + [':'] + y;
  }

  /** The older split keeps the braces: for the style group "{a:b}" the
      style is read under "{a" and the values under "b}", where the current
      service splits the bare group into "a" and "b". */
  lemma StyleSelectorsKeepBraces(a: string, b: string)
    requires ':' !in a && ':' !in b && '\n' !in a && '\n' !in b
    ensures StyleGroup("{" + a + ":" + b + "}") == Some(a + ":" + b)
    ensures Split(StyleMatch("{" + a + ":" + b + "}").value, ':') == ["{" + a, b + "}"]
    ensures Split(StyleGroup("{" + a + ":" + b + "}").value, ':') == [a, b]
  {
    var g := a + ":" + b;
    NotInConcat('\n', a, ":");
    NotInConcat('\n', a + ":", b);
    StyleGroupOfBracketed(g);
    NotInConcat(':', "{", a);
    NotInConcat(':', b, "}");
    BracesRegroup(a, b);
    SplitAtColon("{" + a, b + "}");
    SplitAtColon(a, b);
  }

  lemma BracesRegroup(a: string, b: string)
    ensures "{" + (a + ":" + b) + "}" == ("{" + a) + ":" + (b + "}")
    ensures "{" + a + ":" + b + "}" == "{" + (a + ":" + b) + "}"
  {
  }
}
