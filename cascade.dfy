/** Selector expressions over HTML selections and JSON values: the legality
    test `checkSelectionLegal` and the cascade resolvers `iterativeHTML` and
    `iterativeJSON`. A cascade is a list of labels joined by '|'; each label
    narrows the current selection, and the walk stops at the first step
    whose result renders empty. */
module Cascade {
  import opened Wrappers
  import opened GoText
  import opened Markup
  import opened JsonAny

  /** The label separator of a cascade. */
  const LabelSeparate: char := '|'
  /** The marker, inside a selector, of a list level. */
  const ListSeparate: char := ';'

  /** What checkSelectionLegal receives as an `interface{}`. */
  datatype Selection = HtmlSel(nodes: seq<Node>) | JsonSel(value: Json)

  /** checkSelectionLegal. In mode "html" the selection is asserted to be a
      goquery selection and its HTML is rendered; in mode "json" it is
      asserted to be a jsoniter value and rendered with ToString. A failed
      type assertion panics. Any other mode renders nothing. The selection
      is legal when the rendering is non-empty. */
  function CheckSelectionLegal(dom: Dom, s: Selection, mode: string): Outcome<bool> {
    if mode == "html" then
      if s.HtmlSel? then Returned(|Html(dom, s.nodes)| > 0) else Panicked("interface conversion")
    else if mode == "json" then
      if s.JsonSel? then Returned(|ToString(s.value)| > 0) else Panicked("interface conversion")
    else Returned(false)
  }

  /** The body checkSelectionLegal renders for a selection of the kind its
      mode expects. */
  function RenderedBody(dom: Dom, s: Selection): string {
    match s
      case HtmlSel(nodes) => Html(dom, nodes)
      case JsonSel(v) => ToString(v)
  }

  /** checkSelectionLegal holds exactly when the rendered body is non-empty,
      panics exactly when the value is not of the kind the mode names, and
      is false for every other mode. */
  lemma CheckSelectionLegalIff(dom: Dom, s: Selection, mode: string)
    ensures mode == "html" || mode == "json" ==>
      (CheckSelectionLegal(dom, s, mode).Panicked? <==> (s.HtmlSel? != (mode == "html")))
    ensures (mode == "html" && s.HtmlSel?) || (mode == "json" && s.JsonSel?) ==>
      (CheckSelectionLegal(dom, s, mode) == Returned(true) <==> RenderedBody(dom, s) != "")
    ensures mode != "html" && mode != "json" ==> CheckSelectionLegal(dom, s, mode) == Returned(false)
  {
  }

  /** What checkSelectionLegal(sel, "html", ...) returns. */
  predicate HtmlLegal(dom: Dom, sel: seq<Node>) {
    Html(dom, sel) != ""
  }

  /** What checkSelectionLegal(j, "json", ...) returns. */
  predicate JsonLegal(j: Json) {
    ToString(j) != ""
  }

  /** An HTML selection is legal exactly when checkSelectionLegal accepts
      it, that is when it is non-empty and its first node renders to a
      non-empty inner HTML. */
  lemma HtmlLegalIff(dom: Dom, sel: seq<Node>)
    ensures HtmlLegal(dom, sel) <==> CheckSelectionLegal(dom, HtmlSel(sel), "html") == Returned(true)
    ensures HtmlLegal(dom, sel) <==> |sel| > 0 && dom.html(sel[0]).Some? && dom.html(sel[0]).value != ""
  {
  }

  /** A JSON value is legal exactly when checkSelectionLegal accepts it,
      that is when it is an object, an array, a boolean, or a string or
      number with non-empty text. A failed lookup (and null) never is. */
  lemma JsonLegalIff(dom: Dom, j: Json)
    ensures JsonLegal(j) <==> CheckSelectionLegal(dom, JsonSel(j), "json") == Returned(true)
    ensures JsonLegal(j) <==>
      j.Obj? || j.Arr? || j.Bool? || (j.Str? && j.s != "") || (j.Num? && j.text != "")
  {
  }

  /** The resolver's walk, for any kind of selection: apply each label in
      turn with `step`, and stop at the first result that is not legal. */
  function CascadeBy<S>(step: (S, string) -> S, legal: S -> bool, s: S, labels: seq<string>): S
    decreases |labels|
  {
    if |labels| == 0 then s
    else
      var next := step(s, labels[0]);
      if !legal(next) then next else CascadeBy(step, legal, next, labels[1..])
  }

  /** The same walk with no legality test: every label is applied. */
  function ChainBy<S>(step: (S, string) -> S, s: S, labels: seq<string>): S
    decreases |labels|
  {
    if |labels| == 0 then s else ChainBy(step, step(s, labels[0]), labels[1..])
  }

  /** The cascade ends at the first step whose result is not legal, or
      after the last label when every step was legal: the result is the
      plain chain over the first k labels, all steps before k were legal,
      and step k was not unless k is the last. */
  lemma {:induction false} CascadeStopsAtFirstEmpty<S>(step: (S, string) -> S, legal: S -> bool, s: S, labels: seq<string>)
    returns (k: nat)
    requires |labels| >= 1
    ensures 1 <= k <= |labels|
    ensures CascadeBy(step, legal, s, labels) == ChainBy(step, s, labels[..k])
    ensures forall m :: 1 <= m < k ==> legal(ChainBy(step, s, labels[..m]))
    ensures k < |labels| ==> !legal(ChainBy(step, s, labels[..k]))
    decreases |labels|
  {
    var next := step(s, labels[0]);
    assert ChainBy(step, s, labels[..1]) == next by {
      assert labels[..1][1..] == [];
    }
    if !legal(next) || |labels| == 1 {
      k := 1;
    } else {
      var k' := CascadeStopsAtFirstEmpty(step, legal, next, labels[1..]);
      k := k' + 1;
      forall m | 1 <= m <= k
        ensures ChainBy(step, s, labels[..m]) == ChainBy(step, next, labels[1..][..m - 1])
      {
        assert labels[..m][0] == labels[0];
        assert labels[..m][1..] == labels[1..][..m - 1];
      }
      forall m | 1 <= m < k ensures legal(ChainBy(step, s, labels[..m])) {
        if m > 1 {
          assert ChainBy(step, s, labels[..m]) == ChainBy(step, next, labels[1..][..m - 1]);
        }
      }
    }
  }

  /** A cascade whose result is legal never stopped early: it equals the
      plain chain over all labels. */
  lemma CascadeLegalIsChain<S>(step: (S, string) -> S, legal: S -> bool, s: S, labels: seq<string>)
    requires |labels| >= 1 && legal(CascadeBy(step, legal, s, labels))
    ensures CascadeBy(step, legal, s, labels) == ChainBy(step, s, labels)
  {
    var k := CascadeStopsAtFirstEmpty(step, legal, s, labels);
    assert labels[..|labels|] == labels;
  }

  /** Running a cascade over two label lists one after the other is the
      cascade over their concatenation, except that a stop in the first
      list skips the second. */
  lemma {:induction false} CascadeAppend<S>(step: (S, string) -> S, legal: S -> bool, s: S, l1: seq<string>, l2: seq<string>)
    requires |l1| >= 1
    ensures var c1 := CascadeBy(step, legal, s, l1);
      CascadeBy(step, legal, s, l1 + l2) == if legal(c1) then CascadeBy(step, legal, c1, l2) else c1
    decreases |l1|
  {
    assert (l1 + l2)[0] == l1[0];
    assert (l1 + l2)[1..] == l1[1..] + l2;
    var next := step(s, l1[0]);
    if legal(next) && |l1| > 1 {
      CascadeAppend(step, legal, next, l1[1..], l2);
    }
  }

  function HtmlStep(dom: Dom): (seq<Node>, string) -> seq<Node> {
    (sel: seq<Node>, key: string) => Find(dom, sel, key)
  }

  function HtmlLegalFn(dom: Dom): seq<Node> -> bool {
    (sel: seq<Node>) => HtmlLegal(dom, sel)
  }

  function JsonStep(): (Json, string) -> Json {
    (j: Json, key: string) => Get(j, key)
  }

  function JsonLegalFn(): Json -> bool {
    (j: Json) => JsonLegal(j)
  }

  /** The selection iterativeHTML(selection, selector) returns. */
  function CascadeHTML(dom: Dom, sel: seq<Node>, labels: seq<string>): seq<Node> {
    CascadeBy(HtmlStep(dom), HtmlLegalFn(dom), sel, labels)
  }

  /** The value iterativeJSON(j, labels) returns. */
  function CascadeJSON(j: Json, labels: seq<string>): Json {
    CascadeBy(JsonStep(), JsonLegalFn(), j, labels)
  }

  /** iterativeHTML: split the selector on '|' and Find each label in
      turn, stopping after the first step whose selection is not legal. */
  method IterativeHTML(dom: Dom, selection: seq<Node>, selector: string) returns (r: seq<Node>)
    ensures r == CascadeHTML(dom, selection, Split(selector, LabelSeparate))
  {
    var labels := Split(selector, LabelSeparate);
    r := selection;
    var i := 0;
    while i < |labels|
      invariant 0 <= i <= |labels|
      invariant CascadeHTML(dom, r, labels[i..]) == CascadeHTML(dom, selection, labels)
    {
      assert labels[i..][0] == labels[i] && labels[i..][1..] == labels[i + 1..];
      r := Find(dom, r, labels[i]);
      if !HtmlLegal(dom, r) {
        return;
      }
      i := i + 1;
    }
  }

  /** iterativeJSON: Get each label in turn, stopping after the first step
      whose value is not legal. */
  method IterativeJSON(j: Json, labels: seq<string>) returns (r: Json)
    ensures r == CascadeJSON(j, labels)
  {
    r := j;
    var i := 0;
    while i < |labels|
      invariant 0 <= i <= |labels|
      invariant CascadeJSON(r, labels[i..]) == CascadeJSON(j, labels)
    {
      assert labels[i..][0] == labels[i] && labels[i..][1..] == labels[i + 1..];
      r := Get(r, labels[i]);
      if !JsonLegal(r) {
        return;
      }
      i := i + 1;
    }
  }

  /** A JSON cascade that ends on a legal value found every label: the
      value is the plain chain of lookups through objects. */
  lemma CascadeJSONLegal(j: Json, labels: seq<string>)
    requires |labels| >= 1 && JsonLegal(CascadeJSON(j, labels))
    ensures CascadeJSON(j, labels) == ChainBy(JsonStep(), j, labels)
  {
    CascadeLegalIsChain(JsonStep(), JsonLegalFn(), j, labels);
  }
}
