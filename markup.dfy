/** The slice of goquery the extractor uses. An HTML document is a tree of
    nodes that the model does not look into: a node is an opaque handle and
    a `Dom` bundles what goquery can say about nodes (the CSS selector
    engine, text, rendered inner HTML, attributes, children and the parser
    for fragments). A selection is a sequence of nodes. */
module Markup {
  import opened Wrappers
  import opened Seqs

  /** A node of some parsed document. */
  datatype Node = Node(id: nat)

  datatype Dom = Dom(
    /** The descendants of a selection that match a (well-formed) CSS
        selector, in document order. */
    find: (seq<Node>, string) -> seq<Node>,
    /** The text content of one node. */
    text: Node -> string,
    /** The inner HTML of one node, or None when rendering it fails. */
    html: Node -> Option<string>,
    /** An attribute of one node, None when the node does not carry it. */
    attr: (Node, string) -> Option<string>,
    /** The element children of one node. */
    children: Node -> seq<Node>,
    /** The root of the document parsed from a string. Parsing from an
        in-memory reader never fails, so every string gives a document. */
    parse: string -> Node)

  /** Selection.Find. The empty selector does not compile, and goquery then
      matches nothing. */
  function Find(dom: Dom, sel: seq<Node>, selector: string): (r: seq<Node>)
    ensures selector == "" ==> r == []
  {
    if selector == "" then [] else dom.find(sel, selector)
  }

  /** Selection.Text: the texts of all nodes of the selection, concatenated. */
  function Text(dom: Dom, sel: seq<Node>): string {
    FlatMap(sel, dom.text)
  }

  /** Selection.Html with its error discarded: the inner HTML of the first
      node; "" for an empty selection or when rendering fails. */
  function Html(dom: Dom, sel: seq<Node>): string {
    if |sel| == 0 then ""
    else match dom.html(sel[0])
      case Some(h) => h
      case None => ""
  }

  /** Selection.Attr: the attribute of the first node of the selection. */
  function Attr(dom: Dom, sel: seq<Node>, name: string): Option<string> {
    if |sel| == 0 then None else dom.attr(sel[0], name)
  }

  /** The value half of Selection.Attr's (value, ok) pair: "" when absent. */
  function AttrValue(a: Option<string>): string {
    match a
      case Some(v) => v
      case None => ""
  }
}
