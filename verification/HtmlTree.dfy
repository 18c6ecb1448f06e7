/** A parsed HTML document: its nodes in document order, and the places in it. */
module HtmlTree {
  import opened Wrappers
  import opened Text

  // A parsed document; text nodes hold their unescaped text, other nodes may have children.
  datatype Node = TextNode(text: string) | Element(tag: string, children: seq<Node>) | Container(children: seq<Node>)

  // The text nodes concatenated in document order, nothing in between.
  function PlainText(n: Node): string
    decreases n, 1
  {
    if n.TextNode? then n.text else PlainTextAll(n.children)
  }

  function PlainTextAll(ns: seq<Node>): string
    decreases ns, 0
  {
    if ns == [] then "" else PlainText(ns[0]) + PlainTextAll(ns[1..])
  }

  // The tags whose elements start a new visual line.
  predicate StartsLine(tag: string) {
    tag in ["address", "article", "aside", "blockquote", "br", "dd", "div", "dl", "dt",
            "figcaption", "figure", "footer", "form", "h1", "h2", "h3", "h4", "h5", "h6",
            "header", "hr", "li", "main", "nav", "ol", "p", "pre", "section", "table",
            "tbody", "td", "th", "thead", "tr", "ul"]
  }

  // Every node before its children, children from first to last.
  function DocumentOrder(n: Node): seq<Node>
    decreases n, 1
  {
    [n] + if n.TextNode? then [] else DocumentOrderAll(n.children)
  }

  function DocumentOrderAll(ns: seq<Node>): seq<Node>
    decreases ns, 0
  {
    if ns == [] then [] else DocumentOrder(ns[0]) + DocumentOrderAll(ns[1..])
  }

  // What is seen of nodes met one after the other: the text of the text nodes and a line break
  // wherever a node starts a line; nothing else, and nothing where a node ends.
  function Shown(nodes: seq<Node>): string {
    if nodes == [] then ""
    else
      var n := nodes[0];
      (if n.TextNode? then n.text else if n.Element? && StartsLine(n.tag) then "\n" else "") + Shown(nodes[1..])
  }

  lemma {:induction false} ShownInPieces(a: seq<Node>, b: seq<Node>)
    ensures Shown(a + b) == Shown(a) + Shown(b)
  {
    if a == [] {
      assert a + b == b;
    } else {
      assert (a + b)[1..] == a[1..] + b;
      ShownInPieces(a[1..], b);
    }
  }

  // The node a place leads to, child by child.
  function NodeAt(n: Node, place: seq<nat>): Option<Node>
    decreases |place|
  {
    if place == [] then Some(n)
    else if n.TextNode? || place[0] >= |n.children| then None
    else NodeAt(n.children[place[0]], place[1..])
  }

  // The text in front of a place, and the text of the node there and of everything behind it.

  function TextBefore(n: Node, place: seq<nat>): string
    requires NodeAt(n, place).Some?
    decreases |place|
  {
    if place == [] then ""
    else PlainTextAll(n.children[..place[0]]) + TextBefore(n.children[place[0]], place[1..])
  }

  function TextFrom(n: Node, place: seq<nat>): string
    requires NodeAt(n, place).Some?
    decreases |place|
  {
    if place == [] then PlainText(n)
    else TextFrom(n.children[place[0]], place[1..]) + PlainTextAll(n.children[place[0] + 1..])
  }
}
