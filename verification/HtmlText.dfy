/** HTML to readable text: a walk that writes text and block breaks, then normalisation per line. */
module HtmlText {
  import opened HtmlTree
  import opened Text
  import opened Wrappers

  const BlockTags: set<string> := {
    "address", "article", "aside", "blockquote", "br", "dd", "div", "dl", "dt", "figcaption", "figure", "footer",
    "form", "h1", "h2", "h3", "h4", "h5", "h6", "header", "hr", "li", "main", "nav", "ol", "p", "pre", "section",
    "table", "tbody", "td", "th", "thead", "tr", "ul"}

  // ---------------------------------------------------------------------------------------------
  // What is written
  // ---------------------------------------------------------------------------------------------

  // What the walk appends; a block writes its break only when something was written before it.
  function Walked(n: Node, written: string): string
    decreases n, 1
  {
    match n
    case TextNode(text) => written + text
    case Element(tag, children) =>
      WalkedAll(children, if tag in BlockTags && |written| > 0 then written + "\n" else written)
    case Container(children) => WalkedAll(children, written)
  }

  function WalkedAll(ns: seq<Node>, written: string): string
    decreases ns, 0
  {
    if ns == [] then written else WalkedAll(ns[1..], Walked(ns[0], written))
  }

  // The document's text in order, with a break at the start of every block element.
  function Marked(n: Node): string
    decreases n, 1
  {
    match n
    case TextNode(text) => text
    case Element(tag, children) => (if tag in BlockTags then "\n" else "") + MarkedAll(children)
    case Container(children) => MarkedAll(children)
  }

  function MarkedAll(ns: seq<Node>): string
    decreases ns, 0
  {
    if ns == [] then "" else Marked(ns[0]) + MarkedAll(ns[1..])
  }

  class Builder {
    var text: string

    constructor ()
      ensures text == ""
    {
      text := "";
    }

    method Write(s: string)
      modifies this
      ensures text == old(text) + s
    {
      text := text + s;
    }
  }

  method HtmlTextWalk(n: Node, b: Builder)
    modifies b
    ensures b.text == Walked(n, old(b.text))
    ensures Visible(b.text) == Visible(old(b.text)) + Visible(PlainText(n))
    decreases n
  {
    WalkKeepsText(n, b.text);
    if n.Element? && n.tag in BlockTags && |b.text| > 0 {
      b.Write("\n");
    }
    if n.TextNode? {
      b.Write(n.text);
      return;
    }
    ghost var start := b.text;
    var i := 0;
    while i < |n.children|
      invariant 0 <= i <= |n.children|
      invariant WalkedAll(n.children[i..], b.text) == WalkedAll(n.children, start)
    {
      HtmlTextWalk(n.children[i], b);
      i := i + 1;
    }
  }

  // ---------------------------------------------------------------------------------------------
  // Normalisation
  // ---------------------------------------------------------------------------------------------

  function Collapse(line: string): string {
    Join(Fields(line), " ")
  }

  function Kept(line: string): seq<string> {
    if Collapse(line) != [] then [Collapse(line)] else []
  }

  function KeptLines(lines: seq<string>): seq<string> {
    if lines == [] then [] else Kept(lines[0]) + KeptLines(lines[1..])
  }

  lemma {:induction false} KeptLinesAreCollapsed(lines: seq<string>)
    ensures forall i :: 0 <= i < |KeptLines(lines)| ==>
              KeptLines(lines)[i] != [] && exists line :: KeptLines(lines)[i] == Collapse(line)
  {
    if lines != [] {
      KeptLinesAreCollapsed(lines[1..]);
      var first, rest := Kept(lines[0]), KeptLines(lines[1..]);
      forall i | 0 <= i < |first + rest|
        ensures (first + rest)[i] != [] && exists line :: (first + rest)[i] == Collapse(line)
      {
        if i >= |first| {
          assert (first + rest)[i] == rest[i - |first|];
        }
      }
    }
  }

  function Normalise(s: string): string {
    Join(KeptLines(Split(s)), "\n")
  }

  lemma RenderedText(doc: Node)
    ensures var text := Normalise(Walked(doc, ""));
            && Fields(text) == Fields(Marked(doc)) && Tidy(text) && Normalise(text) == text
            && WordLines(Split(text)) == WordLines(Split(Shown(DocumentOrder(doc))))
            && Visible(text) == Visible(PlainText(doc))
  {
    NormaliseKeepsLines(Walked(doc, ""));
    MarkedHasTheLines(doc);
    MarkedIsShown(doc);
    MarkedKeepsText(doc);
    WordsAreVisible(Marked(doc));
    WordsAreVisible(Normalise(Walked(doc, "")));
    NormaliseKeepsWords(Walked(doc, ""));
    MarkedHasTheWords(doc);
    NormalisedIsTidy(Walked(doc, ""));
    NormaliseIsIdempotent(Walked(doc, ""));
  }

  // No text at all, or lines of single-spaced words with nothing around or between them.
  ghost predicate Tidy(s: string) {
    && (s != [] ==> !IsSpace(s[0]) && !IsSpace(s[|s| - 1]))
    && (forall i :: 0 <= i < |s| && IsSpace(s[i]) ==> s[i] == ' ' || s[i] == '\n')
    && (forall i :: 0 <= i < |s| - 1 ==> !(IsSpace(s[i]) && IsSpace(s[i + 1])))
  }

  method TextLines(raw: string) returns (lines: seq<string>)
    ensures lines == KeptLines(Split(raw))
  {
    var all := Split(raw);
    lines := [];
    var i := 0;
    while i < |all|
      invariant 0 <= i <= |all|
      invariant lines + KeptLines(all[i..]) == KeptLines(all)
    {
      var line := Join(Fields(all[i]), " ");
      ghost var rest := KeptLines(all[i + 1..]);
      assert KeptLines(all[i..]) == Kept(all[i]) + rest by {
        assert all[i..][1..] == all[i + 1..];
      }
      assert lines + (Kept(all[i]) + rest) == lines + Kept(all[i]) + rest;
      if line != "" {
        lines := lines + [line];
      } else {
        assert lines + Kept(all[i]) == lines;
      }
      i := i + 1;
    }
    assert all[i..] == [];
  }

  // No character is lost, added or moved but white space; the lines with their words are those of
  // the nodes in document order, with a break at the start of every block; the text is tidy, and
  // normalising it again changes nothing.
  method HtmlToText(doc: Node) returns (text: string)
    ensures text == Normalise(Walked(doc, ""))
    ensures Visible(text) == Visible(PlainText(doc))
    ensures WordLines(Split(text)) == WordLines(Split(Shown(DocumentOrder(doc)))) && Fields(text) == Fields(Marked(doc))
    ensures Tidy(text) && Normalise(text) == text
  {
    var b := new Builder();
    HtmlTextWalk(doc, b);
    var lines := TextLines(b.text);
    text := Join(lines, "\n");
    RenderedText(doc);
  }

  // ---------------------------------------------------------------------------------------------
  // No word is lost or split
  // ---------------------------------------------------------------------------------------------

  lemma CollapseKeepsWords(line: string)
    ensures Fields(Collapse(line)) == Fields(line)
    ensures Collapse(line) == [] <==> Fields(line) == []
    ensures Collapse(Collapse(line)) == Collapse(line)
  {
    FieldsOfJoin(Fields(line));
  }

  lemma PrependedWords(line: string, kept: seq<string>)
    ensures WordsOfLines(Kept(line) + kept) == Fields(line) + WordsOfLines(kept)
  {
    CollapseKeepsWords(line);
    if Collapse(line) != [] {
      assert ([Collapse(line)] + kept)[1..] == kept;
    } else {
      assert [] + kept == kept;
    }
  }

  lemma {:induction false} KeptLinesKeepWords(lines: seq<string>)
    ensures WordsOfLines(KeptLines(lines)) == WordsOfLines(lines)
  {
    if lines != [] {
      KeptLinesKeepWords(lines[1..]);
      CollapseKeepsWords(lines[0]);
      PrependedWords(lines[0], KeptLines(lines[1..]));
    }
  }

  lemma SpacelessJoin(words: seq<string>)
    requires forall i :: 0 <= i < |words| ==> IsWord(words[i])
    ensures '\n' !in Join(words, " ")
  {
  }

  lemma CollapsedHasNoBreak(line: string)
    ensures '\n' !in Collapse(line)
  {
    SpacelessJoin(Fields(line));
  }

  lemma KeptLinesHaveNoBreaks(lines: seq<string>)
    ensures forall i :: 0 <= i < |KeptLines(lines)| ==> '\n' !in KeptLines(lines)[i]
  {
    var kept := KeptLines(lines);
    KeptLinesAreCollapsed(lines);
    forall i | 0 <= i < |kept|
      ensures '\n' !in kept[i]
    {
      var line :| kept[i] == Collapse(line);
      CollapsedHasNoBreak(line);
    }
  }

  lemma NormaliseKeepsWords(s: string)
    ensures Fields(Normalise(s)) == Fields(s)
  {
    var kept := KeptLines(Split(s));
    FieldsOfLines(s);
    KeptLinesKeepWords(Split(s));
    KeptLinesHaveNoBreaks(Split(s));
    FieldsOfLines(Normalise(s));
    if kept != [] {
      SplitOfJoin(kept);
    }
  }

  lemma PrependedLine(line: string, kept: seq<string>)
    ensures WordLines(Kept(line) + kept) == (if Fields(line) == [] then [] else [Fields(line)]) + WordLines(kept)
  {
    CollapseKeepsWords(line);
    if Collapse(line) != [] {
      assert ([Collapse(line)] + kept)[1..] == kept;
    } else {
      assert [] + kept == kept;
    }
  }

  lemma {:induction false} KeptLinesKeepLines(lines: seq<string>)
    ensures WordLines(KeptLines(lines)) == WordLines(lines)
  {
    if lines != [] {
      KeptLinesKeepLines(lines[1..]);
      PrependedLine(lines[0], KeptLines(lines[1..]));
    }
  }

  // Lines stay apart: normalising drops lines without a word and keeps the words of every other.
  lemma NormaliseKeepsLines(s: string)
    ensures WordLines(Split(Normalise(s))) == WordLines(Split(s))
  {
    var kept := KeptLines(Split(s));
    KeptLinesKeepLines(Split(s));
    KeptLinesHaveNoBreaks(Split(s));
    if kept != [] {
      SplitOfJoin(kept);
    } else {
      assert Split("") == [""] && [""][1..] == [] && Fields("") == [];
    }
  }

  function Breaks(k: nat): string {
    if k == 0 then "" else "\n" + Breaks(k - 1)
  }

  lemma {:induction false} BreaksAdd(j: nat, k: nat)
    ensures Breaks(j) + Breaks(k) == Breaks(j + k)
  {
    if j > 0 {
      BreaksAdd(j - 1, k);
    }
  }

  lemma {:induction false} LeadingBreaksAreInvisible(k: nat, s: string)
    ensures Fields(Breaks(k) + s) == Fields(s)
  {
    if k == 0 {
      assert Breaks(0) + s == s;
    } else {
      LeadingBreaksAreInvisible(k - 1, s);
      assert (Breaks(k) + s)[1..] == Breaks(k - 1) + s;
    }
  }

  lemma {:induction false} LeadingBreaksAreNoLines(k: nat, s: string)
    ensures WordLines(Split(Breaks(k) + s)) == WordLines(Split(s))
  {
    if k == 0 {
      assert Breaks(0) + s == s;
    } else {
      LeadingBreaksAreNoLines(k - 1, s);
      assert Breaks(k) + s == "\n" + (Breaks(k - 1) + s);
      LeadingBreakIsNoLine(Breaks(k - 1) + s);
    }
  }

  lemma {:induction false} LeadingBreakIsNoLine(s: string)
    ensures WordLines(Split("\n" + s)) == WordLines(Split(s))
  {
    assert ("\n" + s)[1..] == s;
    FirstLineEnds("\n" + s);
    assert Fields("") == [];
  }

  // Up to breaks at the very beginning, the walk writes the marked text.
  lemma {:induction false} WalkWritesMarked(n: Node, written: string) returns (k: nat)
    ensures written + Marked(n) == Breaks(k) + Walked(n, written)
    ensures k > 0 ==> written == ""
    decreases n, 1
  {
    if n.TextNode? {
      k := 0;
    } else if n.Element? && n.tag in BlockTags {
      k := WalkWritesMarkedAll(n.children, if written == "" then "" else written + "\n");
      if written == "" {
        assert "\n" + (Breaks(k) + Walked(n, "")) == Breaks(k + 1) + Walked(n, "");
        assert MarkedAll(n.children) == "" + MarkedAll(n.children);
        k := k + 1;
      } else {
        assert written + Marked(n) == written + "\n" + MarkedAll(n.children);
      }
    } else {
      k := WalkWritesMarkedAll(n.children, written);
      assert "" + MarkedAll(n.children) == MarkedAll(n.children);
    }
  }

  lemma {:induction false} ChainedBreaks(written: string, first: string, rest: string, j: nat, k: nat, next: string, whole: string)
    requires written + first == Breaks(j) + next && next + rest == Breaks(k) + whole
    ensures written + (first + rest) == Breaks(j + k) + whole
  {
    BreaksAdd(j, k);
    assert written + (first + rest) == (written + first) + rest;
    assert Breaks(j) + (next + rest) == (Breaks(j) + Breaks(k)) + whole;
  }

  lemma {:induction false} WalkWritesMarkedAll(ns: seq<Node>, written: string) returns (k: nat)
    ensures written + MarkedAll(ns) == Breaks(k) + WalkedAll(ns, written)
    ensures k > 0 ==> written == ""
    decreases ns, 0
  {
    if ns == [] {
      k := 0;
    } else {
      var next := Walked(ns[0], written);
      var j := WalkWritesMarked(ns[0], written);
      k := WalkWritesMarkedAll(ns[1..], next);
      ChainedBreaks(written, Marked(ns[0]), MarkedAll(ns[1..]), j, k, next, WalkedAll(ns, written));
      if k > 0 && j == 0 {
        assert written + Marked(ns[0]) == next;
      }
      k := j + k;
    }
  }

  lemma MarkedHasTheWords(doc: Node)
    ensures Fields(Walked(doc, "")) == Fields(Marked(doc))
  {
    var k := WalkWritesMarked(doc, "");
    LeadingBreaksAreInvisible(k, Walked(doc, ""));
    assert "" + Marked(doc) == Marked(doc);
  }

  lemma MarkedHasTheLines(doc: Node)
    ensures WordLines(Split(Walked(doc, ""))) == WordLines(Split(Marked(doc)))
  {
    var k := WalkWritesMarked(doc, "");
    LeadingBreaksAreNoLines(k, Walked(doc, ""));
    assert "" + Marked(doc) == Marked(doc);
  }

  // ---------------------------------------------------------------------------------------------
  // No text is lost or moved, and every block starts a word
  // ---------------------------------------------------------------------------------------------

  lemma BlockTagsStartLines(tag: string)
    ensures tag in BlockTags <==> StartsLine(tag)
  {
  }

  // The marked text is what is seen of the nodes in document order.
  lemma {:induction false} MarkedIsShown(n: Node)
    ensures Marked(n) == Shown(DocumentOrder(n))
    decreases n, 1
  {
    if n.TextNode? {
      assert [n] + [] == [n] && Shown([n]) == n.text + Shown([]);
    } else {
      if n.Element? {
        BlockTagsStartLines(n.tag);
      }
      MarkedAllIsShown(n.children);
      assert ([n] + DocumentOrderAll(n.children))[1..] == DocumentOrderAll(n.children);
    }
  }

  lemma {:induction false} MarkedAllIsShown(ns: seq<Node>)
    ensures MarkedAll(ns) == Shown(DocumentOrderAll(ns))
    decreases ns, 0
  {
    if ns != [] {
      MarkedIsShown(ns[0]);
      MarkedAllIsShown(ns[1..]);
      ShownInPieces(DocumentOrder(ns[0]), DocumentOrderAll(ns[1..]));
    }
  }

  // Marking adds breaks and nothing else.
  lemma {:induction false} MarkedKeepsText(n: Node)
    ensures Visible(Marked(n)) == Visible(PlainText(n))
    decreases n, 1
  {
    if !n.TextNode? {
      MarkedAllKeepsText(n.children);
      if n.Element? && n.tag in BlockTags {
        VisibleInPieces("\n", MarkedAll(n.children));
      } else {
        assert "" + MarkedAll(n.children) == MarkedAll(n.children);
      }
    }
  }

  lemma {:induction false} MarkedAllKeepsText(ns: seq<Node>)
    ensures Visible(MarkedAll(ns)) == Visible(PlainTextAll(ns))
    decreases ns, 0
  {
    if ns != [] {
      MarkedKeepsText(ns[0]);
      MarkedAllKeepsText(ns[1..]);
      VisibleInPieces(Marked(ns[0]), MarkedAll(ns[1..]));
      VisibleInPieces(PlainText(ns[0]), PlainTextAll(ns[1..]));
    }
  }

  lemma {:induction false} BreaksAreInvisible(k: nat)
    ensures Visible(Breaks(k)) == ""
  {
    if k > 0 {
      BreaksAreInvisible(k - 1);
    }
  }

  // Whatever was written before, the walk adds the text of the text nodes in document order.
  lemma {:induction false} WalkKeepsText(n: Node, written: string)
    ensures Visible(Walked(n, written)) == Visible(written) + Visible(PlainText(n))
  {
    var k := WalkWritesMarked(n, written);
    MarkedKeepsText(n);
    BreaksAreInvisible(k);
    VisibleInPieces(written, Marked(n));
    VisibleInPieces(Breaks(k), Walked(n, written));
  }

  lemma ThreePieces(a: string, b: string, c: string)
    ensures a + (b + c) == (a + b) + c
  {
  }

  lemma {:induction false} MarkedAllInPieces(a: seq<Node>, b: seq<Node>)
    ensures MarkedAll(a + b) == MarkedAll(a) + MarkedAll(b)
  {
    if a == [] {
      assert a + b == b;
      assert "" + MarkedAll(b) == MarkedAll(b);
    } else {
      var first, rest := Marked(a[0]), MarkedAll(a[1..]);
      assert MarkedAll(a) == first + rest;
      assert (a + b)[1..] == a[1..] + b;
      MarkedAllInPieces(a[1..], b);
      assert MarkedAll(a + b) == first + (rest + MarkedAll(b));
      ThreePieces(first, rest, MarkedAll(b));
    }
  }

  // The marked text splits in front of any place, and a block there begins with a break.
  lemma {:induction false} MarkedSplits(n: Node, place: seq<nat>) returns (before: string, behind: string)
    requires NodeAt(n, place).Some?
    ensures Marked(n) == before + behind
    ensures Visible(before) == Visible(TextBefore(n, place)) && Visible(behind) == Visible(TextFrom(n, place))
    ensures NodeAt(n, place).value.Element? && StartsLine(NodeAt(n, place).value.tag) ==> behind != "" && behind[0] == '\n'
    decreases |place|
  {
    if place == [] {
      before, behind := "", Marked(n);
      MarkedKeepsText(n);
      BlockMarksItsStart(n);
    } else {
      var k := place[0];
      var left, child, right := n.children[..k], n.children[k], n.children[k + 1..];
      var b, f := MarkedSplits(child, place[1..]);
      var mark := MarkedParent(n);
      before, behind := mark + MarkedAll(left) + b, f + MarkedAll(right);
      ChildrenSplit(n.children, k);
      Regroup(mark, MarkedAll(left), b, f, MarkedAll(right));
      TextOnTheLeft(mark, left, b, TextBefore(child, place[1..]));
      TextOnTheRight(f, TextFrom(child, place[1..]), right);
    }
  }

  lemma Regroup(a: string, b: string, c: string, d: string, e: string)
    ensures a + (b + (c + d) + e) == a + b + c + (d + e)
  {
  }

  lemma BlockMarksItsStart(n: Node)
    ensures n.Element? && StartsLine(n.tag) ==> Marked(n) != "" && Marked(n)[0] == '\n'
  {
    if n.Element? {
      BlockTagsStartLines(n.tag);
    }
  }

  lemma MarkedParent(n: Node) returns (mark: string)
    requires !n.TextNode?
    ensures mark in {"", "\n"} && Marked(n) == mark + MarkedAll(n.children)
  {
    mark := if n.Element? && n.tag in BlockTags then "\n" else "";
    assert "" + MarkedAll(n.children) == MarkedAll(n.children);
  }

  lemma {:induction false} TextOnTheLeft(mark: string, left: seq<Node>, marked: string, text: string)
    requires mark in {"", "\n"} && Visible(marked) == Visible(text)
    ensures Visible(mark + MarkedAll(left) + marked) == Visible(PlainTextAll(left) + text)
  {
    assert Visible(mark) == "";
    VisibleInPieces(mark + MarkedAll(left), marked);
    VisibleInPieces(mark, MarkedAll(left));
    MarkedAllKeepsText(left);
    VisibleInPieces(PlainTextAll(left), text);
  }

  lemma {:induction false} TextOnTheRight(marked: string, text: string, right: seq<Node>)
    requires Visible(marked) == Visible(text)
    ensures Visible(marked + MarkedAll(right)) == Visible(text + PlainTextAll(right))
  {
    VisibleInPieces(marked, MarkedAll(right));
    MarkedAllKeepsText(right);
    VisibleInPieces(text, PlainTextAll(right));
  }

  lemma {:induction false} ChildrenSplit(ns: seq<Node>, k: nat)
    requires k < |ns|
    ensures MarkedAll(ns) == MarkedAll(ns[..k]) + Marked(ns[k]) + MarkedAll(ns[k + 1..])
  {
    assert ns == ns[..k] + ns[k..];
    MarkedAllInPieces(ns[..k], ns[k..]);
    assert ns[k..][1..] == ns[k + 1..];
  }

  // A block anywhere in the document starts a word: the words of the rendered text up to some
  // point hold the text before the block, those behind it the text in the block and after it.
  lemma {:induction false} BlocksStartWords(doc: Node, place: seq<nat>) returns (w: nat)
    requires NodeAt(doc, place).Some? && NodeAt(doc, place).value.Element? && StartsLine(NodeAt(doc, place).value.tag)
    ensures var words := Fields(Normalise(Walked(doc, "")));
            && w <= |words|
            && Glued(words[..w]) == Visible(TextBefore(doc, place))
            && Glued(words[w..]) == Visible(TextFrom(doc, place))
  {
    var before, behind := MarkedSplits(doc, place);
    RenderedText(doc);
    FieldsAcrossSpace(before, behind);
    w := |Fields(before)|;
    var words := Fields(before) + Fields(behind[1..]);
    assert words[..w] == Fields(before) && words[w..] == Fields(behind[1..]);
    WordsAreVisible(before);
    WordsAreVisible(behind[1..]);
    assert Visible(behind) == Visible(behind[1..]);
  }

  // ---------------------------------------------------------------------------------------------
  // Tidiness and idempotence
  // ---------------------------------------------------------------------------------------------

  lemma {:induction false} JoinIsTidy(parts: seq<string>, separator: char)
    requires separator == ' ' || separator == '\n'
    requires forall i :: 0 <= i < |parts| ==> parts[i] != [] && Tidy(parts[i])
    ensures Tidy(Join(parts, [separator]))
    ensures parts != [] ==> Join(parts, [separator]) != []
  {
    if |parts| > 1 {
      JoinIsTidy(parts[1..], separator);
      TidyAround(parts[0], separator, Join(parts[1..], [separator]));
    }
  }

  lemma TidyAround(a: string, separator: char, b: string)
    requires a != [] && b != [] && Tidy(a) && Tidy(b)
    requires separator == ' ' || separator == '\n'
    ensures Tidy(a + [separator] + b)
  {
    var s := a + [separator] + b;
    forall i | 0 <= i < |s| - 1
      ensures !(IsSpace(s[i]) && IsSpace(s[i + 1]))
    {
      if i < |a| - 1 {
        assert s[i] == a[i] && s[i + 1] == a[i + 1];
      } else if i > |a| {
        assert s[i] == b[i - |a| - 1] && s[i + 1] == b[i - |a|];
      }
    }
    assert s[0] == a[0] && s[|s| - 1] == b[|b| - 1];
  }

  lemma NormalisedIsTidy(s: string)
    ensures Tidy(Normalise(s))
  {
    var kept := KeptLines(Split(s));
    KeptLinesAreCollapsed(Split(s));
    forall i | 0 <= i < |kept|
      ensures Tidy(kept[i])
    {
      var line :| kept[i] == Collapse(line);
      JoinIsTidy(Fields(line), ' ');
    }
    JoinIsTidy(kept, '\n');
  }

  lemma {:induction false} KeptLinesOfCollapsed(lines: seq<string>)
    requires forall i :: 0 <= i < |lines| ==> lines[i] != [] && exists line :: lines[i] == Collapse(line)
    ensures KeptLines(lines) == lines
  {
    if lines != [] {
      var line :| lines[0] == Collapse(line);
      CollapseKeepsWords(line);
      KeptLinesOfCollapsed(lines[1..]);
    }
  }

  lemma NormaliseIsIdempotent(s: string)
    ensures Normalise(Normalise(s)) == Normalise(s)
  {
    var kept := KeptLines(Split(s));
    KeptLinesHaveNoBreaks(Split(s));
    KeptLinesAreCollapsed(Split(s));
    if kept != [] {
      SplitOfJoin(kept);
      KeptLinesOfCollapsed(kept);
    }
  }

  // ---------------------------------------------------------------------------------------------
  // Inline and block neighbours
  // ---------------------------------------------------------------------------------------------

  predicate Inline(n: Node)
    decreases n
  {
    match n
    case TextNode(_) => true
    case Element(tag, children) => !StartsLine(tag) && forall i :: 0 <= i < |children| ==> Inline(children[i])
    case Container(children) => forall i :: 0 <= i < |children| ==> Inline(children[i])
  }

  // Adjacent inline nodes never split a word.
  lemma {:induction false} InlineNeverSplits(n: Node)
    requires Inline(n)
    ensures Marked(n) == PlainText(n)
    decreases n, 1
  {
    if !n.TextNode? {
      if n.Element? {
        BlockTagsStartLines(n.tag);
      }
      InlineNeverSplitsAll(n.children);
    }
  }

  lemma {:induction false} InlineNeverSplitsAll(ns: seq<Node>)
    requires forall i :: 0 <= i < |ns| ==> Inline(ns[i])
    ensures MarkedAll(ns) == PlainTextAll(ns)
    decreases ns, 0
  {
    if ns != [] {
      InlineNeverSplits(ns[0]);
      InlineNeverSplitsAll(ns[1..]);
    }
  }

  // The start of a block separates words; its end does not: text right after a block continues
  // the block's last word.
  lemma BlockStartBreaksBlockEndDoesNot(before: string, inside: string, after: string)
    requires IsWord(before) && IsWord(inside) && IsWord(after)
    ensures Fields(Marked(Container([TextNode(before), Element("p", [TextNode(inside)]), TextNode(after)]))) ==
            [before, inside + after]
  {
    var p := Element("p", [TextNode(inside)]);
    var ns := [TextNode(before), p, TextNode(after)];
    assert ns[1..] == [p, TextNode(after)] && ns[1..][1..] == [TextNode(after)] && ns[1..][1..][1..] == [];
    assert [TextNode(inside)][1..] == [];
    assert MarkedAll([TextNode(after)]) == after + "";
    assert MarkedAll([TextNode(inside)]) == inside + "";
    assert p.tag == "p" && "p" in BlockTags;
    assert Marked(p) == "\n" + inside;
    assert MarkedAll(ns) == before + ("\n" + (inside + after));
    FieldsAcrossSpace(before, "\n" + (inside + after));
    FieldsOfWord(before);
    forall i | 0 <= i < |inside + after|
      ensures !IsSpace((inside + after)[i])
    {
    }
    FieldsOfWord(inside + after);
  }
}
