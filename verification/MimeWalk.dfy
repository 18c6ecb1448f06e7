/** Picking the text and the HTML out of a MIME part tree of any depth. */
module MimeWalk {
  import opened Wrappers
  import opened Text
  import opened HtmlText
  import opened HtmlTree
  import opened MimeParts

  // ---------------------------------------------------------------------------------------------
  // Where the walk gives up
  // ---------------------------------------------------------------------------------------------

  // This part ends the walk, given what was found before it: it has to be read and cannot be, or
  // the walk of its own parts gives up.
  predicate Fails(p: Part, plain: string, html: string)
    decreases p, 1
  {
    && !Skipped(p)
    && var ct := p.mediaType.value;
       if ct == "text/plain" then plain == "" && p.content.Unreadable?
       else if ct == "text/html" then html == "" && p.content.Unreadable?
       else IsMultipart(ct) && GivesUp(p.inner, "", "")
  }

  predicate GivesUp(r: Reader, plain: string, html: string)
    decreases r, 0
  {
    match r
    case End => false
    case Broken => true
    case Next(p, rest) =>
      Fails(p, plain, html) || GivesUp(rest, Or(plain, First(LeavesOf(p), PlainText)), Or(html, First(LeavesOf(p), Html)))
  }

  // The part at index k is the one at which the walk gives up; at the end it is a broken reader.
  predicate FailsAt(r: Reader, k: nat) {
    if k < |Parts(r)| then Fails(Parts(r)[k], First(Before(r, k), PlainText), First(Before(r, k), Html))
    else EndsBroken(r)
  }

  // Nothing in the tree is broken or unreadable.
  predicate ErrorFree(r: Reader)
    decreases r
  {
    match r
    case End => true
    case Broken => false
    case Next(p, rest) => p.content.Decoded? && ErrorFree(p.inner) && ErrorFree(rest)
  }

  // The index of the first part that fails, or the number of parts.
  function StopFrom(r: Reader, plain: string, html: string): nat {
    if !r.Next? || Fails(r.part, plain, html) then 0
    else 1 + StopFrom(r.rest, Or(plain, First(LeavesOf(r.part), PlainText)), Or(html, First(LeavesOf(r.part), Html)))
  }

  function Stop(r: Reader): nat {
    StopFrom(r, "", "")
  }

  // ---------------------------------------------------------------------------------------------
  // The walk
  // ---------------------------------------------------------------------------------------------

  // Returns the first text and the first HTML, in document order, of the parts before the one it
  // cannot get past; it fails exactly when there is such a part.
  method WalkPartsForText(reader: Reader) returns (plain: string, html: string, ok: bool)
    ensures FirstText(reader, Stop(reader), "text/plain", plain)
    ensures FirstText(reader, Stop(reader), "text/html", html)
    ensures forall k: nat :: k < Stop(reader) ==> !Jams(reader, k)
    ensures ok == !Jams(reader, Stop(reader))
    ensures ok ==> Stop(reader) == |Parts(reader)| && !Jammed(reader)
    ensures plain == First(Before(reader, Stop(reader)), PlainText) && html == First(Before(reader, Stop(reader)), Html)
    ensures ok == !GivesUp(reader, "", "")
    decreases reader
  {
    WalkMeans(reader);
    var mr := reader;
    plain, html, ok := "", "", true;
    while true
      invariant GivesUp(mr, plain, html) == GivesUp(reader, "", "")
      invariant Or(plain, First(Before(mr, StopFrom(mr, plain, html)), PlainText)) == First(Before(reader, Stop(reader)), PlainText)
      invariant Or(html, First(Before(mr, StopFrom(mr, plain, html)), Html)) == First(Before(reader, Stop(reader)), Html)
      invariant mr == reader || mr < reader
      decreases mr
    {
      if mr.End? {
        return plain, html, true;
      }
      if mr.Broken? {
        return plain, html, false;
      }
      StepOver(mr, plain, html);
      plain, html, ok := WalkPart(mr.part, plain, html);
      if !ok {
        return;
      }
      mr := mr.rest;
    }
  }

  // One part: what it adds to what was found before it, or its failure.
  method WalkPart(part: Part, plain0: string, html0: string) returns (plain: string, html: string, ok: bool)
    ensures ok == !Fails(part, plain0, html0)
    ensures plain == if ok then Or(plain0, First(LeavesOf(part), PlainText)) else plain0
    ensures html == if ok then Or(html0, First(LeavesOf(part), Html)) else html0
    ensures part.attachment || part.mediaType.None? ==> ok && plain == plain0 && html == html0
    decreases part
  {
    TextIsNotMultipart();
    plain, html, ok := plain0, html0, true;
    if Skipped(part) {
      return;
    }
    var ct := part.mediaType.value;
    if ct == "text/plain" && plain == "" {
      if part.content.Unreadable? {
        return plain, html, false;
      }
      plain := part.content.text;
    } else if ct == "text/html" && html == "" {
      if part.content.Unreadable? {
        return plain, html, false;
      }
      html := part.content.text;
    } else if IsMultipart(ct) {
      var ip, ih, iok := WalkPartsForText(part.inner);
      if !iok {
        return plain, html, false;
      }
      WholeWalk(part.inner);
      if plain == "" {
        plain := ip;
      }
      if html == "" {
        html := ih;
      }
    }
  }

  // Passing a part that does not fail adds its leaves to what was found.
  lemma {:induction false} StepOver(r: Reader, plain: string, html: string)
    requires r.Next?
    ensures var p := r.part;
            var plain', html' := Or(plain, First(LeavesOf(p), PlainText)), Or(html, First(LeavesOf(p), Html));
            var k := StopFrom(r, plain, html);
            if Fails(p, plain, html) then k == 0 && Before(r, k) == []
            else
              && Or(plain, First(Before(r, k), PlainText)) == Or(plain', First(Before(r.rest, StopFrom(r.rest, plain', html')), PlainText))
              && Or(html, First(Before(r, k), Html)) == Or(html', First(Before(r.rest, StopFrom(r.rest, plain', html')), Html))
  {
    var p := r.part;
    if !Fails(p, plain, html) {
      var plain', html' := Or(plain, First(LeavesOf(p), PlainText)), Or(html, First(LeavesOf(p), Html));
      var k := StopFrom(r.rest, plain', html');
      assert StopFrom(r, plain, html) == 1 + k && Before(r, 1 + k) == LeavesOf(p) + Before(r.rest, k);
      FirstOfConcat(LeavesOf(p), Before(r.rest, k), PlainText);
      FirstOfConcat(LeavesOf(p), Before(r.rest, k), Html);
    }
  }

  // A walk that does not give up has seen every leaf.
  lemma WholeWalk(r: Reader)
    requires !GivesUp(r, "", "")
    ensures Before(r, Stop(r)) == Leaves(r)
  {
    WholeWalkFrom(r, "", "");
  }

  lemma {:induction false} WholeWalkFrom(r: Reader, plain: string, html: string)
    requires !GivesUp(r, plain, html)
    ensures Before(r, StopFrom(r, plain, html)) == Leaves(r)
    ensures StopFrom(r, plain, html) == |Parts(r)|
  {
    if r.Next? {
      WholeWalkFrom(r.rest, Or(plain, First(LeavesOf(r.part), PlainText)), Or(html, First(LeavesOf(r.part), Html)));
    }
  }

  // ---------------------------------------------------------------------------------------------
  // What stopping means
  // ---------------------------------------------------------------------------------------------

  // The part at index j fails, given these leaves and those of the parts before it.
  predicate FailsGiven(r: Reader, seen: seq<Leaf>, j: nat)
    requires j < |Parts(r)|
  {
    Fails(Parts(r)[j], First(seen + Before(r, j), PlainText), First(seen + Before(r, j), Html))
  }

  lemma {:induction false} FailsAlikeBehind(r: Reader, seen: seq<Leaf>, j: nat)
    requires r.Next? && 0 < j < |Parts(r)|
    ensures FailsGiven(r, seen, j) <==> FailsGiven(r.rest, seen + LeavesOf(r.part), j - 1)
  {
    assert seen + Before(r, j) == seen + LeavesOf(r.part) + Before(r.rest, j - 1);
  }

  lemma {:induction false} StopIsFirstFailureFrom(r: Reader, seen: seq<Leaf>)
    ensures var k := StopFrom(r, First(seen, PlainText), First(seen, Html));
            && k <= |Parts(r)|
            && (forall j :: 0 <= j < k ==> !FailsGiven(r, seen, j))
            && (k < |Parts(r)| ==> FailsGiven(r, seen, k))
            && (GivesUp(r, First(seen, PlainText), First(seen, Html)) <==> k < |Parts(r)| || EndsBroken(r))
  {
    assert seen + [] == seen;
    if r.Next? {
      FirstOfConcat(seen, LeavesOf(r.part), PlainText);
      FirstOfConcat(seen, LeavesOf(r.part), Html);
      StopIsFirstFailureFrom(r.rest, seen + LeavesOf(r.part));
      forall j | 0 < j < |Parts(r)|
        ensures FailsGiven(r, seen, j) <==> FailsGiven(r.rest, seen + LeavesOf(r.part), j - 1)
      {
        FailsAlikeBehind(r, seen, j);
      }
    }
  }

  // The walk stops at the first part that fails given what its earlier siblings hold.
  lemma {:induction false} StopIsFirstFailure(r: Reader)
    ensures Stop(r) <= |Parts(r)|
    ensures forall j :: 0 <= j < Stop(r) ==> !FailsAt(r, j)
    ensures GivesUp(r, "", "") <==> FailsAt(r, Stop(r))
  {
    StopIsFirstFailureFrom(r, []);
    forall j: nat | j < |Parts(r)|
      ensures FailsGiven(r, [], j) <==> FailsAt(r, j)
    {
      assert [] + Before(r, j) == Before(r, j);
    }
  }

  // Nothing of this type with a text stands in the first k parts, so this part has to be read.
  ghost predicate Unread(r: Reader, k: nat, mediaType: string)
    requires k < |Parts(r)|
  {
    && Parts(r)[k].mediaType == Some(mediaType) && !Parts(r)[k].attachment && Parts(r)[k].content.Unreadable?
    && forall place, t :: Shows(r, k, mediaType, place, t) ==> t == ""
  }

  // The walk cannot get past part k, or past the end: the part has to be read and cannot be, or it
  // is an inline multipart with such a part inside; behind the last part the reader breaks off.
  ghost predicate Jams(r: Reader, k: nat)
    decreases r, 0
  {
    if k >= |Parts(r)| then k == |Parts(r)| && EndsBroken(r)
    else
      var p := Parts(r)[k];
      PartsAreInside(r, k);
      Unread(r, k, "text/plain") || Unread(r, k, "text/html") ||
      (!p.attachment && p.mediaType.Some? && "multipart/" <= p.mediaType.value && Jammed(p.inner))
  }

  ghost predicate Jammed(r: Reader)
    decreases r, 1
  {
    exists k: nat :: Jams(r, k)
  }

  lemma {:induction false} PartsAreInside(r: Reader, k: nat)
    requires k < |Parts(r)|
    ensures Parts(r)[k].inner < r
  {
    if k > 0 {
      PartsAreInside(r.rest, k - 1);
    }
  }

  lemma {:induction false} JamsWhereItFails(r: Reader, k: nat)
    requires k <= |Parts(r)|
    ensures Jams(r, k) <==> FailsAt(r, k)
    decreases r, 0
  {
    if k < |Parts(r)| {
      var p := Parts(r)[k];
      PartsAreInside(r, k);
      UnreadIff(r, k, PlainText);
      UnreadIff(r, k, Html);
      TextIsNotMultipart();
      assert "text/plain"[5] != "text/html"[5];
      if !p.attachment && p.mediaType.Some? && IsMultipart(p.mediaType.value) {
        JamsIffGivesUp(p.inner);
        assert p.mediaType != Some("text/plain") && p.mediaType != Some("text/html");
        assert !Unread(r, k, "text/plain") && !Unread(r, k, "text/html");
        assert FailsAt(r, k) <==> GivesUp(p.inner, "", "");
      } else {
        assert Fails(p, First(Before(r, k), PlainText), First(Before(r, k), Html)) <==>
               Unread(r, k, "text/plain") || Unread(r, k, "text/html");
      }
    }
  }

  lemma {:induction false} UnreadIff(r: Reader, k: nat, kind: Kind)
    requires k < |Parts(r)|
    ensures Unread(r, k, TypeOf(kind)) <==>
              Parts(r)[k].mediaType == Some(TypeOf(kind)) && !Parts(r)[k].attachment && Parts(r)[k].content.Unreadable? &&
              First(Before(r, k), kind) == ""
  {
    FirstIsFirstText(r, k, kind);
  }

  lemma {:induction false} JamsIffGivesUp(r: Reader)
    ensures Jammed(r) <==> GivesUp(r, "", "")
    decreases r, 1
  {
    StopIsFirstFailure(r);
    forall j: nat | j <= |Parts(r)|
      ensures Jams(r, j) <==> FailsAt(r, j)
    {
      JamsWhereItFails(r, j);
    }
    if GivesUp(r, "", "") {
      assert Jams(r, Stop(r));
    } else {
      WholeWalkFrom(r, "", "");
    }
  }

  // The walk in terms of places.
  lemma {:induction false} WalkMeans(r: Reader)
    ensures FirstText(r, Stop(r), "text/plain", First(Before(r, Stop(r)), PlainText))
    ensures FirstText(r, Stop(r), "text/html", First(Before(r, Stop(r)), Html))
    ensures forall k: nat :: k < Stop(r) ==> !Jams(r, k)
    ensures Jams(r, Stop(r)) <==> GivesUp(r, "", "")
    ensures !GivesUp(r, "", "") ==> Stop(r) == |Parts(r)| && !Jammed(r)
  {
    StopIsFirstFailure(r);
    assert Stop(r) <= |Parts(r)|;
    FirstIsFirstText(r, Stop(r), PlainText);
    FirstIsFirstText(r, Stop(r), Html);
    forall k: nat | k <= Stop(r)
      ensures Jams(r, k) <==> FailsAt(r, k)
    {
      JamsWhereItFails(r, k);
    }
    JamsIffGivesUp(r);
    if !GivesUp(r, "", "") {
      WholeWalkFrom(r, "", "");
    }
  }

  // ---------------------------------------------------------------------------------------------
  // What the walk does not look at
  // ---------------------------------------------------------------------------------------------

  // The tree without attachments and without parts whose type does not parse, at any depth.
  function Pruned(r: Reader): Reader {
    match r
    case Next(p, rest) =>
      if p.attachment || p.mediaType.None? then Pruned(rest) else Next(p.(inner := Pruned(p.inner)), Pruned(rest))
    case _ => r
  }

  lemma {:induction false} PruningKeepsLeaves(r: Reader)
    ensures Leaves(Pruned(r)) == Leaves(r)
  {
    if r.Next? {
      PruningKeepsLeaves(r.part.inner);
      PruningKeepsLeaves(r.rest);
    }
  }

  lemma {:induction false} PruningKeepsPart(p: Part, plain: string, html: string)
    requires GivesUp(Pruned(p.inner), "", "") == GivesUp(p.inner, "", "")
    ensures LeavesOf(p.(inner := Pruned(p.inner))) == LeavesOf(p)
    ensures Fails(p.(inner := Pruned(p.inner)), plain, html) == Fails(p, plain, html)
    ensures p.attachment || p.mediaType.None? ==> LeavesOf(p) == [] && !Fails(p, plain, html)
  {
    PruningKeepsLeaves(p.inner);
  }

  // They make no difference to what is found or to whether the walk fails.
  lemma {:induction false} PruningChangesNothing(r: Reader, plain: string, html: string)
    ensures GivesUp(Pruned(r), plain, html) == GivesUp(r, plain, html)
    ensures Before(Pruned(r), StopFrom(Pruned(r), plain, html)) == Before(r, StopFrom(r, plain, html))
  {
    if r.Next? {
      var p := r.part;
      PruningChangesNothing(p.inner, "", "");
      PruningKeepsPart(p, plain, html);
      PruningChangesNothing(r.rest, Or(plain, First(LeavesOf(p), PlainText)), Or(html, First(LeavesOf(p), Html)));
    }
  }

  lemma {:induction false} ErrorFreeNeverGivesUp(r: Reader, plain: string, html: string)
    requires ErrorFree(r)
    ensures !GivesUp(r, plain, html)
  {
    if r.Next? {
      ErrorFreeNeverGivesUp(r.part.inner, "", "");
      ErrorFreeNeverGivesUp(r.rest, Or(plain, First(LeavesOf(r.part), PlainText)), Or(html, First(LeavesOf(r.part), Html)));
    }
  }

  // On an error-free tree of any depth the recursive walk is the flat search.
  method WalkErrorFree(reader: Reader) returns (plain: string, html: string, ok: bool)
    requires ErrorFree(reader)
    ensures ok && plain == First(Leaves(reader), PlainText) && html == First(Leaves(reader), Html)
    ensures FirstText(reader, |Parts(reader)|, "text/plain", plain)
    ensures FirstText(reader, |Parts(reader)|, "text/html", html)
  {
    plain, html, ok := WalkPartsForText(reader);
    ErrorFreeNeverGivesUp(reader, "", "");
    WholeWalk(reader);
  }

  // ---------------------------------------------------------------------------------------------
  // The message body
  // ---------------------------------------------------------------------------------------------

  // The stored text: the plain text when it holds a word, else the words of the HTML.
  method PreferText(plain: string, html: string, doc: Option<Node>) returns (text: string)
    ensures Fields(plain) != [] ==> text == plain
    ensures Fields(plain) == [] && html != "" && doc.Some? ==>
              Visible(text) == Visible(HtmlTree.PlainText(doc.value)) && Tidy(text) &&
              WordLines(Split(text)) == WordLines(Split(Shown(DocumentOrder(doc.value))))
    ensures Fields(plain) == [] && (html == "" || doc.None?) ==> text == ""
  {
    if Fields(plain) != [] {
      return plain;
    }
    if html != "" && doc.Some? {
      text := HtmlToText(doc.value);
      return;
    }
    return "";
  }
}
