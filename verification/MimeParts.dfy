/** The parts of a MIME message, and which of them its text is taken from. */
module MimeParts {
  import opened Wrappers

  // Reading and decoding a part's content.
  datatype Content = Decoded(text: string) | Unreadable

  // One part as its reader would see it; the media type is absent when it does not parse.
  datatype Part = Part(mediaType: Option<string>, attachment: bool, content: Content, inner: Reader)

  // What the calls to NextPart deliver: parts, then the end or an error.
  datatype Reader = End | Broken | Next(part: Part, rest: Reader)

  datatype Kind = PlainText | Html

  datatype Leaf = Leaf(kind: Kind, content: Content)

  predicate IsMultipart(mediaType: string) {
    "multipart/" <= mediaType
  }

  predicate Skipped(p: Part) {
    p.mediaType.None? || p.attachment
  }

  // ---------------------------------------------------------------------------------------------
  // The flat view
  // ---------------------------------------------------------------------------------------------

  // The text leaves of a part in document order, without attachments and unparseable types.
  function LeavesOf(p: Part): seq<Leaf>
    decreases p, 1
  {
    if Skipped(p) then []
    else if p.mediaType.value == "text/plain" then [Leaf(PlainText, p.content)]
    else if p.mediaType.value == "text/html" then [Leaf(Html, p.content)]
    else if IsMultipart(p.mediaType.value) then Leaves(p.inner)
    else []
  }

  function Leaves(r: Reader): seq<Leaf>
    decreases r, 0
  {
    if r.Next? then LeavesOf(r.part) + Leaves(r.rest) else []
  }

  // The first non-empty readable text of a kind.
  function First(leaves: seq<Leaf>, kind: Kind): string {
    if leaves == [] then ""
    else if leaves[0].kind == kind && leaves[0].content.Decoded? && leaves[0].content.text != "" then leaves[0].content.text
    else First(leaves[1..], kind)
  }

  function Parts(r: Reader): seq<Part> {
    if r.Next? then [r.part] + Parts(r.rest) else []
  }

  predicate EndsBroken(r: Reader) {
    if r.Next? then EndsBroken(r.rest) else r.Broken?
  }

  // The leaves of the first k parts.
  function Before(r: Reader, k: nat): seq<Leaf> {
    if k == 0 || !r.Next? then [] else LeavesOf(r.part) + Before(r.rest, k - 1)
  }

  function Or(found: string, other: string): string {
    if found == "" then other else found
  }

  lemma FirstOfConcat(a: seq<Leaf>, b: seq<Leaf>, kind: Kind)
    ensures First(a + b, kind) == Or(First(a, kind), First(b, kind))
  {
    if a == [] {
      assert a + b == b;
    } else {
      assert (a + b)[1..] == a[1..] + b;
    }
  }

  // First names a leaf: the first of its kind that is readable and not empty.
  lemma {:induction false} FirstIsFirst(leaves: seq<Leaf>, kind: Kind)
    ensures First(leaves, kind) == "" <==>
              forall i :: 0 <= i < |leaves| ==> leaves[i].kind != kind || leaves[i].content in {Unreadable, Decoded("")}
    ensures First(leaves, kind) != "" ==>
              exists i :: 0 <= i < |leaves| && leaves[i] == Leaf(kind, Decoded(First(leaves, kind))) &&
                forall j :: 0 <= j < i ==> leaves[j].kind != kind || leaves[j].content in {Unreadable, Decoded("")}
  {
    if leaves != [] {
      FirstIsFirst(leaves[1..], kind);
      var hit := leaves[0].kind == kind && leaves[0].content.Decoded? && leaves[0].content.text != "";
      if hit {
        assert leaves[0] == Leaf(kind, Decoded(First(leaves, kind)));
      } else if First(leaves, kind) != "" {
        var i :| 0 <= i < |leaves[1..]| && leaves[1..][i] == Leaf(kind, Decoded(First(leaves, kind))) &&
          forall j :: 0 <= j < i ==> leaves[1..][j].kind != kind || leaves[1..][j].content in {Unreadable, Decoded("")};
        assert leaves[i + 1] == Leaf(kind, Decoded(First(leaves, kind)));
        forall j | 0 <= j < i + 1
          ensures leaves[j].kind != kind || leaves[j].content in {Unreadable, Decoded("")}
        {
          if j > 0 {
            assert leaves[j] == leaves[1..][j - 1];
          }
        }
      }
    }
  }

  // ---------------------------------------------------------------------------------------------
  // Places in the tree
  // ---------------------------------------------------------------------------------------------

  // The part at a place: the index of a part, then of a part inside it, and so on.  Only the insides
  // of multipart parts count, and of those only that are no attachments.
  function PartAt(r: Reader, place: seq<nat>): Option<Part>
    decreases |place|
  {
    if place == [] || place[0] >= |Parts(r)| then None
    else
      var p := Parts(r)[place[0]];
      if |place| == 1 then Some(p)
      else if p.attachment || p.mediaType.None? || !("multipart/" <= p.mediaType.value) then None
      else PartAt(p.inner, place[1..])
  }

  // Document order.
  predicate Precedes(a: seq<nat>, b: seq<nat>) {
    a != [] && b != [] && (a[0] < b[0] || (a[0] == b[0] && Precedes(a[1..], b[1..])))
  }

  // In the first n parts, at this place: an inline part of this very type with this text.
  predicate Shows(r: Reader, n: nat, mediaType: string, place: seq<nat>, text: string) {
    && place != [] && place[0] < n && PartAt(r, place).Some?
    && PartAt(r, place).value.mediaType == Some(mediaType)
    && !PartAt(r, place).value.attachment
    && PartAt(r, place).value.content == Decoded(text)
  }

  // The text is that of the first inline part of this type, in document order, that has any.
  ghost predicate FirstText(r: Reader, n: nat, mediaType: string, text: string) {
    if text == "" then forall place, t :: Shows(r, n, mediaType, place, t) ==> t == ""
    else exists place :: Shows(r, n, mediaType, place, text) && NoneBefore(r, n, mediaType, place)
  }

  ghost predicate NoneBefore(r: Reader, n: nat, mediaType: string, place: seq<nat>) {
    forall other, t :: Shows(r, n, mediaType, other, t) && Precedes(other, place) ==> t == ""
  }

  function TypeOf(kind: Kind): string {
    if kind.PlainText? then "text/plain" else "text/html"
  }

  lemma TextIsNotMultipart()
    ensures !IsMultipart("text/plain") && !IsMultipart("text/html")
  {
    assert "text/plain"[0] == 't' && "text/html"[0] == 't' && "multipart/"[0] == 'm';
  }

  // A place behind the first part, as seen from there.
  lemma {:induction false} PlaceBehind(r: Reader, place: seq<nat>)
    requires r.Next? && place != [] && place[0] > 0
    ensures PartAt(r, place) == PartAt(r.rest, [(place[0] - 1) as nat] + place[1..])
  {
    var there := [(place[0] - 1) as nat] + place[1..];
    assert there[1..] == place[1..];
    if place[0] < |Parts(r)| {
      assert Parts(r)[place[0]] == Parts(r.rest)[place[0] - 1];
    }
  }

  // The places in the first part.
  lemma {:induction false} PlaceInFirst(r: Reader, place: seq<nat>)
    requires r.Next? && |place| > 1 && place[0] == 0
    ensures PartAt(r, place) ==
            if r.part.attachment || r.part.mediaType.None? || !IsMultipart(r.part.mediaType.value) then None
            else PartAt(r.part.inner, place[1..])
  {
    assert Parts(r)[0] == r.part;
  }

  lemma {:induction false} BeforeAll(r: Reader)
    ensures Before(r, |Parts(r)|) == Leaves(r)
  {
    if r.Next? {
      BeforeAll(r.rest);
    }
  }

  // What the leaves of the first n parts show is what their places do.
  lemma {:induction false} FirstIsFirstText(r: Reader, n: nat, kind: Kind)
    requires n <= |Parts(r)|
    ensures FirstText(r, n, TypeOf(kind), First(Before(r, n), kind))
    decreases r, 0
  {
    if n > 0 {
      FirstOfPart(r, kind);
      FirstIsFirstText(r.rest, n - 1, kind);
      FirstOfConcat(LeavesOf(r.part), Before(r.rest, n - 1), kind);
      JoinFirstTexts(r, n, TypeOf(kind), First(LeavesOf(r.part), kind), First(Before(r.rest, n - 1), kind));
    }
  }

  lemma {:induction false} FirstOfPart(r: Reader, kind: Kind)
    requires r.Next?
    ensures FirstText(r, 1, TypeOf(kind), First(LeavesOf(r.part), kind))
    decreases r.part, 1
  {
    TextIsNotMultipart();
    var p := r.part;
    forall place: seq<nat> | |place| > 1 && place[0] == 0
      ensures PartAt(r, place) == if p.attachment || p.mediaType.None? || !IsMultipart(p.mediaType.value) then None
                                  else PartAt(p.inner, place[1..])
    {
      PlaceInFirst(r, place);
    }
    if !p.attachment && p.mediaType.Some? && IsMultipart(p.mediaType.value) {
      BeforeAll(p.inner);
      FirstIsFirstText(p.inner, |Parts(p.inner)|, kind);
      LiftFirstText(r, TypeOf(kind), First(Leaves(p.inner), kind));
    } else {
      LonePart(r, kind);
    }
  }

  lemma {:induction false} LonePart(r: Reader, kind: Kind)
    requires r.Next? && (r.part.attachment || r.part.mediaType.None? || !IsMultipart(r.part.mediaType.value))
    ensures FirstText(r, 1, TypeOf(kind), First(LeavesOf(r.part), kind))
  {
    var p, text := r.part, First(LeavesOf(r.part), kind);
    assert "text/plain"[5] != "text/html"[5];
    assert Parts(r)[0] == p && PartAt(r, [0]) == Some(p);
    assert forall leaf :: First([leaf], kind) == if leaf.kind == kind && leaf.content.Decoded? then leaf.content.text else "";
    forall place, t | Shows(r, 1, TypeOf(kind), place, t)
      ensures place == [0] && t == text
    {
      if |place| > 1 {
        PlaceInFirst(r, place);
      }
    }
    if text != "" {
      assert Shows(r, 1, TypeOf(kind), [0], text);
      assert forall other: seq<nat> :: !Precedes(other, [0]);
      assert NoneBefore(r, 1, TypeOf(kind), [0]);
    }
  }

  // The texts inside a multipart part are those of its own parts.
  lemma {:induction false} LiftFirstText(r: Reader, mediaType: string, text: string)
    requires r.Next? && !r.part.attachment && r.part.mediaType.Some? && IsMultipart(r.part.mediaType.value)
    requires !IsMultipart(mediaType) && FirstText(r.part.inner, |Parts(r.part.inner)|, mediaType, text)
    ensures FirstText(r, 1, mediaType, text)
  {
    var inner := r.part.inner;
    var n := |Parts(inner)|;
    assert Parts(r)[0] == r.part && PartAt(r, [0]) == Some(r.part);
    forall place, t | Shows(r, 1, mediaType, place, t)
      ensures |place| > 1 && Shows(inner, n, mediaType, place[1..], t)
    {
      assert place == [0] || |place| > 1;
      if |place| > 1 {
        PlaceInFirst(r, place);
      }
    }
    if text != "" {
      var inside :| Shows(inner, n, mediaType, inside, text) && NoneBefore(inner, n, mediaType, inside);
      var place := [0] + inside;
      assert place[1..] == inside;
      PlaceInFirst(r, place);
      assert Shows(r, 1, mediaType, place, text);
      forall other, t | Shows(r, 1, mediaType, other, t) && Precedes(other, place)
        ensures t == ""
      {
        assert Shows(inner, n, mediaType, other[1..], t) && Precedes(other[1..], inside);
      }
    }
  }

  // The first text of a reader is the one in its first part, else the first behind it.
  lemma {:induction false} JoinFirstTexts(r: Reader, n: nat, mediaType: string, here: string, behind: string)
    requires r.Next? && 0 < n <= |Parts(r)|
    requires FirstText(r, 1, mediaType, here) && FirstText(r.rest, n - 1, mediaType, behind)
    ensures FirstText(r, n, mediaType, Or(here, behind))
  {
    forall place, t | Shows(r, n, mediaType, place, t)
      ensures if place[0] == 0 then Shows(r, 1, mediaType, place, t)
              else Shows(r.rest, n - 1, mediaType, [(place[0] - 1) as nat] + place[1..], t)
    {
      if place[0] > 0 {
        PlaceBehind(r, place);
      }
    }
    if here != "" {
      var place :| Shows(r, 1, mediaType, place, here) && NoneBefore(r, 1, mediaType, place);
      assert Shows(r, n, mediaType, place, here);
      forall other, t | Shows(r, n, mediaType, other, t) && Precedes(other, place)
        ensures t == ""
      {
        assert Shows(r, 1, mediaType, other, t);
      }
    } else if behind != "" {
      var there :| Shows(r.rest, n - 1, mediaType, there, behind) && NoneBefore(r.rest, n - 1, mediaType, there);
      var place := [there[0] + 1] + there[1..];
      PlaceBehind(r, place);
      assert [(place[0] - 1) as nat] + place[1..] == there;
      assert Shows(r, n, mediaType, place, behind);
      forall other, t | Shows(r, n, mediaType, other, t) && Precedes(other, place)
        ensures t == ""
      {
        if other[0] > 0 {
          var o := [(other[0] - 1) as nat] + other[1..];
          assert o[1..] == other[1..] && place[1..] == there[1..];
          assert Precedes(o, there);
          assert Shows(r.rest, n - 1, mediaType, o, t);
        } else {
          assert Shows(r, 1, mediaType, other, t);
        }
      }
    }
  }
}
