/** Words, lines and the white space between them. */
module Text {
  // The code points the standard library counts as white space.
  predicate IsSpace(c: char) {
    c in {'\t', '\n', '\U{0B}', '\U{0C}', '\r', ' ', '\U{85}', '\U{A0}', '\U{1680}', '\U{2028}', '\U{2029}',
          '\U{202F}', '\U{205F}', '\U{3000}'} ||
    '\U{2000}' <= c <= '\U{200A}'
  }

  predicate IsWord(w: string) {
    w != [] && forall i :: 0 <= i < |w| ==> !IsSpace(w[i])
  }

  // The length of the run of non-space characters a string starts with.
  function RunLength(s: string): (n: nat)
    ensures n <= |s|
    ensures forall i :: 0 <= i < n ==> !IsSpace(s[i])
    ensures n < |s| ==> IsSpace(s[n])
  {
    if s == [] || IsSpace(s[0]) then 0 else 1 + RunLength(s[1..])
  }

  // The words of a string, in order.
  function Fields(s: string): (words: seq<string>)
    ensures forall i :: 0 <= i < |words| ==> IsWord(words[i])
    decreases |s|
  {
    if s == [] then []
    else if IsSpace(s[0]) then Fields(s[1..])
    else
      var n := RunLength(s);
      [s[..n]] + Fields(s[n..])
  }

  function Join(parts: seq<string>, separator: string): string {
    if parts == [] then []
    else if |parts| == 1 then parts[0]
    else parts[0] + separator + Join(parts[1..], separator)
  }

  // The lines of a string; the empty string is one empty line.
  function Split(s: string): (lines: seq<string>)
    ensures lines != []
    ensures forall i :: 0 <= i < |lines| ==> '\n' !in lines[i]
  {
    if s == [] then [[]]
    else
      var rest := Split(s[1..]);
      if s[0] == '\n' then [[]] + rest else [[s[0]] + rest[0]] + rest[1..]
  }

  function Flatten(parts: seq<seq<string>>): seq<string> {
    if parts == [] then [] else parts[0] + Flatten(parts[1..])
  }

  function WordsOfLines(lines: seq<string>): seq<string> {
    if lines == [] then [] else Fields(lines[0]) + WordsOfLines(lines[1..])
  }

  // The words of each line that has any.
  function WordLines(lines: seq<string>): seq<seq<string>> {
    if lines == [] then []
    else (if Fields(lines[0]) == [] then [] else [Fields(lines[0])]) + WordLines(lines[1..])
  }

  // The characters of a string that are no white space.
  function Visible(s: string): string {
    if s == [] then "" else (if IsSpace(s[0]) then "" else [s[0]]) + Visible(s[1..])
  }

  function Glued(words: seq<string>): string {
    if words == [] then "" else words[0] + Glued(words[1..])
  }

  // ---------------------------------------------------------------------------------------------
  // Words and white space
  // ---------------------------------------------------------------------------------------------

  lemma RunStopsAtSpace(a: string, b: string)
    requires b != [] && IsSpace(b[0])
    ensures RunLength(a + b) == RunLength(a)
  {
    if a != [] && !IsSpace(a[0]) {
      assert (a + b)[1..] == a[1..] + b;
      RunStopsAtSpace(a[1..], b);
    }
  }

  // White space separates: the words around it do not touch each other.
  lemma {:induction false} FieldsAcrossSpace(a: string, b: string)
    requires b != [] && IsSpace(b[0])
    ensures Fields(a + b) == Fields(a) + Fields(b[1..])
    decreases |a|
  {
    if a == [] {
      assert a + b == b;
    } else if IsSpace(a[0]) {
      assert (a + b)[1..] == a[1..] + b;
      FieldsAcrossSpace(a[1..], b);
    } else {
      var n := RunLength(a);
      RunStopsAtSpace(a, b);
      assert (a + b)[..n] == a[..n];
      assert (a + b)[n..] == a[n..] + b;
      FieldsAcrossSpace(a[n..], b);
      assert Fields(a + b) == [a[..n]] + (Fields(a[n..]) + Fields(b[1..]));
    }
  }

  lemma {:induction false} VisibleInPieces(a: string, b: string)
    ensures Visible(a + b) == Visible(a) + Visible(b)
  {
    if a == [] {
      assert a + b == b;
    } else {
      assert (a + b)[1..] == a[1..] + b;
      VisibleInPieces(a[1..], b);
    }
  }

  lemma {:induction false} WordIsVisible(w: string)
    requires forall i :: 0 <= i < |w| ==> !IsSpace(w[i])
    ensures Visible(w) == w
  {
    if w != [] {
      WordIsVisible(w[1..]);
    }
  }

  // The words hold exactly the characters that are no white space, in order.
  lemma {:induction false} WordsAreVisible(s: string)
    ensures Glued(Fields(s)) == Visible(s)
    decreases |s|
  {
    if s != [] {
      if IsSpace(s[0]) {
        WordsAreVisible(s[1..]);
      } else {
        var n := RunLength(s);
        WordsAreVisible(s[n..]);
        WordIsVisible(s[..n]);
        VisibleInPieces(s[..n], s[n..]);
        assert s == s[..n] + s[n..];
        assert ([s[..n]] + Fields(s[n..]))[1..] == Fields(s[n..]);
      }
    }
  }

  lemma FieldsOfWord(w: string)
    requires IsWord(w)
    ensures Fields(w) == [w]
  {
    var n := RunLength(w);
    assert n == |w|;
    assert w[..n] == w && w[n..] == [];
  }

  lemma {:induction false} FieldsOfJoin(words: seq<string>)
    requires forall i :: 0 <= i < |words| ==> IsWord(words[i])
    ensures Fields(Join(words, " ")) == words
  {
    if |words| == 1 {
      FieldsOfWord(words[0]);
    } else if |words| > 1 {
      var rest := Join(words[1..], " ");
      FieldsOfJoin(words[1..]);
      FieldsOfWord(words[0]);
      assert words[0] + " " + rest == words[0] + (" " + rest);
      FieldsAcrossSpace(words[0], " " + rest);
    }
  }

  // A character that is no line break belongs to the first line.
  lemma {:induction false} FirstLineGrows(s: string)
    requires s != [] && s[0] != '\n'
    ensures var lines, rest := Split(s), Split(s[1..]);
            && |lines| == |rest| && lines[0] == [s[0]] + rest[0] && lines[1..] == rest[1..]
            && (|rest[0]| + 1 < |s| ==> s[1..][|rest[0]| + 1..] == s[|lines[0]| + 1..])
  {
  }

  // A line break ends an empty first line.
  lemma {:induction false} FirstLineEnds(s: string)
    requires s != [] && s[0] == '\n'
    ensures Split(s) == [""] + Split(s[1..]) && Split(s)[1..] == Split(s[1..]) && s == "\n" + s[1..]
  {
  }

  // Everything up to the first line break is the first line.
  predicate HeadThenRest(s: string, lines: seq<string>)
    requires lines != []
  {
    if |lines| == 1 then s == lines[0]
    else |lines[0]| < |s| && s == lines[0] + "\n" + s[|lines[0]| + 1..] && Split(s[|lines[0]| + 1..]) == lines[1..]
  }

  lemma {:induction false} SplitHead(s: string)
    ensures HeadThenRest(s, Split(s))
  {
    if s == [] {
    } else if s[0] == '\n' {
      FirstLineEnds(s);
    } else {
      SplitHead(s[1..]);
      FirstLineGrows(s);
      HeadGrows(s, Split(s), Split(s[1..]));
    }
  }

  lemma {:induction false} HeadGrows(s: string, lines: seq<string>, rest: seq<string>)
    requires s != [] && rest != [] && HeadThenRest(s[1..], rest)
    requires |lines| == |rest| && lines[0] == [s[0]] + rest[0] && lines[1..] == rest[1..]
    ensures HeadThenRest(s, lines)
  {
    assert s == [s[0]] + s[1..];
    if |lines| > 1 {
      assert s[1..][|rest[0]| + 1..] == s[|lines[0]| + 1..];
    }
  }

  lemma {:induction false} FieldsOfLines(s: string)
    ensures Fields(s) == WordsOfLines(Split(s))
    decreases |s|
  {
    SplitHead(s);
    var lines := Split(s);
    if |lines| == 1 {
      assert WordsOfLines(lines) == Fields(s) + WordsOfLines(lines[1..]);
    } else {
      var after := s[|lines[0]| + 1..];
      assert s == lines[0] + ("\n" + after);
      FieldsAcrossSpace(lines[0], "\n" + after);
      assert ("\n" + after)[1..] == after;
      FieldsOfLines(after);
    }
  }

  lemma {:induction false} SplitOfJoin(lines: seq<string>)
    requires lines != []
    requires forall i :: 0 <= i < |lines| ==> '\n' !in lines[i]
    ensures Split(Join(lines, "\n")) == lines
  {
    if |lines| == 1 {
      SplitOfOneLine(lines[0]);
    } else {
      SplitOfJoin(lines[1..]);
      SplitAtBreak(lines[0], Join(lines[1..], "\n"));
      assert lines[0] + "\n" + Join(lines[1..], "\n") == Join(lines, "\n");
      assert [lines[0]] + lines[1..] == lines;
    }
  }

  lemma {:induction false} SplitOfOneLine(line: string)
    requires '\n' !in line
    ensures Split(line) == [line]
  {
    if line != [] {
      SplitOfOneLine(line[1..]);
      assert [line[0]] + line[1..] == line;
    }
  }

  lemma {:induction false} SplitAtBreak(line: string, rest: string)
    requires '\n' !in line
    ensures Split(line + "\n" + rest) == [line] + Split(rest)
  {
    var s := line + "\n" + rest;
    if line == [] {
      assert s[1..] == rest;
    } else {
      assert s[1..] == line[1..] + "\n" + rest;
      SplitAtBreak(line[1..], rest);
      assert [s[0]] + line[1..] == line;
    }
  }
}
