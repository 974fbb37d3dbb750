/** The Python string operations the handlers apply to tool output and to
    request fields: `split(sep)`, `split()`, `splitlines()`, `rstrip(c)`,
    `lower()` and `sep.join(...)`. A Python `str` is a sequence of code
    points, modelled as a Dafny `string`. */
module Text {

  function Last<T>(s: seq<T>): T
    requires s != []
  {
    s[|s| - 1]
  }

  function DropLast<T>(s: seq<T>): seq<T>
    requires s != []
  {
    s[..|s| - 1]
  }

  /** Index of the first character of `s` that satisfies `p`, or `|s|`. */
  function FirstWhere(s: string, p: char -> bool): (k: nat)
    ensures k <= |s|
    ensures forall i :: 0 <= i < k ==> !p(s[i])
    ensures k < |s| ==> p(s[k])
    decreases |s|
  {
    if s == [] then 0
    else if p(s[0]) then 0
    else 1 + FirstWhere(s[1..], p)
  }

  /** Index of the first `c` in `s`, or `|s|` when `c` does not occur. */
  function IndexOf(s: string, c: char): (k: nat)
    ensures k <= |s|
    ensures c !in s[..k]
    ensures k < |s| ==> s[k] == c
    decreases |s|
  {
    if s == [] then 0
    else if s[0] == c then 0
    else 1 + IndexOf(s[1..], c)
  }

  // ---------------------------------------------------------------------
  // s.split(sep) with a one-character separator
  // ---------------------------------------------------------------------

  /** Python's `s.split(sep)`: the pieces between occurrences of `sep`,
      empty pieces included. */
  function SplitOn(s: string, sep: char): (parts: seq<string>)
    ensures |parts| >= 1
    ensures forall i :: 0 <= i < |parts| ==> sep !in parts[i]
    ensures |parts| > 1 <==> sep in s
    decreases |s|
  {
    var k := IndexOf(s, sep);
    if k == |s| then [s] else [s[..k]] + SplitOn(s[k + 1..], sep)
  }

  /** The first piece of a split is the text before the first separator. */
  lemma SplitOnFirst(s: string, sep: char)
    ensures var first := SplitOn(s, sep)[0];
      first <= s && (|first| < |s| ==> s[|first|] == sep)
  {
  }

  /** `piece` ends `s`, and either is all of `s` or follows a `sep`. */
  predicate EndsAfter(piece: string, s: string, sep: char)
  {
    |piece| <= |s| && s[|s| - |piece|..] == piece
    && (|piece| < |s| ==> s[|s| - |piece| - 1] == sep)
  }

  /** The last piece of a split is the text after the last separator. */
  lemma {:induction false} SplitOnLast(s: string, sep: char)
    ensures EndsAfter(Last(SplitOn(s, sep)), s, sep)
    decreases |s|
  {
    var k := IndexOf(s, sep);
    if k == |s| {
      assert SplitOn(s, sep) == [s];
      assert Last(SplitOn(s, sep)) == s;
      assert s[|s| - |s|..] == s;
      assert EndsAfter(s, s, sep);
    } else {
      var tail := s[k + 1..];
      SplitOnLast(tail, sep);
      LastOfSplit(s, sep);
      var last := Last(SplitOn(tail, sep));
      EndsAfterDrop(s, k, last, sep);
      assert Last(SplitOn(s, sep)) == last;
    }
  }

  /** A piece that ends the text after a separator at `k` ends `s`. */
  lemma EndsAfterDrop(s: string, k: nat, piece: string, sep: char)
    requires k < |s| && s[k] == sep
    requires EndsAfter(piece, s[k + 1..], sep)
    ensures EndsAfter(piece, s, sep)
  {
    assert s[|s| - |piece|..] == s[k + 1..][|s[k + 1..]| - |piece|..];
  }

  /** Past the first separator, the last piece is that of the rest. */
  lemma LastOfSplit(s: string, sep: char)
    requires IndexOf(s, sep) < |s|
    ensures Last(SplitOn(s, sep)) == Last(SplitOn(s[IndexOf(s, sep) + 1..], sep))
  {
    var k := IndexOf(s, sep);
    var rest := SplitOn(s[k + 1..], sep);
    assert SplitOn(s, sep) == [s[..k]] + rest;
    LastOfAppend([s[..k]], rest);
  }

  lemma LastOfAppend<T>(a: seq<T>, b: seq<T>)
    requires b != []
    ensures Last(a + b) == Last(b)
  {
    assert (a + b)[|a| + |b| - 1] == b[|b| - 1];
  }

  /** Python's `sep.join(parts)`. */
  function Join(parts: seq<string>, sep: string): string
  {
    if parts == [] then ""
    else if |parts| == 1 then parts[0]
    else parts[0] + sep + Join(parts[1..], sep)
  }

  lemma JoinCons(first: string, rest: seq<string>, sep: string)
    requires rest != []
    ensures Join([first] + rest, sep) == first + sep + Join(rest, sep)
  {
    assert ([first] + rest)[1..] == rest;
  }

  /** Joining the pieces of a split with the separator gives the text back. */
  lemma {:induction false} JoinSplitOn(s: string, sep: char)
    ensures Join(SplitOn(s, sep), [sep]) == s
    decreases |s|
  {
    var k := IndexOf(s, sep);
    if k < |s| {
      var tail := s[k + 1..];
      var rest := SplitOn(tail, sep);
      calc {
        Join(SplitOn(s, sep), [sep]);
        Join([s[..k]] + rest, [sep]);
        { JoinCons(s[..k], rest, [sep]); }
        s[..k] + [sep] + Join(rest, [sep]);
        { JoinSplitOn(tail, sep); }
        s[..k] + [sep] + tail;
        s;
      }
    }
  }

  /** A prefix free of the separator, followed by the separator, is split
      off as the first piece. */
  lemma SplitOnPrefix(a: string, sep: char, b: string)
    requires sep !in a
    ensures SplitOn(a + [sep] + b, sep) == [a] + SplitOn(b, sep)
  {
    var s := a + [sep] + b;
    var k := IndexOf(s, sep);
    assert s[|a|] == sep;
    assert forall i :: 0 <= i < |a| ==> s[i] == a[i];
    assert k == |a|;
    assert s[..k] == a && s[k + 1..] == b;
  }

  // ---------------------------------------------------------------------
  // s.splitlines()
  // ---------------------------------------------------------------------

  /** The characters Python's `str.splitlines` treats as line boundaries. */
  predicate IsLineBreak(c: char)
  {
    c == '\n' || c == '\r' || c == '\U{0B}' || c == '\U{0C}'
    || c == '\U{1C}' || c == '\U{1D}' || c == '\U{1E}' || c == '\U{85}'
    || c == '\U{2028}' || c == '\U{2029}'
  }

  predicate NoLineBreak(s: string)
  {
    forall i :: 0 <= i < |s| ==> !IsLineBreak(s[i])
  }

  /** Python's `s.splitlines()`: the lines of `s` without their
      terminators; "\r\n" is one terminator, a final terminator does not
      start an empty line, and empty lines in between are kept. */
  function SplitLines(s: string): (lines: seq<string>)
    ensures |lines| <= |s|
    ensures lines == [] <==> s == []
    decreases |s|
  {
    if s == [] then []
    else
      var k := FirstWhere(s, IsLineBreak);
      if k == |s| then [s]
      else
        var next := if s[k] == '\r' && k + 1 < |s| && s[k + 1] == '\n' then k + 2 else k + 1;
        [s[..k]] + SplitLines(s[next..])
  }

  /** No line holds a line boundary. */
  lemma {:induction false} SplitLinesNoBreak(s: string)
    ensures forall i :: 0 <= i < |SplitLines(s)| ==> NoLineBreak(SplitLines(s)[i])
    decreases |s|
  {
    if s != [] {
      var k := FirstWhere(s, IsLineBreak);
      if k < |s| {
        var next := if s[k] == '\r' && k + 1 < |s| && s[k + 1] == '\n' then k + 2 else k + 1;
        SplitLinesNoBreak(s[next..]);
      }
    }
  }

  /** The text a line-oriented tool prints: every line followed by "\n". */
  function Terminated(lines: seq<string>): string
  {
    if lines == [] then "" else lines[0] + "\n" + Terminated(lines[1..])
  }

  /** Lines printed one per "\n" are read back exactly, empty ones included. */
  lemma {:induction false} SplitLinesTerminated(lines: seq<string>)
    requires forall i :: 0 <= i < |lines| ==> NoLineBreak(lines[i])
    ensures SplitLines(Terminated(lines)) == lines
  {
    if lines != [] {
      var line, rest := lines[0], Terminated(lines[1..]);
      var s := Terminated(lines);
      assert s == line + "\n" + rest;
      var k := FirstWhere(s, IsLineBreak);
      assert s[|line|] == '\n';
      assert forall i :: 0 <= i < |line| ==> s[i] == line[i];
      assert k == |line|;
      assert s[..k] == line && s[k + 1..] == rest;
      SplitLinesTerminated(lines[1..]);
    }
  }

  /** Text whose only line boundary is "\n". */
  predicate OnlyNewlines(s: string)
  {
    forall i :: 0 <= i < |s| && IsLineBreak(s[i]) ==> s[i] == '\n'
  }

  /** What a line-oriented tool prints for `s`: `s` itself, with a final
      "\n" added when it is missing. */
  function WithFinalNewline(s: string): string
  {
    if s == [] || Last(s) == '\n' then s else s + "\n"
  }

  /** Splitting "\n"-separated text into lines loses at most a missing
      final "\n". */
  lemma {:induction false} TerminatedSplitLines(s: string)
    requires OnlyNewlines(s)
    ensures Terminated(SplitLines(s)) == WithFinalNewline(s)
    decreases |s|
  {
    if s != [] {
      var k := FirstWhere(s, IsLineBreak);
      if k < |s| {
        OnlyNewlinesSuffix(s, k + 1);
        TerminatedSplitLines(s[k + 1..]);
        TerminatedSplitLinesStep(s, k);
      } else {
        assert !IsLineBreak(Last(s));
        assert Terminated([s]) == s + "\n";
      }
    }
  }

  /** The step of `TerminatedSplitLines` at the first line boundary `k`. */
  lemma TerminatedSplitLinesStep(s: string, k: nat)
    requires OnlyNewlines(s) && k == FirstWhere(s, IsLineBreak) && k < |s|
    requires Terminated(SplitLines(s[k + 1..])) == WithFinalNewline(s[k + 1..])
    ensures Terminated(SplitLines(s)) == WithFinalNewline(s)
  {
    assert s[k] == '\n';
    assert SplitLines(s) == [s[..k]] + SplitLines(s[k + 1..]);
    TerminatedCons(s[..k], SplitLines(s[k + 1..]));
    RejoinAt(s, k);
  }

  /** Cutting `s` at a "\n" and ending the rest with "\n" ends `s` so. */
  lemma RejoinAt(s: string, k: nat)
    requires k < |s| && s[k] == '\n'
    ensures s[..k] + "\n" + WithFinalNewline(s[k + 1..]) == WithFinalNewline(s)
  {
    var line, rest := s[..k], s[k + 1..];
    assert s == line + "\n" + rest;
    if rest != [] {
      assert Last(s) == Last(rest);
    }
  }

  lemma OnlyNewlinesSuffix(s: string, j: nat)
    requires OnlyNewlines(s) && j <= |s|
    ensures OnlyNewlines(s[j..])
  {
    forall i | 0 <= i < |s[j..]| && IsLineBreak(s[j..][i])
      ensures s[j..][i] == '\n'
    {
      assert s[j..][i] == s[j + i];
    }
  }

  lemma TerminatedCons(line: string, lines: seq<string>)
    ensures Terminated([line] + lines) == line + "\n" + Terminated(lines)
  {
    assert ([line] + lines)[1..] == lines;
  }

  // ---------------------------------------------------------------------
  // s.split() with no argument
  // ---------------------------------------------------------------------

  /** The characters for which Python's `str.isspace` holds. */
  predicate IsSpace(c: char)
  {
    c == ' ' || c == '\t' || c == '\n' || c == '\r' || c == '\U{0B}' || c == '\U{0C}'
    || ('\U{1C}' <= c <= '\U{1F}') || c == '\U{85}' || c == '\U{A0}' || c == '\U{1680}'
    || ('\U{2000}' <= c <= '\U{200A}') || c == '\U{2028}' || c == '\U{2029}'
    || c == '\U{202F}' || c == '\U{205F}' || c == '\U{3000}'
  }

  predicate IsVisible(c: char)
  {
    !IsSpace(c)
  }

  predicate NoSpace(s: string)
  {
    forall i :: 0 <= i < |s| ==> !IsSpace(s[i])
  }

  /** Python's `s.split()`: the maximal runs of non-whitespace characters,
      so no field is empty and none holds whitespace. */
  function SplitWhitespace(s: string): seq<string>
    decreases |s|
  {
    var a := FirstWhere(s, IsVisible);
    if a == |s| then []
    else
      var rest := s[a..];
      var b := FirstWhere(rest, IsSpace);
      [rest[..b]] + SplitWhitespace(rest[b..])
  }

  /** No field of `split()` is empty or holds whitespace. */
  lemma {:induction false} SplitWhitespaceFields(s: string)
    ensures forall i :: 0 <= i < |SplitWhitespace(s)| ==>
      SplitWhitespace(s)[i] != [] && NoSpace(SplitWhitespace(s)[i])
    decreases |s|
  {
    var a := FirstWhere(s, IsVisible);
    if a < |s| {
      var rest := s[a..];
      var b := FirstWhere(rest, IsSpace);
      SplitWhitespaceFields(rest[b..]);
    }
  }

  /** Text made only of whitespace has no fields. */
  lemma SplitWhitespaceBlank(w: string)
    requires forall i :: 0 <= i < |w| ==> IsSpace(w[i])
    ensures SplitWhitespace(w) == []
  {
    FirstWhereIs(w, IsVisible, |w|);
  }

  /** Leading whitespace, then a word, then the end or more whitespace: the
      word is the first field and the fields of the rest follow. */
  lemma SplitWhitespaceWord(w: string, x: string, rest: string)
    requires forall i :: 0 <= i < |w| ==> IsSpace(w[i])
    requires x != [] && NoSpace(x)
    requires rest == [] || IsSpace(rest[0])
    ensures SplitWhitespace(w + x + rest) == [x] + SplitWhitespace(rest)
  {
    var t := x + rest;
    var s := w + t;
    assert w + x + rest == s;
    assert forall i :: 0 <= i < |w| ==> s[i] == w[i];
    assert s[|w|] == x[0];
    FirstWhereIs(s, IsVisible, |w|);
    assert s[|w|..] == t;
    assert forall i :: 0 <= i < |x| ==> t[i] == x[i];
    assert rest != [] ==> t[|x|] == rest[0];
    FirstWhereIs(t, IsSpace, |x|);
    assert t[..|x|] == x && t[|x|..] == rest;
  }

  /** The first position satisfying `p` is the one before which none does. */
  lemma FirstWhereIs(s: string, p: char -> bool, k: nat)
    requires k <= |s|
    requires forall i :: 0 <= i < k ==> !p(s[i])
    requires k < |s| ==> p(s[k])
    ensures FirstWhere(s, p) == k
  {
  }

  /** Two words separated by one space are read as exactly those two fields. */
  lemma SplitWhitespacePair(x: string, y: string)
    requires x != [] && NoSpace(x) && y != [] && NoSpace(y)
    ensures SplitWhitespace(x + " " + y) == [x, y]
  {
    var gap: string := [' '];
    var t := gap + y;
    assert SplitWhitespace(t) == [y] by {
      assert t == gap + y + [];
      SplitWhitespaceWord(gap, y, []);
      SplitWhitespaceBlank([]);
    }
    assert SplitWhitespace(x + " " + y) == [x] + SplitWhitespace(t) by {
      assert x + " " + y == [] + x + t;
      SplitWhitespaceWord([], x, t);
    }
  }

  // ---------------------------------------------------------------------
  // rstrip and lower
  // ---------------------------------------------------------------------

  /** Python's `s.rstrip(c)` for a one-character argument. */
  function RStrip(s: string, c: char): (r: string)
    ensures r <= s
    ensures r == [] || Last(r) != c
    ensures forall i :: |r| <= i < |s| ==> s[i] == c
    decreases |s|
  {
    if s != [] && Last(s) == c then RStrip(DropLast(s), c) else s
  }

  /** A line produced by `splitlines` is left alone by `rstrip("\n")`. */
  lemma RStripLine(line: string)
    requires NoLineBreak(line)
    ensures RStrip(line, '\n') == line
  {
  }

  /** Python's `c.lower()` on the ASCII letters. */
  function LowerChar(c: char): char
  {
    if 'A' <= c <= 'Z' then (c as int + 32) as char else c
  }

  /** Python's `s.lower()`, restricted to the ASCII letters. */
  function Lower(s: string): (r: string)
    ensures |r| == |s|
    ensures forall i :: 0 <= i < |r| ==> !('A' <= r[i] <= 'Z')
    ensures forall i :: 0 <= i < |s| ==>
      if 'A' <= s[i] <= 'Z' then r[i] as int == s[i] as int + 32 else r[i] == s[i]
  {
    seq(|s|, i requires 0 <= i < |s| => LowerChar(s[i]))
  }
}
