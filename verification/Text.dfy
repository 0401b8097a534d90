/** The string operations of the tooling that the document models rest on: whitespace trimming, splitting
    a text into lines and joining lines back, each with the laws the document proofs use. */
module Text {

  /** The characters that `str.strip` removes. */
  predicate IsSpace(c: char) {
    var n := c as int;
    9 <= n <= 13 || 28 <= n <= 32 || n == 133 || n == 160 || n == 5760 || 8192 <= n <= 8202 ||
    n == 8232 || n == 8233 || n == 8239 || n == 8287 || n == 12288
  }

  /** The characters at which `str.splitlines` ends a line. */
  predicate IsLineBreak(c: char) {
    var n := c as int;
    10 <= n <= 13 || 28 <= n <= 30 || n == 133 || n == 8232 || n == 8233
  }

  predicate AllSpace(s: string) {
    forall c :: c in s ==> IsSpace(c)
  }

  predicate OneLine(s: string) {
    forall i :: 0 <= i < |s| ==> !IsLineBreak(s[i])
  }

  /** ASCII without controls, not starting with a space. */
  predicate IsPrintable(s: string) {
    s != "" && s[0] != ' ' && forall i :: 0 <= i < |s| ==> ' ' <= s[i] <= '~'
  }

  predicate OneLineEach(lines: seq<string>) {
    forall i :: 0 <= i < |lines| ==> OneLine(lines[i])
  }

  predicate StartsWith(s: string, prefix: string) {
    |prefix| <= |s| && s[..|prefix|] == prefix
  }

  lemma PrintableIsPlain(s: string)
    requires IsPrintable(s)
    ensures OneLine(s) && !IsSpace(s[0]) && (s[|s| - 1] != ' ' ==> Trimmed(s))
  {
  }

  // ---------------------------------------------------------------- trimming

  function Lstrip(s: string): string {
    if s == "" || !IsSpace(s[0]) then s else Lstrip(s[1..])
  }

  function Rstrip(s: string): string {
    if s == "" || !IsSpace(s[|s| - 1]) then s else Rstrip(s[..|s| - 1])
  }

  function Strip(s: string): string {
    Rstrip(Lstrip(s))
  }

  predicate Trimmed(s: string) {
    s == "" || (!IsSpace(s[0]) && !IsSpace(s[|s| - 1]))
  }

  lemma {:induction false} LstripFacts(s: string)
    ensures |Lstrip(s)| <= |s| && Lstrip(s) == s[|s| - |Lstrip(s)|..]
    ensures Lstrip(s) != "" ==> !IsSpace(Lstrip(s)[0])
    ensures Lstrip(s) == "" <==> AllSpace(s)
  {
    if s != "" {
      assert s == [s[0]] + s[1..];
      LstripFacts(s[1..]);
    }
  }

  lemma {:induction false} RstripFacts(s: string)
    ensures |Rstrip(s)| <= |s| && Rstrip(s) == s[..|Rstrip(s)|]
    ensures Rstrip(s) != "" ==> !IsSpace(Rstrip(s)[|Rstrip(s)| - 1])
    ensures Rstrip(s) == "" <==> AllSpace(s)
    ensures AllSpace(s[|Rstrip(s)|..])
  {
    if s != "" {
      var n := |s| - 1;
      assert s == s[..n] + [s[n]];
      RstripFacts(s[..n]);
      if IsSpace(s[n]) {
        assert s[|Rstrip(s)|..] == s[..n][|Rstrip(s)|..] + [s[n]];
      }
    }
  }

  lemma StripFacts(s: string)
    ensures Trimmed(Strip(s)) && |Strip(s)| <= |s|
    ensures Strip(s) == "" <==> AllSpace(s)
    ensures OneLine(s) ==> OneLine(Strip(s))
  {
    var t := Lstrip(s);
    assert Strip(s) == Rstrip(t);
    hide Lstrip, Rstrip, Strip, IsSpace, IsLineBreak;
    LstripFacts(s);
    RstripFacts(t);
    if t != "" {
      assert t[0] in t;
    }
  }

  lemma TrimmedStrip(s: string)
    requires Trimmed(s)
    ensures Lstrip(s) == s && Rstrip(s) == s && Strip(s) == s
  {
  }

  lemma {:induction false} LstripSpaces(a: string, s: string)
    requires AllSpace(a)
    ensures Lstrip(a + s) == Lstrip(s)
  {
    if a == "" {
      assert a + s == s;
    } else {
      assert a[0] in a;
      assert (a + s)[1..] == a[1..] + s;
      LstripSpaces(a[1..], s);
    }
  }

  lemma {:induction false} RstripAppend(a: string, b: string)
    ensures Rstrip(a + b) == if AllSpace(b) then Rstrip(a) else a + Rstrip(b)
  {
    if b == "" {
      assert a + b == a;
    } else {
      var last := b[|b| - 1];
      assert (a + b)[..|a + b| - 1] == a + b[..|b| - 1];
      assert b == b[..|b| - 1] + [last];
      if IsSpace(last) {
        RstripAppend(a, b[..|b| - 1]);
      } else {
        assert last in b;
        assert Rstrip(b) == b;
      }
    }
  }

  lemma {:induction false} LstripAppend(a: string, b: string)
    ensures Lstrip(a + b) == if AllSpace(a) then Lstrip(b) else Lstrip(a) + b
  {
    if AllSpace(a) {
      LstripSpaces(a, b);
    } else if IsSpace(a[0]) {
      assert a == [a[0]] + a[1..];
      assert (a + b)[1..] == a[1..] + b;
      LstripAppend(a[1..], b);
    }
  }

  /** Surrounding a text with whitespace does not change what trimming leaves. */
  lemma StripPadding(a: string, s: string, b: string)
    requires AllSpace(a) && AllSpace(b)
    ensures Strip(a + s + b) == Strip(s)
  {
    hide Lstrip, Rstrip;
    assert a + s + b == a + (s + b);
    LstripSpaces(a, s + b);
    LstripAppend(s, b);
    RstripAppend(Lstrip(s), b);
    LstripFacts(s);
    LstripFacts(b);
  }

  lemma StripIgnoresRstrip(s: string)
    ensures Strip(Rstrip(s)) == Strip(s)
  {
    hide Strip, Rstrip;
    RstripFacts(s);
    var r := Rstrip(s);
    assert s == "" + r + s[|r|..];
    StripPadding("", r, s[|r|..]);
  }

  // ---------------------------------------------------------------- lines

  /** The number of characters before the first line break. */
  function LineLength(s: string): (n: nat)
    ensures n <= |s| && OneLine(s[..n])
    ensures n < |s| ==> IsLineBreak(s[n])
  {
    if s == "" || IsLineBreak(s[0]) then 0
    else
      assert s[..1 + LineLength(s[1..])] == [s[0]] + s[1..][..LineLength(s[1..])];
      1 + LineLength(s[1..])
  }

  lemma OneLineAppend(a: string, b: string)
    requires OneLine(a) && OneLine(b)
    ensures OneLine(a + b)
  {
  }

  /** Where the break at n ends: a carriage return and the newline after it are one break. */
  function AfterBreak(s: string, n: nat): (m: nat)
    requires n < |s|
    ensures n < m <= |s|
  {
    if s[n] == '\r' && n + 1 < |s| && s[n + 1] == '\n' then n + 2 else n + 1
  }

  /** `str.splitlines`: a break ends a line, and a final break opens no further line. */
  function SplitLines(s: string): (lines: seq<string>)
    ensures OneLineEach(lines)
    ensures lines == [] <==> s == ""
    decreases |s|
  {
    if s == "" then []
    else
      var n := LineLength(s);
      [s[..n]] + (if n < |s| then SplitLines(s[AfterBreak(s, n)..]) else [])
  }

  /** `"\n".join(lines)`. */
  function JoinLines(lines: seq<string>): string {
    if lines == [] then ""
    else if |lines| == 1 then lines[0]
    else lines[0] + "\n" + JoinLines(lines[1..])
  }

  lemma {:induction false} LineLengthOf(line: string, rest: string)
    requires OneLine(line)
    requires rest == "" || IsLineBreak(rest[0])
    ensures LineLength(line + rest) == |line|
  {
    if line == "" {
      assert line + rest == rest;
    } else {
      assert (line + rest)[1..] == line[1..] + rest;
      LineLengthOf(line[1..], rest);
    }
  }

  lemma {:induction false} SplitLinesCons(line: string, rest: string)
    requires OneLine(line)
    ensures SplitLines(line + "\n" + rest) == [line] + SplitLines(rest)
  {
    var s := line + "\n" + rest;
    assert s == line + ("\n" + rest);
    LineLengthOf(line, "\n" + rest);
    assert s[..|line|] == line;
    assert s[|line| + 1..] == rest;
  }

  /** Reading back lines written one per line gives the same lines. */
  lemma {:induction false} SplitJoin(lines: seq<string>)
    requires lines != [] && OneLineEach(lines)
    ensures SplitLines(JoinLines(lines) + "\n") == lines
    decreases |lines|
  {
    hide SplitLines, IsLineBreak;
    if |lines| == 1 {
      assert JoinLines(lines) + "\n" == lines[0] + "\n" + "";
      SplitLinesCons(lines[0], "");
      assert lines == [lines[0]] + [];
    } else {
      SplitJoin(lines[1..]);
      assert JoinLines(lines) + "\n" == lines[0] + "\n" + (JoinLines(lines[1..]) + "\n");
      SplitLinesCons(lines[0], JoinLines(lines[1..]) + "\n");
      assert lines == [lines[0]] + lines[1..];
    }
  }

  lemma {:induction false} SplitJoinOpen(lines: seq<string>)
    requires lines != [] && OneLineEach(lines) && lines[|lines| - 1] != ""
    ensures SplitLines(JoinLines(lines)) == lines
    decreases |lines|
  {
    if |lines| == 1 {
      LineLengthOf(lines[0], "");
      assert lines[0] + "" == lines[0];
      assert lines[0][..|lines[0]|] == lines[0];
    } else {
      SplitJoinOpen(lines[1..]);
      SplitLinesCons(lines[0], JoinLines(lines[1..]));
      assert lines == [lines[0]] + lines[1..];
    }
  }

  lemma {:induction false} JoinAppend(a: seq<string>, b: seq<string>)
    requires a != [] && b != []
    ensures JoinLines(a + b) == JoinLines(a) + "\n" + JoinLines(b)
    decreases |a|
  {
    if |a| == 1 {
      assert (a + b)[1..] == b;
    } else {
      assert (a + b)[1..] == a[1..] + b;
      JoinAppend(a[1..], b);
    }
  }

  /** Every line break of the text is a plain newline. */
  predicate PlainNewlines(s: string) {
    forall i :: 0 <= i < |s| && IsLineBreak(s[i]) ==> s[i] == '\n'
  }

  lemma FirstLine(s: string)
    requires s != ""
    ensures var n := LineLength(s);
      && (n == |s| ==> SplitLines(s) == [s])
      && (n < |s| ==> SplitLines(s) == [s[..n]] + SplitLines(s[AfterBreak(s, n)..]))
      && (n < |s| && s[n] != '\r' ==> AfterBreak(s, n) == n + 1)
  {
    hide LineLength, IsLineBreak;
    assert s[..|s|] == s;
  }

  /** What is left after the first line of such a text is such a text. */
  lemma AfterFirstLine(s: string, n: nat)
    requires PlainNewlines(s) && s != "" && !IsLineBreak(s[|s| - 1]) && n < |s| && IsLineBreak(s[n])
    ensures s[n] == '\n' && n + 1 < |s| && PlainNewlines(s[n + 1..]) && s[n + 1..] != ""
    ensures !IsLineBreak(s[n + 1..][|s| - n - 2]) && s == s[..n] + ("\n" + s[n + 1..])
  {
    hide IsLineBreak;
  }

  lemma JoinFew(s: string)
    ensures JoinLines([]) == "" && JoinLines([s]) == s && SplitLines("") == []
  {
  }

  /** Joining the lines of a text with plain newlines and no break at its end gives the text back. */
  lemma {:induction false} JoinSplit(s: string)
    requires PlainNewlines(s) && (s != "" ==> !IsLineBreak(s[|s| - 1]))
    ensures JoinLines(SplitLines(s)) == s
    decreases |s|
  {
    hide IsLineBreak, LineLength, SplitLines, JoinLines, PlainNewlines;
    JoinFew(s);
    if s != "" {
      var n := LineLength(s);
      FirstLine(s);
      if n < |s| {
        AfterFirstLine(s, n);
        JoinSplit(s[n + 1..]);
        JoinCons(s[..n], SplitLines(s[n + 1..]));
      }
    }
  }

  // ---------------------------------------------------------------- trimming a list of lines

  /** What right-trimming the joined lines leaves of them: no blank line at the end, and no whitespace
      at the end of the last line. */
  function TrimEnd(lines: seq<string>): (r: seq<string>)
    ensures |r| <= |lines|
    ensures r != [] ==> r[..|r| - 1] == lines[..|r| - 1] && r[|r| - 1] == Rstrip(lines[|r| - 1]) != ""
    ensures forall i :: |r| <= i < |lines| ==> Rstrip(lines[i]) == ""
  {
    hide Rstrip;
    if lines == [] then []
    else
      var n := |lines| - 1;
      var last := Rstrip(lines[n]);
      if last == "" then TrimEnd(lines[..n]) else lines[..n] + [last]
  }

  lemma TrimEndElement(lines: seq<string>, i: nat)
    requires i < |TrimEnd(lines)|
    ensures TrimEnd(lines)[i] == if i == |TrimEnd(lines)| - 1 then Rstrip(lines[i]) else lines[i]
  {
    hide Rstrip, TrimEnd;
    var r := TrimEnd(lines);
    assert i < |r| - 1 ==> r[i] == r[..|r| - 1][i];
  }

  /** What left-trimming the joined lines leaves of them. */
  function TrimStart(lines: seq<string>): seq<string> {
    if lines == [] then []
    else if AllSpace(lines[0]) then TrimStart(lines[1..])
    else [Lstrip(lines[0])] + lines[1..]
  }

  lemma {:induction false} TrimEndAppend(a: seq<string>, b: seq<string>)
    ensures TrimEnd(a + b) == if TrimEnd(b) == [] then TrimEnd(a) else a + TrimEnd(b)
    decreases |b|
  {
    hide Rstrip;
    if b == [] {
      assert a + b == a;
    } else {
      var n := |b| - 1;
      assert (a + b)[..|a + b| - 1] == a + b[..n];
      if Rstrip(b[n]) == "" {
        TrimEndAppend(a, b[..n]);
      }
    }
  }

  lemma {:induction false} RstripJoin(lines: seq<string>)
    ensures Rstrip(JoinLines(lines)) == JoinLines(TrimEnd(lines))
    decreases |lines|
  {
    hide Rstrip;
    if lines == [] {
      RstripFacts("");
    } else {
      var n := |lines| - 1;
      var front, last := lines[..n], lines[n];
      assert lines == front + [last];
      RstripFacts(last);
      if n == 0 {
        assert Rstrip(last) != "" ==> TrimEnd(lines) == [Rstrip(last)];
      } else {
        JoinAppend(front, [last]);
        RstripAppend(JoinLines(front) + "\n", last);
        if Rstrip(last) == "" {
          RstripAppend(JoinLines(front), "\n");
          RstripJoin(front);
        } else {
          JoinAppend(front, [Rstrip(last)]);
        }
      }
    }
  }

  lemma JoinCons(first: string, rest: seq<string>)
    requires rest != []
    ensures JoinLines([first] + rest) == first + ("\n" + JoinLines(rest))
  {
    JoinAppend([first], rest);
    assert first + "\n" + JoinLines(rest) == first + ("\n" + JoinLines(rest));
  }

  lemma LstripJoinCons(first: string, rest: seq<string>)
    requires rest != []
    ensures Lstrip(JoinLines([first] + rest)) ==
            if AllSpace(first) then Lstrip(JoinLines(rest)) else JoinLines([Lstrip(first)] + rest)
  {
    hide Lstrip, JoinLines;
    var x := JoinLines(rest);
    JoinCons(first, rest);
    JoinCons(Lstrip(first), rest);
    LstripAppend(first, "\n" + x);
    LstripSpaces("\n", x);
  }

  lemma {:induction false} LstripJoin(lines: seq<string>)
    ensures Lstrip(JoinLines(lines)) == JoinLines(TrimStart(lines))
    decreases |lines|
  {
    hide Lstrip;
    if lines == [] {
      LstripFacts("");
    } else {
      LstripFacts(lines[0]);
      assert lines == [lines[0]] + lines[1..];
      if |lines| > 1 {
        LstripJoinCons(lines[0], lines[1..]);
      }
      if AllSpace(lines[0]) {
        LstripJoin(lines[1..]);
      }
    }
  }

  /** The text a document writer stores: the joined lines, right-trimmed, and one final newline. */
  function FileText(lines: seq<string>): string {
    Rstrip(JoinLines(lines)) + "\n"
  }

  /** What the next reader of that text sees. */
  lemma ReadBack(lines: seq<string>)
    requires OneLineEach(lines)
    ensures TrimEnd(lines) != [] ==> SplitLines(FileText(lines)) == TrimEnd(lines)
    ensures TrimEnd(lines) == [] ==> SplitLines(FileText(lines)) == [""]
    ensures OneLineEach(TrimEnd(lines))
  {
    hide Rstrip;
    RstripJoin(lines);
    var r := TrimEnd(lines);
    if r == [] {
      assert FileText(lines) == "" + "\n" + "";
      SplitLinesCons("", "");
    } else {
      TrimEndOneLine(lines);
      SplitJoin(r);
    }
  }

  lemma RstripTwice(s: string)
    ensures Rstrip(Rstrip(s)) == Rstrip(s)
  {
    RstripFacts(s);
  }

  /** The lines of a trimmed text joined from lines: leading and trailing blank lines are gone, and the first and
      the last line are trimmed on their outer side. */
  lemma StripJoinLines(lines: seq<string>)
    requires OneLineEach(lines)
    ensures SplitLines(Strip(JoinLines(lines))) == TrimEnd(TrimStart(lines))
    ensures JoinLines(TrimEnd(TrimStart(lines))) == Strip(JoinLines(lines))
    ensures OneLineEach(TrimStart(lines))
  {
    hide Lstrip, Rstrip, JoinLines, OneLine, TrimEnd;
    var m := TrimStart(lines);
    TrimStartOneLine(lines);
    LstripJoin(lines);
    RstripJoin(m);
    TrimEndOneLine(m);
    var r := TrimEnd(m);
    if r == [] {
      assert JoinLines(r) == "" by { JoinNothing(); }
    } else {
      SplitJoinOpen(r);
    }
  }

  lemma JoinNothing()
    ensures JoinLines([]) == "" && SplitLines("") == []
  {
  }

  lemma {:induction false} TrimStartOneLine(lines: seq<string>)
    requires OneLineEach(lines)
    ensures OneLineEach(TrimStart(lines))
    decreases |lines|
  {
    hide Lstrip, AllSpace, OneLine;
    if lines != [] {
      if AllSpace(lines[0]) {
        TrimStartOneLine(lines[1..]);
      } else {
        assert OneLine(Lstrip(lines[0])) by { LstripOneLine(lines[0]); }
      }
    }
  }

  lemma LstripOneLine(s: string)
    requires OneLine(s)
    ensures OneLine(Lstrip(s))
  {
    LstripFacts(s);
  }

  lemma TrimEndOneLine(lines: seq<string>)
    requires OneLineEach(lines)
    ensures OneLineEach(TrimEnd(lines))
  {
    hide Rstrip, TrimEnd, IsLineBreak;
    var r := TrimEnd(lines);
    forall i | 0 <= i < |r| ensures OneLine(r[i]) {
      TrimEndElement(lines, i);
      RstripFacts(lines[i]);
    }
  }

  lemma PlainAppend(a: string, b: string)
    requires PlainNewlines(a) && PlainNewlines(b)
    ensures PlainNewlines(a + b)
  {
    hide IsLineBreak;
  }

  /** Lines joined with newlines have no other breaks. */
  lemma {:induction false} JoinIsPlain(lines: seq<string>)
    requires OneLineEach(lines)
    ensures PlainNewlines(JoinLines(lines))
  {
    hide IsLineBreak;
    if |lines| > 1 {
      JoinIsPlain(lines[1..]);
      PlainAppend(lines[0], "\n");
      PlainAppend(lines[0] + "\n", JoinLines(lines[1..]));
    }
  }

  lemma StripIsPlain(s: string)
    requires PlainNewlines(s)
    ensures PlainNewlines(Strip(s))
  {
    hide IsLineBreak, Lstrip, Rstrip;
    LstripFacts(s);
    RstripFacts(Lstrip(s));
  }
}
