/** The plan document as a preamble and second-level sections: splitting, rendering, pruning a template to the
    requested sections, and reading one section's body. */
module PlanMarkdown {
  import opened Options
  import opened Text

  datatype Section = Section(heading: string, body: string)
  datatype Document = Document(preamble: seq<string>, sections: seq<Section>)

  predicate IsHeadingLine(line: string) {
    StartsWith(line, "## ")
  }

  function HeadingText(line: string): string
    requires IsHeadingLine(line)
  {
    Strip(line[3..])
  }

  function HeadingLine(heading: string): string {
    "## " + heading
  }

  function BodyText(lines: seq<string>): string {
    Strip(JoinLines(lines))
  }

  predicate NoHeadings(lines: seq<string>) {
    forall i :: 0 <= i < |lines| ==> !IsHeadingLine(lines[i])
  }

  /** The number of lines before the first heading line. */
  function NextHeading(lines: seq<string>): (n: nat)
    ensures n <= |lines| && NoHeadings(lines[..n])
    ensures n < |lines| ==> IsHeadingLine(lines[n])
  {
    hide IsHeadingLine;
    if lines == [] || IsHeadingLine(lines[0]) then 0
    else
      var n := NextHeading(lines[1..]);
      assert lines[..1 + n] == [lines[0]] + lines[1..][..n];
      1 + n
  }

  function SectionsOf(lines: seq<string>): seq<Section>
    requires lines != [] ==> IsHeadingLine(lines[0])
    decreases |lines|
  {
    if lines == [] then []
    else
      var n := NextHeading(lines[1..]);
      [Section(HeadingText(lines[0]), BodyText(lines[1..1 + n]))] + SectionsOf(lines[1 + n..])
  }

  function SplitDocument(lines: seq<string>): Document {
    var n := NextHeading(lines);
    Document(lines[..n], SectionsOf(lines[n..]))
  }

  function Split(text: string): Document {
    SplitDocument(SplitLines(text))
  }

  /** The sections that an open heading, the body collected so far and the lines to come amount to. */
  function Continued(heading: string, body: seq<string>, rest: seq<string>): seq<Section> {
    var n := NextHeading(rest);
    [Section(heading, BodyText(body + rest[..n]))] + SectionsOf(rest[n..])
  }

  method SplitMarkdownSections(text: string) returns (preamble: seq<string>, sections: seq<Section>)
    ensures Document(preamble, sections) == Split(text)
  {
    hide IsHeadingLine, BodyText, HeadingText, SplitLines, SectionsOf, Continued, NextHeading;
    var lines := SplitLines(text);
    preamble, sections := [], [];
    var currentHeading: Option<string> := None;
    var currentBody: seq<string> := [];
    ghost var expected := SectionsOf(lines[NextHeading(lines)..]);
    assert lines[0..] == lines;
    for i := 0 to |lines|
      invariant currentHeading.None? ==>
        sections == [] && preamble == lines[..i] && NextHeading(lines) == i + NextHeading(lines[i..])
      invariant currentHeading.Some? ==>
        preamble == lines[..NextHeading(lines)] &&
        sections + Continued(currentHeading.value, currentBody, lines[i..]) == expected
    {
      var line := lines[i];
      assert lines[i..][1..] == lines[i + 1..] && lines[i..][0] == line;
      NextHeadingStep(lines[i..]);
      if IsHeadingLine(line) {
        if currentHeading.Some? {
          ContinuedAtEnd(currentHeading.value, currentBody, lines[i..]);
          sections := sections + [Section(currentHeading.value, BodyText(currentBody))];
        }
        currentHeading := Some(HeadingText(line));
        currentBody := [];
        ContinuedFromHeading(lines[i..]);
        continue;
      }
      if currentHeading.None? {
        preamble := preamble + [line];
      } else {
        ContinuedStep(currentHeading.value, currentBody, lines[i..]);
        currentBody := currentBody + [line];
      }
    }
    assert lines[|lines|..] == [];
    NextHeadingEmpty();
    if currentHeading.Some? {
      ContinuedAtEnd(currentHeading.value, currentBody, []);
      sections := sections + [Section(currentHeading.value, BodyText(currentBody))];
    } else {
      assert lines[..|lines|] == lines;
    }
  }

  lemma NextHeadingStep(lines: seq<string>)
    requires lines != []
    ensures NextHeading(lines) == if IsHeadingLine(lines[0]) then 0 else 1 + NextHeading(lines[1..])
  {
    hide IsHeadingLine;
  }

  lemma NextHeadingEmpty()
    ensures NextHeading([]) == 0 && SectionsOf([]) == []
  {
  }

  lemma ContinuedAtEnd(heading: string, body: seq<string>, rest: seq<string>)
    requires rest != [] ==> IsHeadingLine(rest[0])
    ensures Continued(heading, body, rest) == [Section(heading, BodyText(body))] + SectionsOf(rest)
  {
    hide IsHeadingLine, BodyText, SectionsOf;
    assert rest[..0] == [] && body + [] == body && rest[0..] == rest;
  }

  lemma ContinuedFromHeading(lines: seq<string>)
    requires lines != [] && IsHeadingLine(lines[0])
    ensures Continued(HeadingText(lines[0]), [], lines[1..]) == SectionsOf(lines)
  {
    hide IsHeadingLine, BodyText, HeadingText;
    var n := NextHeading(lines[1..]);
    assert lines[1..][..n] == lines[1..1 + n] && [] + lines[1..1 + n] == lines[1..1 + n];
    assert lines[1..][n..] == lines[1 + n..];
  }

  lemma ContinuedStep(heading: string, body: seq<string>, rest: seq<string>)
    requires rest != [] && !IsHeadingLine(rest[0])
    ensures Continued(heading, body, rest) == Continued(heading, body + [rest[0]], rest[1..])
  {
    hide IsHeadingLine, BodyText, HeadingText;
    var n := NextHeading(rest[1..]);
    assert NextHeading(rest) == 1 + n;
    assert rest[..1 + n] == [rest[0]] + rest[1..][..n];
    assert body + rest[..1 + n] == body + [rest[0]] + rest[1..][..n];
    assert rest[1 + n..] == rest[1..][n..];
  }

  // ---------------------------------------------------------------- rendering

  /** The preamble without blank lines at its end. */
  function DropBlankEnd(lines: seq<string>): (r: seq<string>)
    ensures |r| <= |lines| && r == lines[..|r|]
    ensures r != [] ==> Strip(r[|r| - 1]) != ""
    ensures forall i :: |r| <= i < |lines| ==> Strip(lines[i]) == ""
  {
    hide Strip;
    if lines == [] || Strip(lines[|lines| - 1]) != "" then lines else DropBlankEnd(lines[..|lines| - 1])
  }

  function PreambleLines(preamble: seq<string>): seq<string> {
    var kept := DropBlankEnd(preamble);
    if kept == [] then [] else kept + [""]
  }

  function SectionLines(s: Section): seq<string> {
    [HeadingLine(s.heading), ""] + SplitLines(s.body) + [""]
  }

  function SectionsLines(sections: seq<Section>): seq<string> {
    if sections == [] then [] else SectionLines(sections[0]) + SectionsLines(sections[1..])
  }

  function RenderLines(preamble: seq<string>, sections: seq<Section>): seq<string> {
    PreambleLines(preamble) + SectionsLines(sections)
  }

  function Render(preamble: seq<string>, sections: seq<Section>): string {
    FileText(RenderLines(preamble, sections))
  }

  method RenderMarkdownSections(preamble: seq<string>, sections: seq<Section>) returns (text: string)
    ensures text == Render(preamble, sections)
  {
    hide Strip, SplitLines, FileText, HeadingLine, DropBlankEnd, SectionsLines, SectionLines;
    var lines := preamble;
    while lines != [] && Strip(lines[|lines| - 1]) == ""
      invariant DropBlankEnd(lines) == DropBlankEnd(preamble)
      decreases |lines|
    {
      DropStep(lines);
      lines := lines[..|lines| - 1];
    }
    DropStep(lines);
    if lines != [] {
      lines := lines + [""];
    }
    assert lines == PreambleLines(preamble);
    assert sections[0..] == sections;
    for i := 0 to |sections|
      invariant lines + SectionsLines(sections[i..]) == RenderLines(preamble, sections)
    {
      var s := sections[i];
      ghost var before := lines;
      lines := lines + [HeadingLine(s.heading), ""];
      if s.body != "" {
        lines := lines + SplitLines(s.body);
      }
      lines := lines + [""];
      SectionAppended(before, sections, i);
    }
    assert sections[|sections|..] == [];
    NoLines();
    assert lines + [] == lines;
    text := FileText(lines);
  }

  lemma DropStep(lines: seq<string>)
    ensures DropBlankEnd(lines) ==
            if lines != [] && Strip(lines[|lines| - 1]) == "" then DropBlankEnd(lines[..|lines| - 1]) else lines
  {
    hide Strip;
  }

  lemma SectionAppended(before: seq<string>, sections: seq<Section>, i: nat)
    requires i < |sections|
    ensures var s := sections[i];
      before + SectionsLines(sections[i..]) ==
        (if s.body != "" then before + [HeadingLine(s.heading), ""] + SplitLines(s.body) + [""]
         else before + [HeadingLine(s.heading), ""] + [""]) + SectionsLines(sections[i + 1..])
  {
    hide SplitLines, HeadingLine;
    var s, more := sections[i], SectionsLines(sections[i + 1..]);
    assert sections[i..][0] == s && sections[i..][1..] == sections[i + 1..];
    assert SectionsLines(sections[i..]) == SectionLines(s) + more;
    hide SectionsLines;
    NoLines();
    var head, body := [HeadingLine(s.heading), ""], SplitLines(s.body);
    assert before + (head + body + [""] + more) == before + head + body + [""] + more;
    assert before + head + [] == before + head;
  }

  lemma NoLines()
    ensures SplitLines("") == [] && SectionsLines([]) == []
  {
  }

  // ---------------------------------------------------------------- rendered sections read back

  /** A body as a later reader sees it. */
  function Canonical(body: string): string {
    BodyText(SplitLines(body))
  }

  function CanonicalSections(sections: seq<Section>): seq<Section> {
    seq(|sections|, i requires 0 <= i < |sections| => Section(sections[i].heading, Canonical(sections[i].body)))
  }

  predicate GoodHeading(heading: string) {
    heading != "" && Trimmed(heading) && OneLine(heading)
  }

  ghost predicate GoodHeadings(sections: seq<Section>) {
    forall i :: 0 <= i < |sections| ==> GoodHeading(sections[i].heading)
  }

  /** No body has a line that would itself open a section. */
  ghost predicate PlainBodies(sections: seq<Section>) {
    forall i :: 0 <= i < |sections| ==> NoHeadings(SplitLines(sections[i].body))
  }

  lemma HeadingLineShape(heading: string)
    requires GoodHeading(heading)
    ensures var line := HeadingLine(heading);
      IsHeadingLine(line) && HeadingText(line) == heading && OneLine(line) && Rstrip(line) == line && line != ""
  {
    var line := HeadingLine(heading);
    assert line[..3] == "## " && line[3..] == heading;
    TrimmedStrip(heading);
    assert line[|line| - 1] == heading[|heading| - 1];
    OneLineAppend("## ", heading);
  }

  lemma EmptyLineShape()
    ensures !IsHeadingLine("") && OneLine("") && Rstrip("") == "" && Strip("") == ""
  {
  }

  lemma {:induction false} NextHeadingIs(lines: seq<string>, n: nat)
    requires n <= |lines| && NoHeadings(lines[..n]) && (n < |lines| ==> IsHeadingLine(lines[n]))
    ensures NextHeading(lines) == n
  {
    hide IsHeadingLine;
  }

  /** Blank lines around a body are trimmed away. */
  lemma BodyTextPadded(lines: seq<string>)
    ensures BodyText([""] + lines + [""]) == BodyText(lines)
  {
    hide Strip;
    if lines == [] {
      assert [""] + lines + [""] == ["", ""];
      JoinCons("", [""]);
      assert [""] + [""] == ["", ""];
      StripPadding("", "", "\n");
      assert "" + "" + "\n" == "" + ("\n" + JoinLines([""]));
    } else {
      JoinAppend([""], lines + [""]);
      JoinAppend(lines, [""]);
      assert [""] + lines + [""] == [""] + (lines + [""]);
      assert JoinLines([""] + lines + [""]) == "\n" + JoinLines(lines) + "\n";
      StripPadding("\n", JoinLines(lines), "\n");
    }
  }

  lemma SectionHead(s: Section, rest: seq<string>)
    requires GoodHeading(s.heading) && NoHeadings(SplitLines(s.body))
    requires rest != [] ==> IsHeadingLine(rest[0])
    ensures IsHeadingLine((SectionLines(s) + rest)[0])
    ensures SectionsOf(SectionLines(s) + rest) == [Section(s.heading, Canonical(s.body))] + SectionsOf(rest)
  {
    hide IsHeadingLine, HeadingText, HeadingLine, BodyText, SplitLines, GoodHeading;
    HeadingLineShape(s.heading);
    EmptyLineShape();
    var inner := [""] + SplitLines(s.body) + [""];
    var lines := SectionLines(s) + rest;
    assert lines == [HeadingLine(s.heading)] + inner + rest;
    assert lines[1..] == inner + rest;
    assert (inner + rest)[..|inner|] == inner;
    NextHeadingIs(inner + rest, |inner|);
    assert lines[1..1 + |inner|] == inner && lines[1 + |inner|..] == rest;
    BodyTextPadded(SplitLines(s.body));
  }

  lemma {:induction false} SectionsReadBack(sections: seq<Section>)
    requires GoodHeadings(sections) && PlainBodies(sections)
    ensures SectionsLines(sections) != [] ==> IsHeadingLine(SectionsLines(sections)[0])
    ensures SectionsOf(SectionsLines(sections)) == CanonicalSections(sections)
    decreases |sections|
  {
    hide IsHeadingLine, SectionLines, GoodHeading, NoHeadings, Canonical, SectionsOf, CanonicalSections;
    CanonicalStep(sections);
    if sections == [] {
      NoSections();
    } else {
      var s, rest := sections[0], sections[1..];
      assert forall i :: 0 <= i < |rest| ==> rest[i] == sections[i + 1];
      SectionsReadBack(rest);
      SectionHead(s, SectionsLines(rest));
    }
  }

  lemma NoSections()
    ensures SectionsOf([]) == []
  {
  }

  lemma CanonicalStep(sections: seq<Section>)
    ensures CanonicalSections(sections) ==
            if sections == [] then []
            else [Section(sections[0].heading, Canonical(sections[0].body))] + CanonicalSections(sections[1..])
  {
    hide Canonical;
  }

  // ---------------------------------------------------------------- the written file read back

  lemma BodyTextTrimEnd(lines: seq<string>)
    ensures BodyText(TrimEnd(lines)) == BodyText(lines)
  {
    hide Strip, TrimEnd, JoinLines;
    RstripJoin(lines);
    StripIgnoresRstrip(JoinLines(lines));
  }

  lemma HeadingLineIsSolid(line: string)
    requires IsHeadingLine(line)
    ensures Rstrip(line) != ""
  {
    RstripFacts(line);
    assert line[0] == "## "[0] == '#';
    assert line[0] in line;
  }

  lemma LastSectionTrim(first: string, body: seq<string>)
    requires IsHeadingLine(first) && NoHeadings(body) && (TrimEnd(body) == [] ==> Rstrip(first) == first)
    ensures TrimEnd([first] + body) == [first] + TrimEnd(body)
    ensures SectionsOf(TrimEnd([first] + body)) == SectionsOf([first] + body)
  {
    hide IsHeadingLine, Rstrip, TrimEnd, BodyText, HeadingText, NoHeadings, SectionsOf;
    HeadingLineIsSolid(first);
    SingleTrimEnd(first);
    TrimEndAppend([first], body);
    assert [first] + [] == [first];
    NoHeadingsTrimEnd(body);
    OneSection(first, TrimEnd(body));
    OneSection(first, body);
    BodyTextTrimEnd(body);
  }

  /** The last line that is not blank is no heading line that right-trimming shortens. */
  predicate EndsWhole(lines: seq<string>) {
    var n := |TrimEnd(lines)|;
    0 < n && (IsHeadingLine(lines[n - 1]) ==> Rstrip(lines[n - 1]) == lines[n - 1])
  }

  lemma EndsWholeAppend(a: seq<string>, b: seq<string>)
    requires TrimEnd(b) != []
    ensures EndsWhole(a + b) <==> EndsWhole(b)
    ensures TrimEnd(a + b) == a + TrimEnd(b)
  {
    hide IsHeadingLine, Rstrip, TrimEnd;
    TrimEndAppend(a, b);
    var n := |TrimEnd(b)|;
    assert (a + b)[|a| + n - 1] == b[n - 1];
  }

  lemma FirstSection(lines: seq<string>) returns (body: seq<string>, rest: seq<string>)
    requires lines != [] && IsHeadingLine(lines[0])
    ensures NoHeadings(body) && (rest != [] ==> IsHeadingLine(rest[0])) && |rest| < |lines|
    ensures lines == [lines[0]] + body + rest
  {
    hide IsHeadingLine;
    var n := NextHeading(lines[1..]);
    body, rest := lines[1..1 + n], lines[1 + n..];
    assert lines[1..][..n] == body;
    assert rest != [] ==> rest[0] == lines[1..][n];
  }

  /** Right-trimming a document keeps its sections, unless its last non-blank line is a heading line that loses
      whitespace. */
  lemma {:induction false} SectionsTrim(lines: seq<string>)
    requires lines != [] && IsHeadingLine(lines[0]) && EndsWhole(lines)
    ensures TrimEnd(lines) != [] && TrimEnd(lines)[0] == lines[0]
    ensures SectionsOf(TrimEnd(lines)) == SectionsOf(lines)
    decreases |lines|
  {
    hide IsHeadingLine, Rstrip, TrimEnd, BodyText, HeadingText, NextHeading, SectionsOf, EndsWhole, NoHeadings;
    var first := lines[0];
    var body, rest := FirstSection(lines);
    if rest == [] {
      assert lines == [first] + body;
      EndsWholeFirst(first, body);
      LastSectionTrim(first, body);
    } else {
      HeadingLineIsSolid(rest[0]);
      TrimEndHasSolid(rest, 0);
      EndsWholeAppend([first] + body, rest);
      SectionsTrim(rest);
      SectionThenRest(first, body, TrimEnd(rest));
      SectionThenRest(first, body, rest);
    }
  }

  lemma EndsWholeFirst(first: string, body: seq<string>)
    requires IsHeadingLine(first) && EndsWhole([first] + body)
    ensures TrimEnd(body) == [] ==> Rstrip(first) == first
  {
    hide IsHeadingLine, Rstrip, TrimEnd;
    HeadingLineIsSolid(first);
    SingleTrimEnd(first);
    TrimEndAppend([first], body);
  }

  lemma SingleTrimEnd(line: string)
    requires Rstrip(line) != ""
    ensures TrimEnd([line]) == [Rstrip(line)]
  {
    hide Rstrip;
  }

  lemma TrimEndHasSolid(lines: seq<string>, i: nat)
    requires i < |lines| && Rstrip(lines[i]) != ""
    ensures i < |TrimEnd(lines)|
  {
    hide Rstrip;
  }

  lemma NoHeadingsTrimEnd(lines: seq<string>)
    requires NoHeadings(lines)
    ensures NoHeadings(TrimEnd(lines))
  {
    hide Rstrip, TrimEnd, IsHeadingLine;
    var r := TrimEnd(lines);
    forall i | 0 <= i < |r| ensures !IsHeadingLine(r[i]) {
      TrimEndElement(lines, i);
      assert !IsHeadingLine(lines[i]);
      TrimmedHeading(lines[i]);
    }
  }

  lemma TrimmedHeading(line: string)
    ensures IsHeadingLine(Rstrip(line)) ==> IsHeadingLine(line)
  {
    hide Rstrip;
    RstripFacts(line);
  }

  lemma SectionThenRest(first: string, body: seq<string>, rest: seq<string>)
    requires IsHeadingLine(first) && NoHeadings(body) && (rest != [] ==> IsHeadingLine(rest[0]))
    ensures SectionsOf([first] + body + rest) == [Section(HeadingText(first), BodyText(body))] + SectionsOf(rest)
  {
    hide IsHeadingLine, BodyText, HeadingText;
    var lines := [first] + body + rest;
    assert lines[1..] == body + rest && (body + rest)[..|body|] == body;
    NextHeadingIs(body + rest, |body|);
    assert lines[1..1 + |body|] == body && lines[1 + |body|..] == rest;
  }

  lemma OneSection(first: string, body: seq<string>)
    requires IsHeadingLine(first)
    ensures NoHeadings(body) ==> SectionsOf([first] + body) == [Section(HeadingText(first), BodyText(body))]
  {
    hide IsHeadingLine, BodyText, HeadingText;
    if NoHeadings(body) {
      SectionThenRest(first, body, []);
      assert [first] + body + [] == [first] + body;
    }
  }

  /** The body has no heading line, or at least no whitespace around it. */
  predicate Settled(body: string) {
    NoHeadings(SplitLines(body)) || Trimmed(body)
  }

  ghost predicate AllSettled(sections: seq<Section>) {
    forall i :: 0 <= i < |sections| ==> Settled(sections[i].body)
  }

  /** The last line is neither blank nor followed by whitespace. */
  predicate LastIsWhole(lines: seq<string>) {
    lines != [] && Rstrip(lines[|lines| - 1]) == lines[|lines| - 1] != ""
  }

  lemma LastStaysWhole(first: string, rest: seq<string>)
    requires LastIsWhole(rest)
    ensures LastIsWhole([first] + rest)
  {
    hide Rstrip;
  }

  lemma OneWholeLine(s: string)
    requires s != "" && !IsSpace(s[|s| - 1])
    ensures LastIsWhole([s])
  {
  }

  /** A text that does not end in whitespace goes on after a break. */
  lemma GoesOnAfterBreak(s: string, n: nat)
    requires n < |s| && IsLineBreak(s[n]) && !IsSpace(s[|s| - 1])
    ensures var rest := s[AfterBreak(s, n)..]; rest != "" && !IsSpace(rest[|rest| - 1])
  {
    BreakIsSpace(s, n);
    hide IsSpace, IsLineBreak;
  }

  lemma BreakIsSpace(s: string, n: nat)
    requires n < |s| && IsLineBreak(s[n])
    ensures IsSpace(s[AfterBreak(s, n) - 1])
  {
  }

  lemma {:induction false} LastLineOfTrimmed(s: string)
    requires s != "" && !IsSpace(s[|s| - 1])
    ensures LastIsWhole(SplitLines(s))
    decreases |s|
  {
    hide LineLength, SplitLines, IsSpace, IsLineBreak, AfterBreak, OneLine, LastIsWhole;
    var n := LineLength(s);
    FirstLine(s);
    if n < |s| {
      GoesOnAfterBreak(s, n);
      LastLineOfTrimmed(s[AfterBreak(s, n)..]);
      LastStaysWhole(s[..n], SplitLines(s[AfterBreak(s, n)..]));
    } else {
      OneWholeLine(s);
    }
  }

  lemma SettledEnd(s: Section)
    requires GoodHeading(s.heading) && Settled(s.body)
    ensures EndsWhole(SectionLines(s))
  {
    hide IsHeadingLine, Rstrip, TrimEnd, HeadingLine, SplitLines, GoodHeading, HeadingText, EndsWhole, Settled;
    var first, body := HeadingLine(s.heading), SplitLines(s.body);
    assert SectionLines(s) == [first] + ([""] + (body + [""]));
    BlankAround(body);
    if TrimEnd(body) == [] {
      HeadingEnds(s.heading, [""] + (body + [""]));
    } else {
      SettledBodyEnds(s.body);
      EndsWholeBlank(body);
      EndsWholeAppend([""], body + [""]);
      EndsWholeAppend([first], [""] + (body + [""]));
    }
  }

  lemma BlankTrimEnd()
    ensures TrimEnd([""]) == []
  {
  }

  lemma NonEmptyHasText(body: string)
    requires Trimmed(body) && TrimEnd(SplitLines(body)) != []
    ensures body != "" && !IsSpace(body[|body| - 1])
  {
    hide Rstrip, IsSpace;
  }

  lemma BlankAround(body: seq<string>)
    ensures TrimEnd(body + [""]) == TrimEnd(body)
    ensures TrimEnd(body) == [] ==> TrimEnd([""] + (body + [""])) == []
    ensures TrimEnd(body) != [] ==> TrimEnd([""] + (body + [""])) != []
  {
    hide TrimEnd;
    BlankTrimEnd();
    TrimEndAppend(body, [""]);
    TrimEndAppend([""], body + [""]);
  }

  lemma EndsWholeBlank(lines: seq<string>)
    requires EndsWhole(lines)
    ensures EndsWhole(lines + [""])
  {
    hide IsHeadingLine, Rstrip, TrimEnd;
    BlankAround(lines);
    assert forall i :: 0 <= i < |lines| ==> (lines + [""])[i] == lines[i];
  }

  lemma HeadingEnds(heading: string, blank: seq<string>)
    requires GoodHeading(heading) && TrimEnd(blank) == []
    ensures EndsWhole([HeadingLine(heading)] + blank)
  {
    hide IsHeadingLine, Rstrip, TrimEnd, HeadingLine, GoodHeading;
    HeadingLineShape(heading);
    SingleTrimEnd(HeadingLine(heading));
    TrimEndAppend([HeadingLine(heading)], blank);
  }

  lemma SettledBodyEnds(body: string)
    requires Settled(body) && TrimEnd(SplitLines(body)) != []
    ensures EndsWhole(SplitLines(body))
  {
    hide IsHeadingLine, Rstrip, TrimEnd, SplitLines, Trimmed;
    var lines := SplitLines(body);
    if Trimmed(body) {
      NonEmptyHasText(body);
      LastLineOfTrimmed(body);
      TrimEndHasSolid(lines, |lines| - 1);
    }
  }

  lemma {:induction false} SettledLines(sections: seq<Section>)
    requires sections != [] && GoodHeadings(sections) && AllSettled(sections)
    ensures var lines := SectionsLines(sections);
      lines != [] && IsHeadingLine(lines[0]) && OneLineEach(lines) && EndsWhole(lines)
    decreases |sections|
  {
    hide IsHeadingLine, Rstrip, TrimEnd, GoodHeading, Settled, SectionLines, OneLine, EndsWhole;
    var s, rest := sections[0], sections[1..];
    assert forall i :: 0 <= i < |rest| ==> rest[i] == sections[i + 1];
    SettledEnd(s);
    SectionLinesShape(s);
    if rest == [] {
      NoLines();
      assert SectionLines(s) + [] == SectionLines(s);
    } else {
      SettledLines(rest);
      HasEnd(SectionsLines(rest));
      EndsWholeAppend(SectionLines(s), SectionsLines(rest));
    }
  }

  lemma HasEnd(lines: seq<string>)
    requires EndsWhole(lines)
    ensures TrimEnd(lines) != []
  {
  }

  lemma SectionLinesShape(s: Section)
    requires GoodHeading(s.heading)
    ensures SectionLines(s) != [] && IsHeadingLine(SectionLines(s)[0]) && OneLineEach(SectionLines(s))
  {
    hide IsHeadingLine, OneLine, HeadingLine, HeadingText, Rstrip;
    HeadingLineShape(s.heading);
    EmptyLineShape();
  }

  lemma {:induction false} PreambleShape(preamble: seq<string>)
    requires OneLineEach(preamble) && NoHeadings(preamble)
    ensures OneLineEach(PreambleLines(preamble)) && NoHeadings(PreambleLines(preamble))
    ensures PreambleLines(PreambleLines(preamble)) == PreambleLines(preamble)
  {
    hide IsHeadingLine, OneLine, Strip;
    EmptyLineShape();
    var kept := DropBlankEnd(preamble);
    assert forall i :: 0 <= i < |kept| ==> kept[i] == preamble[i];
    if kept != [] {
      assert (kept + [""])[..|kept|] == kept;
    }
  }

  /** Splitting a rendered document finds the rendered preamble, and the sections of the rendered lines. */
  lemma RenderedSplits(preamble: seq<string>, sections: seq<Section>)
    requires OneLineEach(preamble) && NoHeadings(preamble)
    requires sections != [] && GoodHeadings(sections) && AllSettled(sections)
    ensures SplitLines(Render(preamble, sections)) == TrimEnd(RenderLines(preamble, sections))
    ensures Split(Render(preamble, sections)) ==
            Document(PreambleLines(preamble), SectionsOf(SectionsLines(sections)))
  {
    hide IsHeadingLine, Rstrip, TrimEnd, OneLine, SectionsOf, SectionsLines, PreambleLines, NextHeading, FileText,
      SplitLines, GoodHeading, Settled;
    PreambleShape(preamble);
    SettledLines(sections);
    var p, s := PreambleLines(preamble), SectionsLines(sections);
    ReadBack(p + s);
    TrimEndAppend(p, s);
    SectionsTrim(s);
    var t := p + TrimEnd(s);
    assert t[..|p|] == p && t[|p|..] == TrimEnd(s);
    NextHeadingIs(t, |p|);
  }

  /** Render, then split: trimmed non-blank one-line headings and bodies without heading lines come back, the
      bodies trimmed and with plain newlines. */
  lemma RenderThenSplit(preamble: seq<string>, sections: seq<Section>)
    requires OneLineEach(preamble) && NoHeadings(preamble)
    requires GoodHeadings(sections) && PlainBodies(sections)
    ensures Split(Render(preamble, sections)).sections == CanonicalSections(sections)
    ensures sections != [] ==> Split(Render(preamble, sections)).preamble == PreambleLines(preamble)
  {
    hide IsHeadingLine, OneLine, SectionsOf, SectionsLines, PreambleLines, SplitLines, GoodHeading, Render, Canonical,
      SplitDocument;
    if sections == [] {
      RenderedPreamble(preamble);
    } else {
      RenderedSplits(preamble, sections);
      SectionsReadBack(sections);
    }
  }

  /** Exactly the trimmed bodies with plain newlines are their own canonical form. */
  lemma CanonicalIff(body: string)
    ensures Canonical(body) == body <==> Trimmed(body) && PlainNewlines(body)
  {
    var lines := SplitLines(body);
    hide Strip, JoinLines, SplitLines, IsLineBreak;
    JoinIsPlain(lines);
    StripIsPlain(JoinLines(lines));
    StripFacts(JoinLines(lines));
    if Trimmed(body) && PlainNewlines(body) {
      if body != "" {
        TrimmedEndsNoLine(body);
      }
      JoinSplit(body);
      TrimmedStrip(body);
    }
  }

  lemma TrimmedEndsNoLine(body: string)
    requires Trimmed(body) && body != ""
    ensures !IsLineBreak(body[|body| - 1])
  {
  }

  ghost predicate CleanBodies(sections: seq<Section>) {
    forall i :: 0 <= i < |sections| ==> Trimmed(sections[i].body) && PlainNewlines(sections[i].body)
  }

  /** Render, then split, returns the same section list exactly if the bodies are trimmed and have plain newlines
      (for headings and bodies as before). */
  lemma SameSectionsIff(preamble: seq<string>, sections: seq<Section>)
    requires OneLineEach(preamble) && NoHeadings(preamble)
    requires GoodHeadings(sections) && PlainBodies(sections)
    ensures Split(Render(preamble, sections)).sections == sections <==> CleanBodies(sections)
  {
    hide OneLineEach, NoHeadings, GoodHeadings, PlainBodies, Render, Canonical, Trimmed, PlainNewlines, Split;
    RenderThenSplit(preamble, sections);
    var again := CanonicalSections(sections);
    forall i | 0 <= i < |sections|
      ensures again[i] == sections[i] <==> Trimmed(sections[i].body) && PlainNewlines(sections[i].body)
    {
      CanonicalIff(sections[i].body);
    }
    if CleanBodies(sections) {
      assert again == sections;
    }
  }

  /** A document without sections. */
  lemma RenderedPreamble(preamble: seq<string>)
    requires OneLineEach(preamble) && NoHeadings(preamble)
    ensures Split(Render(preamble, [])).sections == []
    ensures var again := Split(Render(preamble, [])).preamble; Render(again, []) == Render(preamble, [])
  {
    hide IsHeadingLine, Rstrip, OneLine, Strip, SplitLines, TrimEnd, DropBlankEnd, JoinLines;
    PreambleShape(preamble);
    var p := PreambleLines(preamble);
    assert RenderLines(preamble, []) == p;
    ReadBack(p);
    var lines := SplitLines(FileText(p));
    EmptyLineShape();
    NoHeadingsTrimEnd(p);
    assert NoHeadings(lines);
    assert lines[..|lines|] == lines;
    NextHeadingIs(lines, |lines|);
    assert lines[|lines|..] == [];
    SameTrimmedText(preamble, lines);
    assert RenderLines(lines, []) == PreambleLines(lines);
  }

  lemma SameTrimmedText(preamble: seq<string>, lines: seq<string>)
    requires var r := TrimEnd(PreambleLines(preamble)); lines == if r == [] then [""] else r
    ensures FileText(PreambleLines(lines)) == FileText(PreambleLines(preamble))
  {
    hide Rstrip, Strip, JoinLines;
    RstripJoin(PreambleLines(lines));
    RstripJoin(PreambleLines(preamble));
    TrimPreamble(preamble);
    TrimPreamble(lines);
    TrimTrimmed(PreambleLines(preamble));
    EmptyLineShape();
  }

  lemma TrimPreamble(lines: seq<string>)
    ensures TrimEnd(PreambleLines(lines)) == TrimEnd(lines)
  {
    hide Rstrip, Strip, TrimEnd;
    TrimDropped(lines);
    var kept := DropBlankEnd(lines);
    TrimEndAppend(kept, [""]);
    BlankTrimEnd();
    assert kept == [] ==> PreambleLines(lines) == kept;
  }

  lemma {:induction false} TrimDropped(lines: seq<string>)
    ensures TrimEnd(DropBlankEnd(lines)) == TrimEnd(lines)
    decreases |lines|
  {
    hide Rstrip, Strip;
    if lines != [] && Strip(lines[|lines| - 1]) == "" {
      StripFacts(lines[|lines| - 1]);
      RstripFacts(lines[|lines| - 1]);
      TrimDropped(lines[..|lines| - 1]);
    }
  }

  lemma TrimTrimmed(lines: seq<string>)
    ensures TrimEnd(TrimEnd(lines)) == TrimEnd(lines)
  {
    hide Rstrip;
    var r := TrimEnd(lines);
    if r != [] {
      RstripTwice(lines[|r| - 1]);
    }
  }
}
