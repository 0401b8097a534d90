/** When rendering a split document is a normal form: splitting and rendering a second time changes nothing. */
module PlanNormalForm {
  import opened Text
  import opened PlanMarkdown

  function Normalize(text: string): string {
    Render(Split(text).preamble, Split(text).sections)
  }

  /** The body is what trimming made of lines none of which was a heading line. */
  ghost predicate FromPlainLines(body: string) {
    exists lines :: OneLineEach(lines) && NoHeadings(lines) && body == BodyText(lines)
  }

  ghost predicate FromSplit(sections: seq<Section>) {
    forall i :: 0 <= i < |sections| ==>
      Trimmed(sections[i].heading) && OneLine(sections[i].heading) && FromPlainLines(sections[i].body)
  }

  lemma HeadingTextShape(line: string)
    requires IsHeadingLine(line) && OneLine(line)
    ensures Trimmed(HeadingText(line)) && OneLine(HeadingText(line))
  {
    StripFacts(line[3..]);
  }

  lemma {:induction false} SectionsFromSplit(lines: seq<string>)
    requires OneLineEach(lines) && (lines != [] ==> IsHeadingLine(lines[0]))
    ensures FromSplit(SectionsOf(lines))
    decreases |lines|
  {
    hide IsHeadingLine, BodyText, HeadingText, OneLine, Trimmed, FromPlainLines, NoHeadings;
    if lines != [] {
      var body, rest := FirstSection(lines);
      SectionThenRest(lines[0], body, rest);
      hide SectionsOf;
      assert forall i :: 0 <= i < |body| ==> body[i] == lines[1 + i];
      assert forall i :: 0 <= i < |rest| ==> rest[i] == lines[1 + |body| + i];
      SectionsFromSplit(rest);
      HeadingTextShape(lines[0]);
      PlainLinesShow(body);
    }
  }

  lemma PlainLinesShow(lines: seq<string>)
    requires OneLineEach(lines) && NoHeadings(lines)
    ensures FromPlainLines(BodyText(lines))
  {
    hide OneLineEach, NoHeadings, BodyText;
  }

  lemma PrefixOfHeading(line: string)
    ensures IsHeadingLine(Rstrip(line)) ==> IsHeadingLine(line)
  {
    RstripFacts(line);
  }

  lemma {:induction false} InnerLinesArePlain(lines: seq<string>)
    requires NoHeadings(lines)
    ensures var m := TrimStart(lines); m != [] ==> NoHeadings(m[1..])
    decreases |lines|
  {
    hide IsHeadingLine, AllSpace, Lstrip;
    if lines != [] && AllSpace(lines[0]) {
      InnerLinesArePlain(lines[1..]);
    }
  }

  lemma JoinedStart(lines: seq<string>)
    requires lines != [] && OneLineEach(lines)
    ensures StartsWith(JoinLines(lines), "## ") <==> StartsWith(lines[0], "## ")
  {
    var first, text := lines[0], JoinLines(lines);
    assert text == first || text == first + "\n" + JoinLines(lines[1..]);
    if |first| >= 3 {
      assert text[..3] == first[..3];
    } else if |text| >= 3 {
      assert text[|first|] == '\n';
      assert "## "[0] == '#' && "## "[1] == '#' && "## "[2] == ' ';
    }
  }

  /** A split body is its own canonical form, and has a heading line exactly if it starts with one: only the
      first line can have lost leading whitespace. */
  lemma SplitBody(body: string)
    requires FromPlainLines(body)
    ensures Trimmed(body) && Canonical(body) == body
    ensures NoHeadings(SplitLines(body)) <==> !StartsWith(body, "## ")
    ensures !NoHeadings(SplitLines(body)) ==> IsHeadingLine(SplitLines(body)[0])
  {
    hide Strip, JoinLines, TrimStart, TrimEnd, OneLine, SplitLines, StartsWith, Rstrip;
    var lines :| OneLineEach(lines) && NoHeadings(lines) && body == BodyText(lines);
    StripJoinLines(lines);
    StripFacts(JoinLines(lines));
    TrimmedStrip(body);
    InnerLinesArePlain(lines);
    var m := TrimStart(lines);
    var r := TrimEnd(m);
    TrimEndOneLine(m);
    forall i | 0 < i < |r| ensures !IsHeadingLine(r[i]) {
      assert m[1..][i - 1] == m[i];
      PrefixOfHeading(m[i]);
      assert i < |r| - 1 ==> r[i] == r[..|r| - 1][i];
    }
    if r != [] {
      JoinedStart(r);
    } else {
      JoinNothing();
      assert !StartsWith("", "## ") by { EmptyLineShape(); }
    }
  }

  ghost predicate NonBlankHeadings(sections: seq<Section>) {
    forall i :: 0 <= i < |sections| ==> sections[i].heading != ""
  }

  /** No body starts like a section. */
  ghost predicate NoBodyOpensSection(sections: seq<Section>) {
    forall i :: 0 <= i < |sections| ==> !StartsWith(sections[i].body, "## ")
  }

  lemma SplitFacts(text: string)
    ensures var d := Split(text);
      OneLineEach(d.preamble) && NoHeadings(d.preamble) && FromSplit(d.sections)
  {
    hide IsHeadingLine, OneLine, SectionsOf, FromSplit;
    var lines := SplitLines(text);
    var n := NextHeading(lines);
    SectionsFromSplit(lines[n..]);
  }

  lemma SplitSectionsShape(sections: seq<Section>)
    requires FromSplit(sections) && NonBlankHeadings(sections)
    ensures GoodHeadings(sections) && AllSettled(sections) && CanonicalSections(sections) == sections
    ensures NoBodyOpensSection(sections) ==> PlainBodies(sections)
  {
    hide OneLine, Trimmed, Canonical, NoHeadings, StartsWith, FromPlainLines, SplitLines;
    forall i | 0 <= i < |sections|
      ensures Settled(sections[i].body) && Canonical(sections[i].body) == sections[i].body
      ensures !StartsWith(sections[i].body, "## ") ==> NoHeadings(SplitLines(sections[i].body))
    {
      SplitBody(sections[i].body);
    }
  }

  /** If no body opens a section, the normalized text splits into the same sections and stays as it is. */
  lemma PlainIsStable(text: string)
    requires NonBlankHeadings(Split(text).sections) && NoBodyOpensSection(Split(text).sections)
    ensures Normalize(Normalize(text)) == Normalize(text)
    ensures Split(Normalize(text)).sections == Split(text).sections
  {
    hide Split, Render, FromSplit, OneLineEach, NoHeadings, GoodHeadings, PlainBodies, AllSettled, PreambleLines;
    var d := Split(text);
    SplitFacts(text);
    SplitSectionsShape(d.sections);
    RenderThenSplit(d.preamble, d.sections);
    if d.sections == [] {
      RenderedPreamble(d.preamble);
    } else {
      PreambleShape(d.preamble);
      SameRendering(d.preamble, d.sections);
    }
  }

  lemma SameRendering(preamble: seq<string>, sections: seq<Section>)
    requires PreambleLines(PreambleLines(preamble)) == PreambleLines(preamble)
    ensures Render(PreambleLines(preamble), sections) == Render(preamble, sections)
  {
    hide FileText, PreambleLines;
  }

  // ---------------------------------------------------------------- a body that opens a section

  lemma HeadOpens(s: Section, rest: seq<string>)
    requires GoodHeading(s.heading) && SplitLines(s.body) != [] && IsHeadingLine(SplitLines(s.body)[0])
    ensures var lines := SectionLines(s) + rest;
      && |lines| > 2 && IsHeadingLine(lines[0]) && IsHeadingLine(lines[2])
      && SectionsOf(lines) != [] && SectionsOf(lines)[0] == Section(s.heading, "")
  {
    hide IsHeadingLine, SplitLines, HeadingLine, HeadingText, Rstrip, OneLine, BodyText;
    HeadingLineShape(s.heading);
    EmptyLineShape();
    var lines := SectionLines(s) + rest;
    assert lines[2] == SplitLines(s.body)[0];
    assert lines[1..][..1] == [""] && lines[1..][1] == lines[2];
    NextHeadingIs(lines[1..], 1);
    assert lines[1..2] == [""];
    assert BodyText([""]) == "" by { BlankBody(); }
  }

  lemma BlankBody()
    ensures BodyText([""]) == ""
  {
  }

  /** Where some body opens a section, the lines and their second rendering differ: the first has a heading line
      where the second has a blank one. */
  lemma {:induction false} OpeningBodyShows(sections: seq<Section>) returns (k: nat)
    requires FromSplit(sections) && NonBlankHeadings(sections) && !NoBodyOpensSection(sections)
    ensures var lines := SectionsLines(sections);
      && lines != [] && IsHeadingLine(lines[0])
      && var again := SectionsLines(SectionsOf(lines));
         k < |lines| && IsHeadingLine(lines[k]) && k < |again| && again[k] == ""
    decreases |sections|
  {
    hide IsHeadingLine, StartsWith, OneLine, Trimmed, SplitLines, SectionsOf, Canonical, FromPlainLines, HeadingLine;
    var s, rest := sections[0], sections[1..];
    assert FromPlainLines(s.body) && GoodHeading(s.heading) by { HeadIsGood(sections); }
    SplitBody(s.body);
    if StartsWith(s.body, "## ") {
      k := 2;
      HeadOpens(s, SectionsLines(rest));
      AgainStarts(SectionsOf(SectionsLines(sections)), s.heading);
    } else {
      assert exists i :: 0 <= i < |rest| && StartsWith(rest[i].body, "## ") by {
        var i :| 0 <= i < |sections| && StartsWith(sections[i].body, "## ");
        assert rest[i - 1] == sections[i];
      }
      assert FromSplit(rest) && NonBlankHeadings(rest) by { TailIsFromSplit(sections); }
      var j := OpeningBodyShows(rest);
      SectionHead(s, SectionsLines(rest));
      k := |SectionLines(s)| + j;
      AgainContinues(s, SectionsOf(SectionsLines(rest)));
    }
  }

  lemma HeadIsGood(sections: seq<Section>)
    requires sections != [] && FromSplit(sections) && NonBlankHeadings(sections)
    ensures FromPlainLines(sections[0].body) && GoodHeading(sections[0].heading)
  {
  }

  lemma TailIsFromSplit(sections: seq<Section>)
    requires sections != [] && FromSplit(sections) && NonBlankHeadings(sections)
    ensures FromSplit(sections[1..]) && NonBlankHeadings(sections[1..])
  {
    hide FromPlainLines, Trimmed, OneLine;
  }

  lemma AgainStarts(sections: seq<Section>, heading: string)
    requires sections != [] && sections[0] == Section(heading, "")
    ensures |SectionsLines(sections)| > 2 && SectionsLines(sections)[2] == ""
  {
    NoLines();
  }

  lemma AgainContinues(s: Section, rest: seq<Section>)
    ensures SectionsLines([s] + rest) == SectionLines(s) + SectionsLines(rest)
  {
    assert ([s] + rest)[1..] == rest;
  }

  lemma OpeningBodyIsUnstable(text: string)
    requires NonBlankHeadings(Split(text).sections) && !NoBodyOpensSection(Split(text).sections)
    ensures Normalize(Normalize(text)) != Normalize(text)
  {
    hide Split, FromSplit, NoHeadings, GoodHeadings, AllSettled, PreambleLines, SectionsLines, SectionsOf,
      IsHeadingLine, OneLine, NoBodyOpensSection, NonBlankHeadings, FileText, SplitLines, TrimEnd, Rstrip;
    var d := Split(text);
    SplitFacts(text);
    SplitSectionsShape(d.sections);
    var k := OpeningBodyShows(d.sections);
    assert d.sections != [] by { NoSectionsOpenNothing(d.sections); }
    RenderedSplits(d.preamble, d.sections);
    PreambleShape(d.preamble);
    var p, s := PreambleLines(d.preamble), SectionsLines(d.sections);
    var again := SectionsOf(s);
    assert Split(Normalize(text)) == Document(p, again);
    SettledLines(d.sections);
    SectionsFromSplit(s);
    HeadingsOneLine(again);
    SectionsLinesOneLine(again);
    assert OneLineEach(p + s) && OneLineEach(p + SectionsLines(again));
    TextDiffers(p, s, SectionsLines(again), k);
    assert Normalize(Normalize(text)) == FileText(p + SectionsLines(again));
  }

  lemma NoSectionsOpenNothing(sections: seq<Section>)
    requires !NoBodyOpensSection(sections)
    ensures sections != []
  {
  }

  lemma HeadingsOneLine(sections: seq<Section>)
    requires FromSplit(sections)
    ensures forall i :: 0 <= i < |sections| ==> OneLine(sections[i].heading)
  {
    hide FromPlainLines, Trimmed, OneLine;
  }

  lemma {:induction false} SectionsLinesOneLine(sections: seq<Section>)
    requires forall i :: 0 <= i < |sections| ==> OneLine(sections[i].heading)
    ensures OneLineEach(SectionsLines(sections))
    decreases |sections|
  {
    hide OneLine, SplitLines;
    if sections != [] {
      SectionsLinesOneLine(sections[1..]);
      assert OneLine("## ") by { HashesOneLine(); }
      OneLineAppend("## ", sections[0].heading);
      EmptyLineShape();
    }
  }

  lemma HashesOneLine()
    ensures OneLine("## ")
  {
  }

  lemma TextDiffers(p: seq<string>, a: seq<string>, b: seq<string>, k: nat)
    requires k < |a| && k < |b| && IsHeadingLine(a[k]) && b[k] == ""
    requires OneLineEach(p + a) && OneLineEach(p + b)
    ensures FileText(p + a) != FileText(p + b)
  {
    hide IsHeadingLine, Rstrip, TrimEnd, OneLine, FileText, SplitLines;
    var i := |p| + k;
    HeadingLineIsSolid(a[k]);
    assert (p + a)[i] == a[k] && (p + b)[i] == "";
    TrimEndHasSolid(p + a, i);
    ReadBack(p + a);
    ReadBack(p + b);
    TrimEndElement(p + a, i);
    if i < |TrimEnd(p + b)| {
      TrimEndElement(p + b, i);
    }
    EmptyLineShape();
  }

  /** Rendering what was split is idempotent for a document with non-blank headings exactly if no section body,
      once trimmed, begins like a section: its first non-blank line was an indented heading line. */
  lemma NormalFormIff(text: string)
    requires NonBlankHeadings(Split(text).sections)
    ensures Normalize(Normalize(text)) == Normalize(text) <==> NoBodyOpensSection(Split(text).sections)
  {
    hide *;
    if NoBodyOpensSection(Split(text).sections) {
      PlainIsStable(text);
    } else {
      OpeningBodyIsUnstable(text);
    }
  }

  /** A document that meets the bad case: its only section body is an indented heading line. */
  lemma IndentedHeadingIsUnstable()
    ensures var text := JoinLines(["## A", "  ## B"]);
      && NonBlankHeadings(Split(text).sections) && !NoBodyOpensSection(Split(text).sections)
      && Normalize(Normalize(text)) != Normalize(text)
  {
    var lines := ["## A", "  ## B"];
    var text := JoinLines(lines);
    IndentedSplit();
    hide Split, Render, StartsWith, JoinLines;
    NormalFormIff(text);
  }

  lemma IndentedSplit()
    ensures var d := Split(JoinLines(["## A", "  ## B"]));
      |d.sections| == 1 && d.sections[0].heading == "A" && StartsWith(d.sections[0].body, "## ")
  {
    var lines := ["## A", "  ## B"];
    LiteralShapes();
    SplitJoinOpen(lines);
    hide IsHeadingLine, SplitLines, Strip, OneLine, JoinLines, BodyText, HeadingText;
    NextHeadingIs(lines, 0);
    assert lines[0..] == lines && lines == ["## A"] + ["  ## B"];
    OneSection("## A", ["  ## B"]);
  }

  lemma LiteralShapes()
    ensures OneLine("## A") && OneLine("  ## B") && IsHeadingLine("## A") && !IsHeadingLine("  ## B")
    ensures HeadingText("## A") == "A" && BodyText(["  ## B"]) == "## B" && StartsWith("## B", "## ")
  {
    assert "## A"[..3] == "## " && "## A"[3..] == "A" && "## B"[..3] == "## ";
    TrimmedStrip("A");
    assert "  ## B"[1] == ' ';
    assert JoinLines(["  ## B"]) == "  ## B" == "  " + "## B";
    LstripSpaces("  ", "## B");
    TrimmedStrip("## B");
  }
}
