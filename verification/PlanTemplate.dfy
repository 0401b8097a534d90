/** Pruning the documented plan template to the requested sections, and reading one section's body back. */
module PlanTemplate {
  import opened Options
  import opened Sequences
  import opened Text
  import opened PlanMarkdown
  import opened PlanNormalForm

  predicate HasHeading(sections: seq<Section>, heading: string) {
    exists i :: 0 <= i < |sections| && sections[i].heading == heading
  }

  /** The requested sections in template order, with the overriding bodies. */
  function Kept(sections: seq<Section>, keep: seq<string>, overrides: map<string, string>): seq<Section> {
    if sections == [] then []
    else
      var s := sections[0];
      var body := if s.heading in overrides then overrides[s.heading] else s.body;
      (if s.heading in keep then [Section(s.heading, body)] else []) + Kept(sections[1..], keep, overrides)
  }

  predicate AllPresent(sections: seq<Section>, keep: seq<string>) {
    forall i :: 0 <= i < |keep| ==> HasHeading(sections, keep[i])
  }

  function RenderSubset(template: string, keep: seq<string>, overrides: map<string, string>): Result<string> {
    var d := Split(template);
    if !AllPresent(d.sections, keep) then Err("plan_template_missing_sections")
    else Ok(Render(d.preamble, Kept(d.sections, keep, overrides)))
  }

  method RenderTemplateSubset(template: string, keep: seq<string>, overrides: map<string, string>)
    returns (result: Result<string>)
    ensures result == RenderSubset(template, keep, overrides)
  {
    hide Split, Render, Kept, HasHeading;
    var preamble, sections := SplitMarkdownSections(template);
    var rendered: seq<Section> := [];
    var seen: set<string> := {};
    assert sections[0..] == sections && sections[..0] == [];
    NoneKept(keep, overrides);
    for i := 0 to |sections|
      invariant rendered + Kept(sections[i..], keep, overrides) == Kept(sections, keep, overrides)
      invariant forall h :: h in seen <==> h in keep && HasHeading(sections[..i], h)
    {
      var s := sections[i];
      KeptStep(sections, i, keep, overrides);
      SeenGrows(sections, i);
      if s.heading !in keep {
        continue;
      }
      var body := if s.heading in overrides then overrides[s.heading] else s.body;
      rendered := rendered + [Section(s.heading, body)];
      seen := seen + {s.heading};
    }
    assert sections[|sections|..] == [] && sections[..|sections|] == sections;
    assert rendered == Kept(sections, keep, overrides);
    if exists i :: 0 <= i < |keep| && keep[i] !in seen {
      return Err("plan_template_missing_sections");
    }
    assert forall i :: 0 <= i < |keep| ==> keep[i] in seen;
    var text := RenderMarkdownSections(preamble, rendered);
    return Ok(text);
  }

  lemma NoneKept(keep: seq<string>, overrides: map<string, string>)
    ensures Kept([], keep, overrides) == [] && forall h :: !HasHeading([], h)
  {
  }

  lemma KeptStep(sections: seq<Section>, i: nat, keep: seq<string>, overrides: map<string, string>)
    requires i < |sections|
    ensures var s := sections[i];
      var body := if s.heading in overrides then overrides[s.heading] else s.body;
      Kept(sections[i..], keep, overrides) ==
        (if s.heading in keep then [Section(s.heading, body)] else []) + Kept(sections[i + 1..], keep, overrides)
  {
    assert sections[i..][0] == sections[i] && sections[i..][1..] == sections[i + 1..];
  }

  lemma SeenGrows(sections: seq<Section>, i: nat)
    requires i < |sections|
    ensures forall h :: HasHeading(sections[..i + 1], h) <==> HasHeading(sections[..i], h) || h == sections[i].heading
  {
    var front, more := sections[..i], sections[..i + 1];
    assert more[i] == sections[i] && forall k :: 0 <= k < i ==> front[k] == more[k];
    forall h ensures HasHeading(more, h) <==> HasHeading(front, h) || h == sections[i].heading {
      if HasHeading(front, h) {
        var k :| 0 <= k < |front| && front[k].heading == h;
        assert more[k].heading == h;
      }
      if HasHeading(more, h) {
        var k :| 0 <= k < |more| && more[k].heading == h;
        assert k < i ==> front[k].heading == h;
      }
    }
  }

  function Headings(sections: seq<Section>): seq<string> {
    seq(|sections|, i requires 0 <= i < |sections| => sections[i].heading)
  }

  lemma {:induction false} KeptEmbeds(sections: seq<Section>, keep: seq<string>, overrides: map<string, string>)
    ensures Embeds(Headings(Kept(sections, keep, overrides)), Headings(sections))
    decreases |sections|
  {
    hide Embeds;
    if sections == [] {
      EmbedsSelf(Headings(sections));
      assert Kept(sections, keep, overrides) == sections;
    } else {
      var h, rest, more := sections[0].heading, sections[1..], Kept(sections[1..], keep, overrides);
      KeptEmbeds(rest, keep, overrides);
      EmbedsCons(h, Headings(more), Headings(rest));
      assert Headings(sections) == [h] + Headings(rest);
      assert Headings(Kept(sections, keep, overrides)) == (if h in keep then [h] else []) + Headings(more);
      assert [] + Headings(more) == Headings(more);
    }
  }

  lemma {:induction false} KeptRequested(sections: seq<Section>, keep: seq<string>, overrides: map<string, string>,
                                         h: string)
    ensures h in keep && HasHeading(sections, h) <==> HasHeading(Kept(sections, keep, overrides), h)
    decreases |sections|
  {
    if sections != [] {
      var s, rest := sections[0], sections[1..];
      KeptRequested(rest, keep, overrides, h);
      hide HasHeading;
      HasHeadingCons(s, rest, h);
      assert sections == [s] + rest;
      var kept, more := Kept(sections, keep, overrides), Kept(rest, keep, overrides);
      if s.heading in keep {
        HasHeadingCons(kept[0], more, h);
      } else {
        assert kept == more;
      }
    }
  }

  predicate AsRequested(s: Section, keep: seq<string>, overrides: map<string, string>) {
    s.heading in keep && (s.heading in overrides ==> s.body == overrides[s.heading])
  }

  lemma {:induction false} KeptBodies(sections: seq<Section>, keep: seq<string>, overrides: map<string, string>)
    ensures forall s :: s in Kept(sections, keep, overrides) ==> AsRequested(s, keep, overrides)
    decreases |sections|
  {
    if sections != [] {
      KeptBodies(sections[1..], keep, overrides);
    }
  }

  lemma HasHeadingCons(s: Section, rest: seq<Section>, h: string)
    ensures HasHeading([s] + rest, h) <==> s.heading == h || HasHeading(rest, h)
  {
    var all := [s] + rest;
    assert all[0] == s && forall k :: 0 <= k < |rest| ==> all[k + 1] == rest[k];
  }

  lemma {:induction false} KeptGoodHeadings(sections: seq<Section>, keep: seq<string>, overrides: map<string, string>)
    requires FromSplit(sections) && "" !in keep
    ensures GoodHeadings(Kept(sections, keep, overrides))
    decreases |sections|
  {
    hide FromPlainLines, Trimmed, OneLine;
    if sections != [] {
      KeptGoodHeadings(sections[1..], keep, overrides);
    }
  }

  /** A successful pruning writes a document whose sections are exactly the requested headings in template order,
      each once for every time the template has it, with the overriding or the template's own bodies. */
  lemma SubsetReadsBack(template: string, keep: seq<string>, overrides: map<string, string>)
    requires RenderSubset(template, keep, overrides).Ok? && "" !in keep
    requires PlainBodies(Kept(Split(template).sections, keep, overrides))
    ensures var kept := Kept(Split(template).sections, keep, overrides);
      var written := Split(RenderSubset(template, keep, overrides).value).sections;
      && written == CanonicalSections(kept)
      && Headings(written) == Headings(kept)
      && Embeds(Headings(written), Headings(Split(template).sections))
      && (forall h :: h in keep <==> HasHeading(written, h))
      && (forall i :: 0 <= i < |written| && written[i].heading in overrides ==>
            written[i].body == Canonical(overrides[written[i].heading]))
  {
    hide Split, Render, Canonical, OneLineEach, NoHeadings, FromSplit, GoodHeadings, Embeds;
    var d := Split(template);
    SplitFacts(template);
    var kept := Kept(d.sections, keep, overrides);
    KeptGoodHeadings(d.sections, keep, overrides);
    RenderThenSplit(d.preamble, kept);
    KeptEmbeds(d.sections, keep, overrides);
    KeptBodies(d.sections, keep, overrides);
    var written := CanonicalSections(kept);
    assert Headings(written) == Headings(kept);
    forall i | 0 <= i < |written| && written[i].heading in overrides
      ensures written[i].body == Canonical(overrides[written[i].heading])
    {
      assert kept[i] in kept && AsRequested(kept[i], keep, overrides);
    }
    forall h ensures h in keep <==> HasHeading(written, h) {
      SameHeadings(written, kept, h);
      KeptRequested(d.sections, keep, overrides, h);
      if h in keep {
        var i :| 0 <= i < |keep| && keep[i] == h;
        assert HasHeading(d.sections, keep[i]);
      }
    }
  }

  /** An override that is trimmed and has plain newlines reads back as it was given. */
  lemma OverrideReadsBack(template: string, keep: seq<string>, overrides: map<string, string>, i: nat)
    requires RenderSubset(template, keep, overrides).Ok? && "" !in keep
    requires PlainBodies(Kept(Split(template).sections, keep, overrides))
    requires var written := Split(RenderSubset(template, keep, overrides).value).sections;
      i < |written| && written[i].heading in overrides &&
      Trimmed(overrides[written[i].heading]) && PlainNewlines(overrides[written[i].heading])
    ensures var written := Split(RenderSubset(template, keep, overrides).value).sections;
      written[i].body == overrides[written[i].heading]
  {
    hide Split, RenderSubset, Kept, PlainBodies, Canonical, Trimmed, PlainNewlines, Embeds, HasHeading;
    SubsetReadsBack(template, keep, overrides);
    var written := Split(RenderSubset(template, keep, overrides).value).sections;
    CanonicalIff(overrides[written[i].heading]);
  }

  lemma SameHeadings(a: seq<Section>, b: seq<Section>, h: string)
    requires Headings(a) == Headings(b)
    ensures HasHeading(a, h) <==> HasHeading(b, h)
  {
    assert |Headings(a)| == |a| && |Headings(b)| == |b|;
    assert forall i :: 0 <= i < |a| ==> Headings(a)[i] == a[i].heading && Headings(b)[i] == b[i].heading;
  }

  // ---------------------------------------------------------------- one section's body

  function Collect(lines: seq<string>, headingLine: string): seq<string> {
    if lines == [] then []
    else if lines[0] == headingLine then Collect(lines[1..], headingLine)
    else if IsHeadingLine(lines[0]) then []
    else [lines[0]] + Collect(lines[1..], headingLine)
  }

  /** The lines collected under the first line that is exactly the heading line; a repeated heading line is
      skipped, another heading ends the section. */
  function CollectFrom(lines: seq<string>, headingLine: string): seq<string> {
    if lines == [] then []
    else if lines[0] == headingLine then Collect(lines[1..], headingLine)
    else CollectFrom(lines[1..], headingLine)
  }

  function SectionBody(text: string, heading: string): string {
    BodyText(CollectFrom(SplitLines(text), HeadingLine(heading)))
  }

  method ExtractSectionBody(text: string, heading: string) returns (result: string)
    ensures result == SectionBody(text, heading)
  {
    hide IsHeadingLine, BodyText, HeadingLine, SplitLines;
    var lines := SplitLines(text);
    var headingLine := HeadingLine(heading);
    var inSection, body := false, [];
    var i := 0;
    assert lines[0..] == lines;
    while i < |lines|
      invariant 0 <= i <= |lines|
      invariant !inSection ==> body == [] && CollectFrom(lines[i..], headingLine) == CollectFrom(lines, headingLine)
      invariant inSection ==> body + Collect(lines[i..], headingLine) == CollectFrom(lines, headingLine)
    {
      var line := lines[i];
      assert lines[i..][0] == line && lines[i..][1..] == lines[i + 1..];
      if line == headingLine {
        inSection := true;
      } else if inSection && IsHeadingLine(line) {
        break;
      } else if inSection {
        body := body + [line];
      }
      i := i + 1;
    }
    assert i == |lines| ==> lines[i..] == [];
    assert body == CollectFrom(lines, headingLine);
    result := BodyText(body);
  }

  /** Heading lines are written the one way the renderer writes them. */
  ghost predicate RenderedHeadings(lines: seq<string>) {
    forall i :: 0 <= i < |lines| && IsHeadingLine(lines[i]) ==> lines[i] == HeadingLine(HeadingText(lines[i]))
  }

  ghost predicate DistinctHeadings(sections: seq<Section>) {
    forall i, j :: 0 <= i < j < |sections| ==> sections[i].heading != sections[j].heading
  }

  /** The body of the section with the heading, or nothing. */
  function BodyUnder(sections: seq<Section>, heading: string): string {
    if sections == [] then ""
    else if sections[0].heading == heading then sections[0].body
    else BodyUnder(sections[1..], heading)
  }

  lemma HeadingLinesDiffer(a: string, b: string)
    ensures HeadingLine(a) == HeadingLine(b) <==> a == b
    ensures IsHeadingLine(HeadingLine(a))
  {
    assert HeadingLine(a)[3..] == a && HeadingLine(b)[3..] == b;
    assert HeadingLine(a)[..3] == "## ";
  }

  lemma {:induction false} CollectBody(body: seq<string>, rest: seq<string>, headingLine: string)
    requires NoHeadings(body) && IsHeadingLine(headingLine)
    requires rest != [] ==> IsHeadingLine(rest[0]) && rest[0] != headingLine
    ensures Collect(body + rest, headingLine) == body
    ensures CollectFrom(body + rest, headingLine) == CollectFrom(rest, headingLine)
    decreases |body|
  {
    hide IsHeadingLine;
    if body == [] {
      assert body + rest == rest;
    } else {
      assert (body + rest)[1..] == body[1..] + rest;
      CollectBody(body[1..], rest, headingLine);
    }
  }

  lemma {:induction false} SkipBody(body: seq<string>, rest: seq<string>, headingLine: string)
    requires NoHeadings(body) && IsHeadingLine(headingLine)
    ensures CollectFrom(body + rest, headingLine) == CollectFrom(rest, headingLine)
    decreases |body|
  {
    hide IsHeadingLine;
    if body == [] {
      assert body + rest == rest;
    } else {
      assert (body + rest)[1..] == body[1..] + rest;
      SkipBody(body[1..], rest, headingLine);
    }
  }

  lemma FirstOfDistinct(lines: seq<string>) returns (body: seq<string>, rest: seq<string>)
    requires lines != [] && IsHeadingLine(lines[0]) && RenderedHeadings(lines)
    requires DistinctHeadings(SectionsOf(lines))
    ensures NoHeadings(body) && (rest != [] ==> IsHeadingLine(rest[0])) && |rest| < |lines|
    ensures lines == [lines[0]] + body + rest && RenderedHeadings(rest)
    ensures SectionsOf(lines) == [Section(HeadingText(lines[0]), BodyText(body))] + SectionsOf(rest)
    ensures DistinctHeadings(SectionsOf(rest))
    ensures rest != [] ==> SectionsOf(rest) != [] && SectionsOf(rest)[0].heading == HeadingText(rest[0])
    ensures rest != [] ==> HeadingText(lines[0]) != HeadingText(rest[0])
  {
    hide IsHeadingLine, HeadingLine, HeadingText, BodyText;
    body, rest := FirstSection(lines);
    SectionThenRest(lines[0], body, rest);
    hide SectionsOf;
    var all, tail := SectionsOf(lines), SectionsOf(rest);
    forall i | 0 <= i < |rest| && IsHeadingLine(rest[i]) ensures rest[i] == HeadingLine(HeadingText(rest[i])) {
      assert rest[i] == lines[1 + |body| + i];
    }
    forall i, j | 0 <= i < j < |tail| ensures tail[i].heading != tail[j].heading {
      assert all[i + 1] == tail[i] && all[j + 1] == tail[j];
    }
    if rest != [] {
      var _, _ := SectionStart(rest);
      assert all[0].heading != all[1].heading;
    }
  }

  lemma SectionStart(lines: seq<string>) returns (body: seq<string>, rest: seq<string>)
    requires lines != [] && IsHeadingLine(lines[0])
    ensures SectionsOf(lines) != [] && SectionsOf(lines)[0].heading == HeadingText(lines[0])
  {
    hide IsHeadingLine, HeadingText, BodyText;
    body, rest := FirstSection(lines);
    SectionThenRest(lines[0], body, rest);
  }

  /** The line reader finds the body that splitting finds. */
  lemma {:induction false} CollectAgrees(lines: seq<string>, heading: string)
    requires (lines != [] ==> IsHeadingLine(lines[0])) && RenderedHeadings(lines)
    requires DistinctHeadings(SectionsOf(lines))
    ensures BodyText(CollectFrom(lines, HeadingLine(heading))) == BodyUnder(SectionsOf(lines), heading)
    decreases |lines|
  {
    hide IsHeadingLine, HeadingLine, HeadingText, BodyText, SectionsOf, NoHeadings, CollectFrom;
    if lines == [] {
      NothingCollected(HeadingLine(heading));
    } else {
      assert lines[0] == HeadingLine(HeadingText(lines[0]));
      var first := lines[0];
      var body, rest := FirstOfDistinct(lines);
      HeadingLinesDiffer(heading, HeadingText(first));
      CollectAgrees(rest, heading);
      BodyUnderCons(Section(HeadingText(first), BodyText(body)), SectionsOf(rest), heading);
      CollectStep(first, body + rest, HeadingLine(heading));
      assert lines == [first] + (body + rest);
      if first == HeadingLine(heading) {
        if rest != [] {
          assert rest[0] == HeadingLine(HeadingText(rest[0]));
          HeadingLinesDiffer(heading, HeadingText(rest[0]));
        }
        CollectBody(body, rest, HeadingLine(heading));
      } else {
        SkipBody(body, rest, HeadingLine(heading));
      }
    }
  }

  lemma BodyUnderCons(s: Section, rest: seq<Section>, heading: string)
    ensures BodyUnder([s] + rest, heading) == if s.heading == heading then s.body else BodyUnder(rest, heading)
  {
    assert ([s] + rest)[1..] == rest;
  }

  lemma CollectStep(first: string, lines: seq<string>, headingLine: string)
    ensures CollectFrom([first] + lines, headingLine) ==
            if first == headingLine then Collect(lines, headingLine) else CollectFrom(lines, headingLine)
  {
    assert ([first] + lines)[1..] == lines;
  }

  lemma NothingCollected(headingLine: string)
    ensures BodyText(CollectFrom([], headingLine)) == "" && SectionsOf([]) == []
  {
  }

  lemma {:induction false} RenderedSectionHeadings(sections: seq<Section>)
    requires GoodHeadings(sections) && PlainBodies(sections)
    ensures RenderedHeadings(SectionsLines(sections))
    decreases |sections|
  {
    hide IsHeadingLine, HeadingLine, HeadingText, SplitLines, GoodHeading, Rstrip, OneLine;
    if sections != [] {
      var s, rest := sections[0], sections[1..];
      assert forall i :: 0 <= i < |rest| ==> rest[i] == sections[i + 1];
      RenderedSectionHeadings(rest);
      HeadingLineShape(s.heading);
      EmptyLineShape();
      assert NoHeadings(SplitLines(s.body));
    }
  }

  lemma TrimmedHeadings(lines: seq<string>)
    requires RenderedHeadings(lines)
    requires forall i :: 0 <= i < |lines| && IsHeadingLine(lines[i]) ==> Rstrip(lines[i]) == lines[i]
    ensures RenderedHeadings(TrimEnd(lines))
  {
    hide IsHeadingLine, HeadingLine, HeadingText, Rstrip, TrimEnd;
    var r := TrimEnd(lines);
    forall i | 0 <= i < |r| && IsHeadingLine(r[i]) ensures r[i] == HeadingLine(HeadingText(r[i])) {
      TrimEndElement(lines, i);
      PrefixOfHeading(lines[i]);
    }
  }

  lemma {:induction false} SolidHeadings(sections: seq<Section>)
    requires GoodHeadings(sections) && PlainBodies(sections)
    ensures forall i :: 0 <= i < |SectionsLines(sections)| && IsHeadingLine(SectionsLines(sections)[i]) ==>
      Rstrip(SectionsLines(sections)[i]) == SectionsLines(sections)[i]
    decreases |sections|
  {
    hide IsHeadingLine, HeadingLine, HeadingText, SplitLines, GoodHeading, Rstrip, OneLine;
    if sections != [] {
      var s, rest := sections[0], sections[1..];
      assert forall i :: 0 <= i < |rest| ==> rest[i] == sections[i + 1];
      SolidHeadings(rest);
      HeadingLineShape(s.heading);
      EmptyLineShape();
      assert NoHeadings(SplitLines(s.body));
    }
  }

  /** Reading a section of a rendered document gives the body that was rendered, in canonical form. */
  lemma RenderedBodyReadsBack(preamble: seq<string>, sections: seq<Section>, heading: string)
    requires OneLineEach(preamble) && NoHeadings(preamble)
    requires sections != [] && GoodHeadings(sections) && PlainBodies(sections) && DistinctHeadings(sections)
    ensures SectionBody(Render(preamble, sections), heading) == BodyUnder(CanonicalSections(sections), heading)
  {
    hide IsHeadingLine, HeadingLine, HeadingText, SplitLines, GoodHeading, Rstrip, OneLine, TrimEnd, BodyText,
      PreambleLines, SectionsLines, Canonical, Render, SectionsOf, NextHeading;
    RenderedSplits(preamble, sections);
    SettledLines(sections);
    PreambleShape(preamble);
    SectionsReadBack(sections);
    RenderedSectionHeadings(sections);
    SolidHeadings(sections);
    var p, s := PreambleLines(preamble), SectionsLines(sections);
    TrimEndAppend(p, s);
    SectionsTrim(s);
    TrimmedHeadings(s);
    HeadingLinesDiffer(heading, heading);
    SkipBody(p, TrimEnd(s), HeadingLine(heading));
    assert DistinctHeadings(CanonicalSections(sections));
    CollectAgrees(TrimEnd(s), heading);
  }

  /** Reading a section of a rendered document gives exactly the body that was rendered under its heading if that
      body is trimmed and has plain newlines, and something else otherwise. */
  lemma RenderedBodyIsSameIff(preamble: seq<string>, sections: seq<Section>, i: nat)
    requires OneLineEach(preamble) && NoHeadings(preamble) && i < |sections|
    requires GoodHeadings(sections) && PlainBodies(sections) && DistinctHeadings(sections)
    ensures SectionBody(Render(preamble, sections), sections[i].heading) == sections[i].body <==>
            Trimmed(sections[i].body) && PlainNewlines(sections[i].body)
  {
    hide OneLineEach, NoHeadings, GoodHeadings, PlainBodies, Render, SectionBody, Canonical, Trimmed, PlainNewlines;
    RenderedBodyReadsBack(preamble, sections, sections[i].heading);
    CanonicalIff(sections[i].body);
    BodyUnderIs(CanonicalSections(sections), i);
  }

  lemma {:induction false} BodyUnderIs(sections: seq<Section>, i: nat)
    requires DistinctHeadings(sections) && i < |sections|
    ensures BodyUnder(sections, sections[i].heading) == sections[i].body
  {
    if i > 0 {
      assert sections[0].heading != sections[i].heading;
      forall j, k | 0 <= j < k < |sections| - 1 ensures sections[1..][j].heading != sections[1..][k].heading {
        assert sections[j + 1].heading != sections[k + 1].heading;
      }
      BodyUnderIs(sections[1..], i - 1);
    }
  }

  lemma {:induction false} KeptFromTemplate(
    sections: seq<Section>, keep: seq<string>, overrides: map<string, string>, s: Section)
    requires s in Kept(sections, keep, overrides) && s.heading !in overrides
    ensures s in sections
    decreases |sections|
  {
    if s in Kept(sections[1..], keep, overrides) {
      KeptFromTemplate(sections[1..], keep, overrides, s);
    }
  }

  /** A section without an override keeps the body it has in the template. */
  lemma TemplateBodiesStay(template: string, keep: seq<string>, overrides: map<string, string>, i: nat)
    requires RenderSubset(template, keep, overrides).Ok? && "" !in keep
    requires PlainBodies(Kept(Split(template).sections, keep, overrides))
    requires var written := Split(RenderSubset(template, keep, overrides).value).sections;
      i < |written| && written[i].heading !in overrides
    ensures var written := Split(RenderSubset(template, keep, overrides).value).sections;
      exists s :: s in Split(template).sections && s.heading == written[i].heading &&
        written[i].body == Canonical(s.body)
  {
    hide Split, RenderSubset, Kept, PlainBodies, Canonical, Embeds, HasHeading;
    SubsetReadsBack(template, keep, overrides);
    var kept := Kept(Split(template).sections, keep, overrides);
    KeptFromTemplate(Split(template).sections, keep, overrides, kept[i]);
  }

  /** Pruning fails exactly if a requested section is missing from the template. */
  lemma SubsetFailsIff(template: string, keep: seq<string>, overrides: map<string, string>)
    ensures RenderSubset(template, keep, overrides) == Err("plan_template_missing_sections") <==>
            exists h :: h in keep && !HasHeading(Split(template).sections, h)
    ensures RenderSubset(template, keep, overrides).Err? ==>
            RenderSubset(template, keep, overrides) == Err("plan_template_missing_sections")
  {
    hide Split, Render, Kept, HasHeading;
    if RenderSubset(template, keep, overrides).Err? {
      var i :| 0 <= i < |keep| && !HasHeading(Split(template).sections, keep[i]);
      assert keep[i] in keep;
    }
    if h :| h in keep && !HasHeading(Split(template).sections, h) {
      var i :| 0 <= i < |keep| && keep[i] == h;
    }
  }
}
