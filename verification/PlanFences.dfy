/** A plan that is lost by being rewritten. The reason in its contract is three backticks: the plan spells them in
    escapes, the writer does not. */
module PlanFences {
  import opened Options
  import opened Text
  import opened PlanMarkdown
  import opened PlanTemplate
  import opened PlanStep
  import C = PlanContract

  const ESCAPED := "{\"reason\": \"\\u0060\\u0060\\u0060\"}"
  const WRITTEN := "{\"reason\": \"```\"}"

  const FENCED := C.RawContract(
    C.Triage(false, "```", [], "", ""), [], [], Some(C.NO_STRATEGY), None, C.Risk("", "", "", "", "", "", ""))
  const NORMAL := C.Contract(FENCED.triage, [], map[], C.NO_STRATEGY, FENCED.risk)

  const HEADINGS := [
    "Triage", "Strategy Contract", "Internal Discovery", "Summary", "Relevant Domains", "Internal Research",
    "Design Slices", "Plan Completion Summary"]

  const TRIAGE_LINES := ["- duplicate: false", "- t_shirt_size: ", "- risk_level: ", "- reason: ```"]

  /** The lines of the section with that number once the plan is rewritten. */
  function BodyLines(i: nat): seq<string> {
    if i == 0 then TRIAGE_LINES
    else if i == 1 then [JSON_FENCE, WRITTEN, FENCE]
    else if i == 2 then [PLACEHOLDER]
    else []
  }

  function EmptySections(headings: seq<string>): seq<Section> {
    seq(|headings|, i requires 0 <= i < |headings| => Section(headings[i], ""))
  }

  function Blank(): seq<Section> {
    EmptySections(HEADINGS)
  }

  function Filled(): seq<Section> {
    seq(|HEADINGS|, i requires 0 <= i < |HEADINGS| => Section(HEADINGS[i], JoinLines(BodyLines(i))))
  }

  /** A template of empty sections; a reader and a writer of JSON, as far as this contract is concerned. */
  function Example(): Context {
    Context(
      Render([], Blank()),
      (s: string) => if s == ESCAPED + "\n" || s == WRITTEN + "\n" then Some(FENCED) else None,
      (c: C.Contract) => WRITTEN, (c: C.Contract) => "")
  }

  const PLAN := ContractBody(ESCAPED)

  // ---------------------------------------------------------------- the literals

  lemma FencedNormalizes()
    ensures C.Normalize(FENCED) == Ok(NORMAL) && C.LabelsAgree(FENCED) && C.Rereads(FENCED, NORMAL)
  {
    C.LiteralLevels();
    assert "```"[0] == '`' && |"```"| == 3 && "```"[2] == '`';
    TrimmedStrip("```");
    TrimmedStrip("");
    hide C.NormalizeLevel, C.NormalizeSize, Strip;
  }

  lemma Printable(s: string)
    requires IsPrintable(s)
    ensures OneLine(s) && PlainNewlines(s) && !IsSpace(s[0])
    ensures s[|s| - 1] != ' ' ==> GoodHeading(s)
  {
    PrintableIsPlain(s);
    hide IsPrintable, IsSpace;
  }

  lemma HeadingsAreGood()
    ensures forall i :: 0 <= i < |HEADINGS| ==> GoodHeading(HEADINGS[i])
  {
    FirstHeadingsArePrintable();
    LastHeadingsArePrintable();
    hide GoodHeading, IsPrintable, OneLine, PlainNewlines, IsSpace;
    forall i | 0 <= i < |HEADINGS| ensures GoodHeading(HEADINGS[i]) {
      Printable(HEADINGS[i]);
    }
  }

  lemma FirstHeadingsArePrintable()
    ensures forall i :: 0 <= i < 4 ==>
      IsPrintable(HEADINGS[i]) && HEADINGS[i] != "" && HEADINGS[i][|HEADINGS[i]| - 1] != ' '
  {
  }

  lemma LastHeadingsArePrintable()
    ensures forall i :: 4 <= i < |HEADINGS| ==>
      IsPrintable(HEADINGS[i]) && HEADINGS[i] != "" && HEADINGS[i][|HEADINGS[i]| - 1] != ' '
  {
  }

  lemma HeadingsDiffer()
    ensures forall i, j :: 0 <= i < j < |HEADINGS| ==> HEADINGS[i] != HEADINGS[j]
  {
    assert HEADINGS[1][0] != HEADINGS[5][0];
  }

  lemma NoHash(line: string)
    requires line != "" && line[0] != '#'
    ensures !IsHeadingLine(line)
  {
    assert |line| >= 3 ==> line[..3][0] == line[0];
    assert "## "[0] == '#';
  }

  lemma BodyLinesAreGood(i: nat)
    ensures OneLineEach(BodyLines(i)) && NoHeadings(BodyLines(i))
    ensures i < 3 ==> BodyLines(i) != [] && BodyLines(i)[|BodyLines(i)| - 1] != ""
  {
    BodyLinesHaveNoHash(i);
    BodyLinesAreLines(i);
    hide IsHeadingLine, OneLineEach, BodyLines;
    forall k | 0 <= k < |BodyLines(i)| ensures !IsHeadingLine(BodyLines(i)[k]) {
      NoHash(BodyLines(i)[k]);
    }
  }

  lemma BodyLinesAreLines(i: nat)
    ensures OneLineEach(BodyLines(i))
    ensures i < 3 ==> BodyLines(i) != [] && BodyLines(i)[|BodyLines(i)| - 1] != ""
  {
    TriageLinesAreLines();
    ContractLinesAreLines();
    PlaceholderIsPlain();
    hide OneLine;
  }

  lemma TriageLinesAreLines()
    ensures OneLine(TRIAGE_LINES[0]) && OneLine(TRIAGE_LINES[1]) && OneLine(TRIAGE_LINES[2]) && OneLine(TRIAGE_LINES[3])
  {
    hide OneLine, PlainNewlines, IsSpace;
    Printable(TRIAGE_LINES[0]);
    Printable(TRIAGE_LINES[1]);
    Printable(TRIAGE_LINES[2]);
    Printable(TRIAGE_LINES[3]);
  }

  lemma TextsArePrintable()
    ensures IsPrintable(JSON_FENCE) && IsPrintable(WRITTEN) && IsPrintable(ESCAPED) && IsPrintable(FENCE)
  {
  }

  lemma ContractLinesAreLines()
    ensures OneLine(JSON_FENCE) && OneLine(WRITTEN) && OneLine(FENCE)
  {
    TextsArePrintable();
    hide OneLine, PlainNewlines, IsPrintable, IsSpace;
    Printable(JSON_FENCE);
    Printable(WRITTEN);
    Printable(FENCE);
  }

  lemma BodyLinesHaveNoHash(i: nat)
    ensures forall k :: 0 <= k < |BodyLines(i)| ==> BodyLines(i)[k] != "" && BodyLines(i)[k][0] != '#'
  {
  }

  lemma BodySplits(i: nat)
    ensures SplitLines(JoinLines(BodyLines(i))) == BodyLines(i)
  {
    BodyLinesAreGood(i);
    hide OneLineEach, NoHeadings;
    if i < 3 {
      SplitJoinOpen(BodyLines(i));
    }
  }

  // ---------------------------------------------------------------- the template and the plan

  lemma TemplateSplits()
    ensures Split(Example().template) == Document([], Blank())
  {
    HeadingsAreGood();
    hide GoodHeading, Split, Render;
    var s := Blank();
    assert PlainBodies(s) && CleanBodies(s) && s != [];
    hide PlainBodies, CleanBodies;
    SameSectionsIff([], s);
    RenderThenSplit([], s);
  }

  lemma NothingDiscovered()
    ensures Discovery(PLAN) == ""
  {
    var lines := [JSON_FENCE, ESCAPED, FENCE];
    PlanLines();
    hide SplitLines, JoinLines, HeadingLine;
    SplitJoinOpen(lines);
    var h := HeadingLine("Internal Discovery");
    assert lines[2..][1..] == lines[3..] == [] && lines[1..][1..] == lines[2..];
    assert lines[2..][0] in lines && lines[1..][0] in lines && lines[0] in lines;
    assert CollectFrom(lines[2..], h) == [];
    assert CollectFrom(lines, h) == [];
    NothingJoined();
  }

  lemma NothingJoined()
    ensures BodyText([]) == ""
  {
  }

  lemma PlanLines()
    ensures OneLineEach([JSON_FENCE, ESCAPED, FENCE]) && FENCE != ""
    ensures HeadingLine("Internal Discovery") !in [JSON_FENCE, ESCAPED, FENCE]
    ensures PLAN == JoinLines([JSON_FENCE, ESCAPED, FENCE])
  {
    FirstCharacters();
    TextsArePrintable();
    ContractLinesAreLines();
    hide OneLine, PlainNewlines, IsPrintable, IsSpace, JoinLines;
    Printable(ESCAPED);
  }

  lemma FirstCharacters()
    ensures |HeadingLine("Internal Discovery")| > 0 && HeadingLine("Internal Discovery")[0] == '#'
    ensures |JSON_FENCE| > 0 && |ESCAPED| > 0 && |FENCE| > 0
    ensures JSON_FENCE[0] == '`' && ESCAPED[0] == '{' && FENCE[0] == '`'
  {
  }

  lemma ContractIsRead()
    ensures ExtractContract(Example().parse, PLAN, 0) == Some(FENCED)
  {
    EscapedShape();
    hide NoFence, ExtractContract, PlainNewlines, ContractBody;
    assert Ahead("") by { EmptyHasNoOpening(); }
    ContractBodyShape(ESCAPED);
    FindsWrittenContract(Example().parse, "", ESCAPED, "", FENCED);
    assert PLAN == "" + JSON_FENCE + ("\n" + ESCAPED + "\n" + FENCE + "");
  }

  lemma EscapedShape()
    ensures NoFence(ESCAPED) && GoodJson(ESCAPED)
  {
    TextsArePrintable();
    Printable(ESCAPED);
    assert forall i :: 0 <= i < |ESCAPED| ==> ESCAPED[i] != '`';
    hide MatchesAt, OneLine, PlainNewlines, IsPrintable, IsSpace;
    forall i | 0 <= i < |ESCAPED| ensures !MatchesAt(ESCAPED, i, FENCE) {
      FenceAt(ESCAPED, i);
    }
  }

  lemma WrittenShape()
    ensures GoodJson(WRITTEN) && !NoFence(WRITTEN)
  {
    TextsArePrintable();
    hide MatchesAt, OneLine, PlainNewlines, IsPrintable, IsSpace;
    Printable(WRITTEN);
    FenceAt(WRITTEN, 12);
    assert |WRITTEN| == 17 && WRITTEN[12] == '`' && WRITTEN[13] == '`' && WRITTEN[14] == '`';
    assert MatchesAt(WRITTEN, 12, FENCE);
  }

  lemma WrittenOpensNothing()
    ensures NoOpening(WRITTEN)
  {
    hide OpensJson;
    assert |WRITTEN| == 17 && JSON_FENCE[3] == 'j' && forall i :: 0 <= i < 17 ==> C.LowerChar(WRITTEN[i]) != 'j';
    forall i | 0 <= i < |WRITTEN| ensures !OpensJson(WRITTEN, i) {
      OpeningAt(WRITTEN, i);
      assert i + 7 <= |WRITTEN| ==> C.LowerChar(WRITTEN[i + 3]) != 'j';
    }
  }

  lemma WrittenCannotBeCut()
    ensures RejectsCut(Example().parse, WRITTEN)
  {
    assert |WRITTEN| == 17 && |ESCAPED| == 32;
  }

  // ---------------------------------------------------------------- the rewritten plan

  lemma {:induction false} KeptAll(sections: seq<Section>, keep: seq<string>, overrides: map<string, string>)
    requires forall i :: 0 <= i < |sections| ==> sections[i].heading in keep
    ensures |Kept(sections, keep, overrides)| == |sections|
    ensures forall i :: 0 <= i < |sections| ==>
      var s := sections[i];
      Kept(sections, keep, overrides)[i] ==
        Section(s.heading, if s.heading in overrides then overrides[s.heading] else s.body)
    decreases |sections|
  {
    if sections != [] {
      KeptAll(sections[1..], keep, overrides);
    }
  }

  lemma KeepsHeadings()
    ensures forall i :: 0 <= i < |HEADINGS| ==> HEADINGS[i] in KeepSections(NORMAL)
    ensures forall h :: h in KeepSections(NORMAL) ==> h in HEADINGS
  {
  }

  lemma OverridesAre()
    ensures Overrides(Example(), NORMAL, "") ==
            map[HEADINGS[0] := JoinLines(BodyLines(0)), HEADINGS[4] := "",
                HEADINGS[1] := JoinLines(BodyLines(1)), HEADINGS[2] := JoinLines(BodyLines(2))]
  {
    hide JoinLines, TriageBody, ContractBody;
    OneJoins(PLACEHOLDER);
    TriageIs();
  }

  lemma LookUp(headings: seq<string>, keep: seq<string>, o: map<string, string>, triage: string, contract: string,
               found: string)
    requires |headings| == 8 && forall j, k :: 0 <= j < k < 8 ==> headings[j] != headings[k]
    requires forall i :: 0 <= i < 8 ==> headings[i] in keep
    requires o == map[headings[0] := triage, headings[4] := "", headings[1] := contract, headings[2] := found]
    ensures var k := Kept(EmptySections(headings), keep, o);
      |k| == 8 && forall i :: 0 <= i < 8 ==>
        k[i] == Section(headings[i],
                        if i == 0 then triage else if i == 1 then contract else if i == 2 then found else "")
  {
    hide Kept;
    KeptAll(EmptySections(headings), keep, o);
    forall i | 0 <= i < 8
      ensures (if headings[i] in o then o[headings[i]] else "") ==
              if i == 0 then triage else if i == 1 then contract else if i == 2 then found else ""
    {
      assert i > 0 ==> headings[i] != headings[0];
    }
  }

  lemma LaterBodiesAreEmpty()
    ensures forall i :: i >= 3 ==> JoinLines(BodyLines(i)) == ""
  {
  }

  /** The sections of the rewritten plan. */
  lemma KeptIsFilled()
    ensures KeptFor(Example(), NORMAL, "") == Filled()
  {
    TemplateSplits();
    KeepsHeadings();
    OverridesAre();
    HeadingsDiffer();
    LaterBodiesAreEmpty();
    hide JoinLines, BodyLines, KeepSections, Overrides, Split, Kept, EmptySections;
    LookUp(HEADINGS, KeepSections(NORMAL), Overrides(Example(), NORMAL, ""), JoinLines(BodyLines(0)),
           JoinLines(BodyLines(1)), JoinLines(BodyLines(2)));
  }

  lemma OneJoins(line: string)
    ensures JoinLines([line]) == line && JoinLines([]) == ""
  {
  }

  lemma TriageIs()
    ensures TriageBody(NORMAL) == JoinLines(TRIAGE_LINES) && ContractBody(WRITTEN) == JoinLines(BodyLines(1))
  {
    assert "- t_shirt_size: " + "" == "- t_shirt_size: " && "- risk_level: " + "" == "- risk_level: ";
    assert "- duplicate: " + "false" == "- duplicate: false" && "- reason: " + "```" == "- reason: ```";
    hide JoinLines;
  }

  lemma FilledIsPlain()
    ensures PlainBodies(Filled())
  {
    hide JoinLines, SplitLines, BodyLines, NoHeadings;
    forall i | 0 <= i < |HEADINGS| ensures NoHeadings(SplitLines(Filled()[i].body)) {
      BodySplits(i);
      BodyLinesAreGood(i);
    }
  }

  lemma {:induction false} NoOpeningInSections(sections: seq<Section>)
    requires forall i :: 0 <= i < |sections| ==>
      NoOpening(HeadingLine(sections[i].heading)) && OpeningFree(SplitLines(sections[i].body))
    ensures OpeningFree(SectionsLines(sections))
    decreases |sections|
  {
    hide NoOpening, SplitLines, HeadingLine;
    if sections != [] {
      NoOpeningInSections(sections[1..]);
      EmptyHasNoOpening();
      assert OpeningFree(SectionLines(sections[0]));
    }
  }

  lemma NoOpeningWithoutJ(s: string)
    requires forall i :: 3 <= i < |s| ==> s[i] != 'j' && s[i] != 'J'
    ensures NoOpening(s)
  {
    hide OpensJson;
    assert JSON_FENCE[3] == 'j';
    forall i | 0 <= i < |s| ensures !OpensJson(s, i) {
      OpeningAt(s, i);
      assert i + 7 <= |s| ==> C.LowerChar(s[i + 3]) != 'j';
    }
  }

  lemma FilledOpensOnce()
    ensures forall i :: 0 <= i < |HEADINGS| ==> NoOpening(HeadingLine(Filled()[i].heading))
    ensures forall i :: 0 <= i < |HEADINGS| && i != 1 ==> OpeningFree(SplitLines(Filled()[i].body))
  {
    FirstHeadingsHaveNoJ();
    LastHeadingsHaveNoJ();
    NoBodyLineHasJ();
    hide NoOpening, SplitLines, JoinLines, BodyLines;
    forall i | 0 <= i < |HEADINGS| ensures NoOpening(HeadingLine(Filled()[i].heading)) {
      NoOpeningWithoutJ(HeadingLine(HEADINGS[i]));
    }
    forall i | 0 <= i < |HEADINGS| && i != 1 ensures OpeningFree(SplitLines(Filled()[i].body)) {
      BodySplits(i);
      forall k | 0 <= k < |BodyLines(i)| ensures NoOpening(BodyLines(i)[k]) {
        NoOpeningWithoutJ(BodyLines(i)[k]);
      }
    }
  }

  lemma FirstHeadingsHaveNoJ()
    ensures forall i, k :: 0 <= i < 4 && 0 <= k < |HEADINGS[i]| ==> HEADINGS[i][k] != 'j' && HEADINGS[i][k] != 'J'
  {
  }

  lemma LastHeadingsHaveNoJ()
    ensures forall i, k :: 4 <= i < |HEADINGS| && 0 <= k < |HEADINGS[i]| ==>
      HEADINGS[i][k] != 'j' && HEADINGS[i][k] != 'J'
  {
  }

  lemma NoBodyLineHasJ()
    ensures forall i: nat, k, n :: i != 1 && 0 <= k < |BodyLines(i)| && 0 <= n < |BodyLines(i)[k]| ==>
      BodyLines(i)[k][n] != 'j' && BodyLines(i)[k][n] != 'J'
  {
    assert forall k, n :: 0 <= k < |TRIAGE_LINES| && 0 <= n < |TRIAGE_LINES[k]| ==>
      TRIAGE_LINES[k][n] != 'j' && TRIAGE_LINES[k][n] != 'J';
  }

  lemma ContractIsSecond()
    ensures IndexOf(Filled(), "Strategy Contract") == 1
  {
    HeadingsDiffer();
    hide BodyLines;
  }

  lemma TemplateHasAll()
    ensures AllPresent(Blank(), KeepSections(NORMAL)) && DistinctHeadings(Blank())
  {
    KeepsHeadings();
    HeadingsDiffer();
    hide KeepSections;
    var keep := KeepSections(NORMAL);
    forall k | 0 <= k < |keep| ensures HasHeading(Blank(), keep[k]) {
      assert keep[k] in HEADINGS;
      var i :| 0 <= i < |HEADINGS| && HEADINGS[i] == keep[k];
      assert Blank()[i].heading == keep[k];
    }
  }

  lemma FilledAround()
    ensures |Filled()| == 8
    ensures OpeningFree(SectionsLines(Filled()[..1])) && OpeningFree(SectionsLines(Filled()[2..]))
  {
    FilledOpensOnce();
    hide NoOpening, SplitLines, HeadingLine, OpeningFree, JoinLines, BodyLines;
    NoOpeningInSections(Filled()[..1]);
    NoOpeningInSections(Filled()[2..]);
  }

  lemma ReaderIsFaithful()
    ensures ReaderUndoesWriter(Example(), NORMAL) && Example().render(NORMAL) == WRITTEN
  {
    FencedNormalizes();
    hide C.Rereads, C.Normalize, C.LabelsAgree;
    assert Example().parse(WRITTEN + "\n") == Some(FENCED);
  }

  lemma ExampleIsRewritable()
    ensures Rewritable(Example(), NORMAL, "") && OnlyOpening(Example(), NORMAL, "")
    ensures AllPresent(Split(Example().template).sections, KeepSections(NORMAL))
  {
    TemplateSplits();
    TemplateHasAll();
    KeptIsFilled();
    FilledIsPlain();
    FilledAround();
    ContractIsSecond();
    WrittenShape();
    WrittenOpensNothing();
    ReaderIsFaithful();
    assert PreambleLines([]) == [];
    hide *;
    Assembled(Example(), NORMAL, Blank(), Filled());
  }

  lemma Assembled(x: Context, c: C.Contract, blank: seq<Section>, filled: seq<Section>)
    requires Split(x.template) == Document([], blank) && DistinctHeadings(blank) && KeptFor(x, c, "") == filled
    requires PlainBodies(filled) && GoodJson(x.render(c)) && ReaderUndoesWriter(x, c) && PreambleLines([]) == []
    requires IndexOf(filled, "Strategy Contract") == 1 && |filled| == 8 && NoOpening(x.render(c))
    requires OpeningFree(SectionsLines(filled[..1])) && OpeningFree(SectionsLines(filled[2..]))
    ensures Rewritable(x, c, "") && OnlyOpening(x, c, "")
  {
    hide Split, DistinctHeadings, KeptFor, PlainBodies, GoodJson, ReaderUndoesWriter, PreambleLines, IndexOf,
      NoOpening, OpeningFree, SectionsLines;
    assert [] + SectionsLines(filled[..1]) == SectionsLines(filled[..1]);
  }

  /** The first run writes the contract with its fence; the second finds no contract in what was written. */
  lemma FencedReasonIsLost()
    ensures var first := ApplyStrategy(Example(), PLAN);
      first.Ok? && ApplyStrategy(Example(), first.value) == Err("combined_plan_contract_missing")
  {
    ContractIsRead();
    FencedNormalizes();
    NothingDiscovered();
    ExampleIsRewritable();
    WrittenShape();
    WrittenCannotBeCut();
    hide ExtractContract, C.Normalize, C.LabelsAgree, Rewritable, OnlyOpening, RejectsCut, NoFence, Split, KeepSections,
      AllPresent, Discovery, SectionBody, Overrides, Kept, Render;
    FixedPointIffNoFence(Example(), PLAN, FENCED);
  }
}
