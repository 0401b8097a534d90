/** `apply-strategy`: read the contract from the plan's first JSON block, normalize it, and rewrite the plan with
    the sections it selects. Rewriting is a fixed point. */
module PlanStep {
  import opened Options
  import opened Text
  import opened PlanMarkdown
  import opened PlanNormalForm
  import opened PlanTemplate
  import C = PlanContract

  const FENCE := "```"
  const JSON_FENCE := "```json"
  const PLACEHOLDER := "- No internal discovery results recorded."
  const BASE_SECTIONS := ["Triage", "Strategy Contract", "Internal Discovery"]

  /** What the step does not decide itself: the filled template, the JSON reader (absent for anything that is not
      a contract) and writer, and the rendering of the domain checklists. */
  datatype Context = Context(
    template: string, parse: string -> Option<C.RawContract>, render: C.Contract -> string,
    domainsBody: C.Contract -> string)

  predicate MatchesAt(text: string, i: nat, pattern: string) {
    i + |pattern| <= |text| && text[i..i + |pattern|] == pattern
  }

  /** Where the pattern occurs first at or after i, or the length of the text. */
  function FindFrom(text: string, i: nat, pattern: string): (j: nat)
    requires i <= |text| && pattern != ""
    ensures i <= j <= |text|
    ensures j < |text| ==> MatchesAt(text, j, pattern)
    ensures forall k :: i <= k < j ==> !MatchesAt(text, k, pattern)
    decreases |text| - i
  {
    if i == |text| || MatchesAt(text, i, pattern) then i else FindFrom(text, i + 1, pattern)
  }

  predicate OpensJson(text: string, i: nat) {
    i + 7 <= |text| && C.Lower(text[i..i + 7]) == JSON_FENCE
  }

  /** The first JSON block, in either case, that holds a contract. */
  function ExtractContract(parse: string -> Option<C.RawContract>, text: string, i: nat): Option<C.RawContract>
    requires i <= |text|
    decreases |text| - i
  {
    if i == |text| then None
    else if !OpensJson(text, i) then ExtractContract(parse, text, i + 1)
    else
      var close := FindFrom(text, i + 7, FENCE);
      if close == |text| then ExtractContract(parse, text, i + 1)
      else
        var block := text[i + 7..close];
        var payload := parse(Lstrip(block));
        if payload.Some? then payload else ExtractContract(parse, text, close + 3)
  }

  function TriageBody(c: C.Contract): string {
    JoinLines([
      "- duplicate: " + (if c.triage.duplicate then "true" else "false"),
      "- t_shirt_size: " + c.triage.size,
      "- risk_level: " + c.triage.risk,
      "- reason: " + C.Or(c.triage.reason, c.strategy.reason)])
  }

  function ContractBody(json: string): string {
    JoinLines([JSON_FENCE, json, FENCE])
  }

  function Overrides(x: Context, c: C.Contract, discovery: string): map<string, string> {
    map["Triage" := TriageBody(c),
        "Relevant Domains" := x.domainsBody(c),
        "Strategy Contract" := ContractBody(x.render(c)),
        "Internal Discovery" := C.Or(discovery, PLACEHOLDER)]
  }

  function KeepSections(c: C.Contract): seq<string> {
    BASE_SECTIONS + C.SelectedSections(c.strategy)
  }

  /** The plan after the step, or the error that stops it. A duplicate keeps its plan. */
  function ApplyStrategy(x: Context, plan: string): Result<string> {
    match ExtractContract(x.parse, plan, 0)
    case None => Err("combined_plan_contract_missing")
    case Some(raw) =>
      match C.Normalize(raw)
      case Err(e) => Err(e)
      case Ok(c) =>
        if c.triage.duplicate then Ok(plan)
        else
          RenderSubset(x.template, KeepSections(c), Overrides(x, c, SectionBody(plan, "Internal Discovery")))
  }

  class PlanFile {
    var text: string

    /** Rewrites the plan in place, or leaves it when the step fails. */
    method Apply(x: Context) returns (error: Option<string>)
      modifies this
      ensures match ApplyStrategy(x, old(text))
              case Ok(after) => text == after && error == None
              case Err(e) => text == old(text) && error == Some(e)
    {
      hide ExtractContract, RenderSubset, SectionBody, KeepSections, Overrides;
      var raw := ExtractContract(x.parse, text, 0);
      if raw.None? {
        return Some("combined_plan_contract_missing");
      }
      var normalized := C.Normalize(raw.value);
      if normalized.Err? {
        return Some(normalized.error);
      }
      var contract := normalized.value;
      if contract.triage.duplicate {
        return None;
      }
      var discovery := ExtractSectionBody(text, "Internal Discovery");
      var rewritten := RenderTemplateSubset(x.template, KeepSections(contract), Overrides(x, contract, discovery));
      match rewritten
      case Err(e) => return Some(e);
      case Ok(after) =>
        text := after;
        return None;
    }
  }

  // ---------------------------------------------------------------- finding the contract that was written

  predicate NoFence(s: string) {
    forall i :: 0 <= i < |s| ==> !MatchesAt(s, i, FENCE)
  }

  lemma OpeningAt(s: string, i: nat)
    ensures OpensJson(s, i) <==> i + 7 <= |s| && forall k :: 0 <= k < 7 ==> C.LowerChar(s[i + k]) == JSON_FENCE[k]
  {
    if i + 7 <= |s| {
      var t := s[i..i + 7];
      assert forall k :: 0 <= k < 7 ==> C.Lower(t)[k] == C.LowerChar(s[i + k]);
    }
  }

  /** No JSON block opens in the text. Other code fences are no matter. */
  predicate NoOpening(s: string) {
    forall i :: 0 <= i < |s| ==> !OpensJson(s, i)
  }

  lemma OpensHere(text: string, i: nat)
    requires MatchesAt(text, i, JSON_FENCE)
    ensures OpensJson(text, i)
  {
    assert C.Lower(JSON_FENCE) == JSON_FENCE;
  }

  lemma OpeningShift(a: string, b: string, i: nat)
    requires |a| <= i
    ensures OpensJson(a + b, i) <==> OpensJson(b, i - |a|)
  {
    if i + 7 <= |a + b| {
      assert (a + b)[i..i + 7] == b[i - |a|..i - |a| + 7];
    }
  }

  /** No opening reaches over the end of a line. */
  lemma NoOpeningAcross(a: string, b: string, i: nat)
    requires NoOpening(a) && i <= |a|
    ensures !OpensJson(a + "\n" + b, i)
  {
    var s := a + "\n" + b;
    if i + 7 <= |a| {
      assert s[i..i + 7] == a[i..i + 7] && !OpensJson(a, i);
    } else if i + 7 <= |s| {
      OpeningAt(s, i);
      var k := |a| - i;
      assert s[i + k] == '\n' && JSON_FENCE[k] in JSON_FENCE && '\n' !in JSON_FENCE;
    }
  }

  lemma NoOpeningLines(a: string, b: string)
    requires NoOpening(a) && NoOpening(b)
    ensures NoOpening(a + "\n" + b)
  {
    hide OpensJson;
    var s := a + "\n" + b;
    forall i | 0 <= i < |s| ensures !OpensJson(s, i) {
      if i <= |a| {
        NoOpeningAcross(a, b, i);
      } else {
        OpeningShift(a + "\n", b, i);
      }
    }
  }

  lemma NoOpeningPrefix(s: string, n: nat)
    requires NoOpening(s) && n <= |s|
    ensures NoOpening(s[..n])
  {
    hide OpensJson;
    forall i | 0 <= i < n ensures !OpensJson(s[..n], i) {
      OpeningAt(s[..n], i);
      OpeningAt(s, i);
    }
  }

  lemma EmptyHasNoOpening()
    ensures NoOpening("") && NoOpening(FENCE)
  {
  }

  lemma FenceAt(s: string, i: nat)
    ensures MatchesAt(s, i, FENCE) <==> i + 3 <= |s| && s[i] == '`' && s[i + 1] == '`' && s[i + 2] == '`'
  {
    assert FENCE == ['`', '`', '`'];
    assert i + 3 <= |s| ==> s[i..i + 3] == [s[i], s[i + 1], s[i + 2]];
  }

  /** A text without a fence, ended by a newline, does not complete a fence with what follows. */
  lemma NoFenceAcross(a: string, b: string, i: nat)
    requires NoFence(a) && a != "" && a[|a| - 1] == '\n' && i < |a|
    ensures !MatchesAt(a + b, i, FENCE)
  {
    hide MatchesAt;
    FenceAt(a + b, i);
    FenceAt(a, i);
  }

  lemma {:induction false} SkipToBlock(parse: string -> Option<C.RawContract>, text: string, i: nat, j: nat)
    requires i <= j <= |text|
    requires forall k :: i <= k < j ==> !OpensJson(text, k)
    ensures ExtractContract(parse, text, i) == ExtractContract(parse, text, j)
    decreases j - i
  {
    hide OpensJson, FindFrom;
    if i < j {
      SkipToBlock(parse, text, i + 1, j);
    }
  }

  lemma {:induction false} NothingFrom(parse: string -> Option<C.RawContract>, text: string, i: nat)
    requires i <= |text| && forall k :: i <= k < |text| ==> !OpensJson(text, k)
    ensures ExtractContract(parse, text, i) == None
    decreases |text| - i
  {
    hide OpensJson, FindFrom;
    if i < |text| {
      NothingFrom(parse, text, i + 1);
    }
  }

  ghost predicate NoMatchBetween(text: string, i: nat, j: nat, pattern: string) {
    forall k: nat :: i <= k < j ==> !MatchesAt(text, k, pattern)
  }

  lemma {:induction false} FindFromIs(text: string, i: nat, j: nat, pattern: string)
    requires i <= j < |text| && pattern != "" && MatchesAt(text, j, pattern) && NoMatchBetween(text, i, j, pattern)
    ensures FindFrom(text, i, pattern) == j
  {
    hide MatchesAt;
  }

  lemma MatchAfter(a: string, b: string, c: string)
    ensures MatchesAt(a + b + c, |a|, b)
  {
    assert (a + b + c)[|a|..|a| + |b|] == b;
  }

  lemma MatchShift(a: string, b: string, i: nat, pattern: string)
    requires |a| <= i
    ensures MatchesAt(a + b, i, pattern) <==> MatchesAt(b, i - |a|, pattern)
  {
    if i + |pattern| <= |a + b| {
      assert (a + b)[i..i + |pattern|] == b[i - |a|..i - |a| + |pattern|];
    }
  }

  /** What stands ahead of a block: lines in which none opens. */
  predicate Ahead(before: string) {
    NoOpening(before) && (before != "" ==> before[|before| - 1] == '\n')
  }

  lemma OpenBlock(parse: string -> Option<C.RawContract>, before: string, rest: string)
    requires Ahead(before)
    ensures var text := before + JSON_FENCE + rest;
      ExtractContract(parse, text, 0) == ExtractContract(parse, text, |before|) && OpensJson(text, |before|)
  {
    hide MatchesAt, OpensJson, ExtractContract;
    var text := before + JSON_FENCE + rest;
    if before != "" {
      var a := before[..|before| - 1];
      NoOpeningPrefix(before, |before| - 1);
      assert before == a + "\n";
      assert text == a + "\n" + (JSON_FENCE + rest);
      forall k | 0 <= k < |before| ensures !OpensJson(text, k) {
        NoOpeningAcross(a, JSON_FENCE + rest, k);
      }
    }
    SkipToBlock(parse, text, 0, |before|);
    MatchAfter(before, JSON_FENCE, rest);
    OpensHere(text, |before|);
  }

  lemma NoFenceInside(head: string, body: string, tail: string)
    requires NoFence(body) && body != "" && body[|body| - 1] == '\n'
    ensures NoMatchBetween(head + body + tail, |head|, |head + body|, FENCE)
  {
    hide NoFence, MatchesAt;
    assert head + body + tail == head + (body + tail);
    forall k: nat | |head| <= k < |head + body| ensures !MatchesAt(head + body + tail, k, FENCE) {
      MatchShift(head, body + tail, k, FENCE);
      NoFenceAcross(body, tail, k - |head|);
    }
  }

  lemma CloseBlock(head: string, body: string, after: string)
    requires NoFence(body) && body != "" && body[|body| - 1] == '\n'
    ensures var text := head + body + (FENCE + after);
      FindFrom(text, |head|, FENCE) == |head + body| && text[|head|..|head + body|] == body
  {
    hide *;
    var text, close := head + body + (FENCE + after), |head + body|;
    NoFenceInside(head, body, FENCE + after);
    assert MatchesAt(text, close, FENCE) by {
      MatchAfter(head + body, FENCE, after);
      assert head + body + FENCE + after == text;
    }
    FenceLength();
    FindFromIs(text, |head|, close, FENCE);
  }

  lemma FenceLength()
    ensures |FENCE| == 3 && |JSON_FENCE| == 7
  {
  }

  /** In a text whose first JSON block is that of the written contract, that contract is found. */
  lemma FindsWrittenContract(parse: string -> Option<C.RawContract>, before: string, json: string, after: string,
                             raw: C.RawContract)
    requires Ahead(before) && NoFence(json) && json != "" && !IsSpace(json[0])
    requires parse(json + "\n") == Some(raw)
    ensures ExtractContract(parse, before + JSON_FENCE + ("\n" + json + "\n" + FENCE + after), 0) == Some(raw)
  {
    hide NoFence, Ahead, FindFrom, MatchesAt, OpensJson, ExtractContract, Lstrip;
    var body := "\n" + json + "\n";
    var head := before + JSON_FENCE;
    var text := head + body + (FENCE + after);
    assert text == before + JSON_FENCE + (body + FENCE + after);
    OpenBlock(parse, before, body + FENCE + after);
    BodyHasNoFence(json);
    CloseBlock(head, body, after);
    LstripBlock(json);
    assert |head| == |before| + 7;
    BlockAt(parse, text, |before|, |head + body|, raw);
  }

  lemma LstripBlock(json: string)
    requires json != "" && !IsSpace(json[0])
    ensures Lstrip("\n" + json + "\n") == json + "\n"
  {
    assert "\n" + json + "\n" == "\n" + (json + "\n");
    LstripSpaces("\n", json + "\n");
  }

  lemma BlockAt(parse: string -> Option<C.RawContract>, text: string, j: nat, close: nat, raw: C.RawContract)
    requires OpensJson(text, j) && j + 7 <= close < |text| && FindFrom(text, j + 7, FENCE) == close
    requires parse(Lstrip(text[j + 7..close])) == Some(raw)
    ensures ExtractContract(parse, text, j) == Some(raw)
  {
    hide Lstrip, OpensJson, FindFrom;
  }

  lemma BodyHasNoFence(json: string)
    requires NoFence(json)
    ensures NoFence("\n" + json + "\n")
  {
    hide MatchesAt;
    var body := "\n" + json + "\n";
    forall i | 0 <= i < |body| ensures !MatchesAt(body, i, FENCE) {
      FenceAt(body, i);
      if 0 < i <= |json| {
        FenceAt(json, i - 1);
      }
    }
  }

  // ---------------------------------------------------------------- where the contract sits in the rewritten plan

  ghost predicate OpeningFree(lines: seq<string>) {
    forall i :: 0 <= i < |lines| ==> NoOpening(lines[i])
  }

  lemma {:induction false} OpeningFreeText(lines: seq<string>)
    requires OpeningFree(lines)
    ensures NoOpening(JoinLines(lines)) && Ahead(JoinLines(lines) + "\n")
    decreases |lines|
  {
    hide NoOpening;
    EmptyHasNoOpening();
    if lines == [] {
    } else if |lines| == 1 {
      assert NoOpening(lines[0]);
    } else {
      OpeningFreeText(lines[1..]);
      NoOpeningLines(lines[0], JoinLines(lines[1..]));
    }
    NoOpeningLines(JoinLines(lines), "");
    assert JoinLines(lines) + "\n" + "" == JoinLines(lines) + "\n";
  }

  /** JSON as the writer produces it: plain newlines, no whitespace at its start. */
  predicate GoodJson(json: string) {
    PlainNewlines(json) && json != "" && !IsSpace(json[0])
  }

  lemma ContractBodyShape(json: string)
    requires GoodJson(json)
    ensures var body := ContractBody(json);
      && body == JSON_FENCE + ("\n" + json + "\n" + FENCE)
      && body != "" && !IsSpace(body[|body| - 1])
      && SplitLines(body) != [] && JoinLines(SplitLines(body)) == body
  {
    hide SplitLines;
    var body := ContractBody(json);
    assert [JSON_FENCE, json, FENCE] == [JSON_FENCE] + ([json] + [FENCE]);
    JoinCons(JSON_FENCE, [json] + [FENCE]);
    JoinCons(json, [FENCE]);
    assert body == JSON_FENCE + ("\n" + json + "\n" + FENCE);
    assert FENCE == ['`', '`', '`'];
    assert body[|body| - 1] == '`';
    assert PlainNewlines(JSON_FENCE) && PlainNewlines(FENCE);
    JoinSplit(body);
  }

  /** The written text starts with the lines before the contract's body and that body. */
  lemma TextAroundBody(front: seq<string>, body: seq<string>, back: seq<string>) returns (after: string)
    requires front != [] && body != [] && JoinLines(body) != ""
    requires !IsSpace(JoinLines(body)[|JoinLines(body)| - 1])
    ensures FileText(front + body + back) == JoinLines(front) + "\n" + JoinLines(body) + after
    ensures after == "\n" || after == Rstrip("\n" + JoinLines(back)) + "\n"
  {
    hide JoinLines, Rstrip;
    var head := JoinLines(front) + "\n" + JoinLines(body);
    JoinAppend(front, body);
    assert Rstrip(head) == head by { SolidEndStays(JoinLines(front) + "\n", JoinLines(body)); }
    if back == [] {
      assert front + body + back == front + body;
      after := "\n";
    } else {
      JoinAppend(front + body, back);
      var tail := "\n" + JoinLines(back);
      assert JoinLines(front + body + back) == head + tail;
      RstripAppend(head, tail);
      if AllSpace(tail) {
        after := "\n";
      } else {
        after := Rstrip(tail) + "\n";
      }
    }
  }

  lemma SolidEndStays(a: string, b: string)
    requires b != "" && !IsSpace(b[|b| - 1])
    ensures Rstrip(a + b) == a + b
  {
    assert (a + b)[|a + b| - 1] == b[|b| - 1];
  }

  function IndexOf(sections: seq<Section>, heading: string): (i: nat)
    ensures i <= |sections|
    ensures i < |sections| ==> sections[i].heading == heading
    ensures forall k :: 0 <= k < i ==> sections[k].heading != heading
  {
    if sections == [] || sections[0].heading == heading then 0 else 1 + IndexOf(sections[1..], heading)
  }

  lemma {:induction false} SectionsLinesAppend(a: seq<Section>, b: seq<Section>)
    ensures SectionsLines(a + b) == SectionsLines(a) + SectionsLines(b)
    decreases |a|
  {
    hide SectionLines;
    if a == [] {
      assert a + b == b;
    } else {
      assert (a + b)[1..] == a[1..] + b;
      SectionsLinesAppend(a[1..], b);
    }
  }

  /** The lines of a document up to the body of section i, and from its end on. */
  function LinesBefore(preamble: seq<string>, sections: seq<Section>, i: nat): seq<string>
    requires i < |sections|
  {
    PreambleLines(preamble) + SectionsLines(sections[..i]) + [HeadingLine(sections[i].heading), ""]
  }

  lemma SplitAtBody(preamble: seq<string>, sections: seq<Section>, i: nat)
    requires i < |sections|
    ensures RenderLines(preamble, sections) ==
      LinesBefore(preamble, sections, i) + SplitLines(sections[i].body) + ([""] + SectionsLines(sections[i + 1..]))
  {
    hide PreambleLines, HeadingLine, SplitLines;
    var a, b := sections[..i], sections[i..];
    assert sections == a + b && b[1..] == sections[i + 1..];
    SectionsLinesAppend(a, b);
    assert SectionsLines(b) == SectionLines(sections[i]) + SectionsLines(sections[i + 1..]);
    hide SectionsLines;
    Regroup(PreambleLines(preamble), SectionsLines(a), [HeadingLine(sections[i].heading), ""],
            SplitLines(sections[i].body), [""], SectionsLines(sections[i + 1..]));
  }

  lemma Regroup<T>(a: seq<T>, b: seq<T>, c: seq<T>, d: seq<T>, e: seq<T>, f: seq<T>)
    ensures a + (b + (c + d + e + f)) == a + b + c + d + (e + f)
  {
  }

  /** The written text around the opening of its contract. */
  lemma WrittenText(preamble: seq<string>, sections: seq<Section>, i: nat, json: string)
    returns (before: string, after: string)
    requires i < |sections| && sections[i].body == ContractBody(json) && GoodJson(json)
    requires OpeningFree(LinesBefore(preamble, sections, i))
    ensures Ahead(before)
    ensures Render(preamble, sections) == before + JSON_FENCE + ("\n" + json + "\n" + FENCE + after)
    ensures after == "\n" || after == Rstrip("\n" + JoinLines([""] + SectionsLines(sections[i + 1..]))) + "\n"
  {
    hide OpeningFree, Ahead, SplitLines, JoinLines, FileText, RenderLines, ContractBody, PlainNewlines;
    ContractBodyShape(json);
    SplitAtBody(preamble, sections, i);
    var front, body := LinesBefore(preamble, sections, i), SplitLines(ContractBody(json));
    OpeningFreeText(front);
    after := TextAroundBody(front, body, [""] + SectionsLines(sections[i + 1..]));
    before := JoinLines(front) + "\n";
    var inner := "\n" + json + "\n" + FENCE;
    assert before + (JSON_FENCE + inner) + after == before + JSON_FENCE + (inner + after);
    assert inner + after == "\n" + json + "\n" + FENCE + after;
  }

  /** A rewritten plan yields exactly what the writer wrote into its contract section. */
  lemma WrittenContractIsFound(parse: string -> Option<C.RawContract>, preamble: seq<string>, sections: seq<Section>,
                               i: nat, json: string, raw: C.RawContract)
    requires i < |sections| && sections[i].body == ContractBody(json)
    requires GoodJson(json) && NoFence(json) && parse(json + "\n") == Some(raw)
    requires OpeningFree(LinesBefore(preamble, sections, i))
    ensures ExtractContract(parse, Render(preamble, sections), 0) == Some(raw)
  {
    hide NoFence, Ahead, ExtractContract, Render;
    var before, after := WrittenText(preamble, sections, i, json);
    FindsWrittenContract(parse, before, json, after, raw);
  }

  // ---------------------------------------------------------------- the fixed point

  function Discovery(plan: string): string {
    SectionBody(plan, "Internal Discovery")
  }

  function KeptFor(x: Context, c: C.Contract, discovery: string): seq<Section> {
    Kept(Split(x.template).sections, KeepSections(c), Overrides(x, c, discovery))
  }

  /** The reader undoes the writer on this contract. */
  ghost predicate ReaderUndoesWriter(x: Context, c: C.Contract) {
    exists again :: x.parse(x.render(c) + "\n") == Some(again) && C.Rereads(again, c)
  }

  /** What a rewritten plan needs to be read again. The template's headings differ; no kept body, override or
      discovery has a heading line; no JSON block opens before the contract's. */
  ghost predicate Rewritable(x: Context, c: C.Contract, discovery: string) {
    var sections := KeptFor(x, c, discovery);
    && DistinctHeadings(Split(x.template).sections)
    && PlainBodies(sections)
    && GoodJson(x.render(c)) && ReaderUndoesWriter(x, c)
    && OpeningFree(PreambleLines(Split(x.template).preamble) +
                   SectionsLines(sections[..IndexOf(sections, "Strategy Contract")]))
  }

  lemma {:induction false} CollectedArePlain(lines: seq<string>, headingLine: string)
    requires OneLineEach(lines)
    ensures NoHeadings(Collect(lines, headingLine)) && OneLineEach(Collect(lines, headingLine))
    ensures NoHeadings(CollectFrom(lines, headingLine)) && OneLineEach(CollectFrom(lines, headingLine))
    decreases |lines|
  {
    hide IsHeadingLine, OneLine;
    if lines != [] {
      CollectedArePlain(lines[1..], headingLine);
    }
  }

  lemma DiscoveryIsCanonical(plan: string)
    ensures Canonical(C.Or(Discovery(plan), PLACEHOLDER)) == C.Or(Discovery(plan), PLACEHOLDER) != ""
  {
    hide IsHeadingLine, OneLine, BodyText, SplitLines, CollectFrom, HeadingLine;
    CollectedArePlain(SplitLines(plan), HeadingLine("Internal Discovery"));
    PlainLinesShow(CollectFrom(SplitLines(plan), HeadingLine("Internal Discovery")));
    SplitBody(Discovery(plan));
    PlaceholderIsCanonical();
  }

  lemma PlaceholderIsPlain()
    ensures PLACEHOLDER != "" && OneLine(PLACEHOLDER) && Trimmed(PLACEHOLDER)
  {
    assert IsPrintable(PLACEHOLDER);
    hide OneLine, Trimmed, IsPrintable;
    PrintableIsPlain(PLACEHOLDER);
  }

  lemma PlaceholderIsCanonical()
    ensures PLACEHOLDER != "" && Canonical(PLACEHOLDER) == PLACEHOLDER
  {
    PlaceholderIsPlain();
    hide *;
    OneLineIsCanonical(PLACEHOLDER);
  }

  lemma OneLineIsCanonical(s: string)
    requires s != "" && OneLine(s) && Trimmed(s)
    ensures Canonical(s) == s
  {
    hide OneLine, Strip;
    TrimmedStrip(s);
    LineLengthOf(s, "");
    assert s + "" == s && s[..|s|] == s;
    assert SplitLines(s) == [s];
  }

  lemma {:induction false} KeptDistinct(sections: seq<Section>, keep: seq<string>, overrides: map<string, string>)
    requires DistinctHeadings(sections)
    ensures DistinctHeadings(Kept(sections, keep, overrides))
    decreases |sections|
  {
    if sections != [] {
      var rest := sections[1..];
      assert forall i :: 0 <= i < |rest| ==> rest[i] == sections[i + 1];
      KeptDistinct(rest, keep, overrides);
      var more := Kept(rest, keep, overrides);
      forall i | 0 <= i < |more| ensures more[i].heading != sections[0].heading {
        KeptRequested(rest, keep, overrides, more[i].heading);
        assert HasHeading(more, more[i].heading);
        var k :| 0 <= k < |rest| && rest[k].heading == more[i].heading;
      }
    }
  }

  lemma {:induction false} BodyUnderAt(sections: seq<Section>, heading: string)
    requires HasHeading(sections, heading)
    ensures var i := IndexOf(sections, heading);
      i < |sections| && BodyUnder(CanonicalSections(sections), heading) == Canonical(sections[i].body)
    decreases |sections|
  {
    hide Canonical;
    if sections[0].heading != heading {
      var k :| 0 <= k < |sections| && sections[k].heading == heading;
      assert sections[1..][k - 1] == sections[k];
      assert HasHeading(sections[1..], heading);
      BodyUnderAt(sections[1..], heading);
      assert CanonicalSections(sections)[1..] == CanonicalSections(sections[1..]);
    }
  }

  lemma KeptOverride(x: Context, c: C.Contract, discovery: string, heading: string)
    requires heading in BASE_SECTIONS && heading in Overrides(x, c, discovery)
    requires AllPresent(Split(x.template).sections, KeepSections(c))
    ensures var sections := KeptFor(x, c, discovery);
      var i := IndexOf(sections, heading);
      && HasHeading(sections, heading)
      && i < |sections| && sections[i].body == Overrides(x, c, discovery)[heading]
  {
    hide Split, Overrides, HasHeading, Kept;
    var all, keep, overrides := Split(x.template).sections, KeepSections(c), Overrides(x, c, discovery);
    var k :| 0 <= k < |BASE_SECTIONS| && BASE_SECTIONS[k] == heading;
    assert keep[k] == heading;
    KeptRequested(all, keep, overrides, heading);
    KeptBodies(all, keep, overrides);
    var sections := Kept(all, keep, overrides);
    IndexFound(sections, heading);
    assert AsRequested(sections[IndexOf(sections, heading)], keep, overrides);
  }

  lemma IndexFound(sections: seq<Section>, heading: string)
    requires HasHeading(sections, heading)
    ensures IndexOf(sections, heading) < |sections|
  {
  }

  lemma NoBlankKept(c: C.Contract)
    ensures "" !in KeepSections(c)
  {
  }

  lemma DiscoveryReadsBack(x: Context, c: C.Contract, plan: string)
    requires Rewritable(x, c, Discovery(plan)) && AllPresent(Split(x.template).sections, KeepSections(c))
    ensures var after := Render(Split(x.template).preamble, KeptFor(x, c, Discovery(plan)));
      Discovery(after) == C.Or(Discovery(plan), PLACEHOLDER)
  {
    var sections := KeptFor(x, c, Discovery(plan));
    hide Split, Overrides, HasHeading, Kept, PlainBodies, GoodJson, ReaderUndoesWriter, OpeningFree, DistinctHeadings,
      Render, KeepSections, Canonical, SectionBody, OneLineEach, NoHeadings, FromSplit, GoodHeadings, AllPresent;
    SplitFacts(x.template);
    NoBlankKept(c);
    KeptGoodHeadings(Split(x.template).sections, KeepSections(c), Overrides(x, c, Discovery(plan)));
    KeptDistinct(Split(x.template).sections, KeepSections(c), Overrides(x, c, Discovery(plan)));
    OverrideKeys(x, c, Discovery(plan));
    KeptOverride(x, c, Discovery(plan), "Internal Discovery");
    RenderedBodyReadsBack(Split(x.template).preamble, sections, "Internal Discovery");
    BodyUnderAt(sections, "Internal Discovery");
    DiscoveryIsCanonical(plan);
  }

  lemma OverrideKeys(x: Context, c: C.Contract, discovery: string)
    ensures var o := Overrides(x, c, discovery);
      && "Internal Discovery" in o && o["Internal Discovery"] == C.Or(discovery, PLACEHOLDER)
      && "Strategy Contract" in o && o["Strategy Contract"] == ContractBody(x.render(c))
    ensures "Internal Discovery" in BASE_SECTIONS && "Strategy Contract" in BASE_SECTIONS
  {
    hide TriageBody, ContractBody;
    assert BASE_SECTIONS[1] == "Strategy Contract" && BASE_SECTIONS[2] == "Internal Discovery";
  }

  lemma ContractReadsBack(x: Context, c: C.Contract, discovery: string, again: C.RawContract)
    requires Rewritable(x, c, discovery) && AllPresent(Split(x.template).sections, KeepSections(c))
    requires NoFence(x.render(c))
    requires x.parse(x.render(c) + "\n") == Some(again)
    ensures ExtractContract(x.parse, Render(Split(x.template).preamble, KeptFor(x, c, discovery)), 0) == Some(again)
  {
    var sections := KeptFor(x, c, discovery);
    hide Split, Overrides, HasHeading, KeptFor, PlainBodies, GoodJson, ReaderUndoesWriter, DistinctHeadings, NoFence,
      OpeningFree, Render, KeepSections, ExtractContract, AllPresent, PreambleLines, SectionsLines, HeadingLine;
    OverrideKeys(x, c, discovery);
    KeptOverride(x, c, discovery, "Strategy Contract");
    var i := IndexOf(sections, "Strategy Contract");
    var preamble := Split(x.template).preamble;
    ContractLinesBefore(preamble, sections, i);
    WrittenContractIsFound(x.parse, preamble, sections, i, x.render(c), again);
  }

  lemma ContractLinesBefore(preamble: seq<string>, sections: seq<Section>, i: nat)
    requires i < |sections| && sections[i].heading == "Strategy Contract"
    requires OpeningFree(PreambleLines(preamble) + SectionsLines(sections[..i]))
    ensures OpeningFree(LinesBefore(preamble, sections, i))
  {
    hide NoOpening, PreambleLines, SectionsLines;
    EmptyHasNoOpening();
    HeadingHasNoOpening();
  }

  lemma HeadingHasNoOpening()
    ensures NoOpening(HeadingLine("Strategy Contract"))
  {
    var line := HeadingLine("Strategy Contract");
    assert forall i :: 0 <= i < |line| ==> line[i] != '`';
    hide OpensJson;
    forall i | 0 <= i < |line| ensures !OpensJson(line, i) {
      OpeningAt(line, i);
      assert JSON_FENCE[0] == '`';
    }
  }

  /** Applying the strategy to a plan it has rewritten writes the same plan again, and the discovery section reads
      back as it was (or as the placeholder that stands for none). The two overall risk labels of the contract
      must agree, which `NormalizationIsStableIff` shows to be exactly what a stable contract needs. */
  lemma RewriteIsFixedPoint(x: Context, plan: string, raw: C.RawContract)
    requires ExtractContract(x.parse, plan, 0) == Some(raw) && C.Normalize(raw).Ok? && C.LabelsAgree(raw)
    requires var c := C.Normalize(raw).value;
      !c.triage.duplicate ==> Rewritable(x, c, Discovery(plan)) && NoFence(x.render(c))
    requires ApplyStrategy(x, plan).Ok?
    ensures var after := ApplyStrategy(x, plan).value;
      && ApplyStrategy(x, after) == Ok(after)
      && (!C.Normalize(raw).value.triage.duplicate ==> Discovery(after) == C.Or(Discovery(plan), PLACEHOLDER))
  {
    var c := C.Normalize(raw).value;
    if !c.triage.duplicate {
      hide ExtractContract, Split, Overrides, KeepSections, Render, C.Normalize, C.LabelsAgree, SectionBody, Kept,
        AllPresent, PlainBodies, GoodJson, OpeningFree, NoFence, DistinctHeadings, C.Rereads;
      var after := Render(Split(x.template).preamble, KeptFor(x, c, Discovery(plan)));
      assert ApplyStrategy(x, plan) == Ok(after);
      var again :| x.parse(x.render(c) + "\n") == Some(again) && C.Rereads(again, c);
      C.NormalizationIsStableIff(raw, again);
      ContractReadsBack(x, c, Discovery(plan), again);
      DiscoveryReadsBack(x, c, plan);
      DiscoveryIsCanonical(plan);
      SameOverrides(x, c, Discovery(plan), Discovery(after));
    }
  }

  lemma SameOverrides(x: Context, c: C.Contract, discovery: string, again: string)
    requires again == C.Or(discovery, PLACEHOLDER)
    ensures Overrides(x, c, again) == Overrides(x, c, discovery)
  {
    hide TriageBody, ContractBody;
    assert PLACEHOLDER != "";
  }

  // ---------------------------------------------------------------- a contract with a fence in it

  /** The reader takes no beginning of the text for a contract: cut short, it is not a JSON object. */
  ghost predicate RejectsCut(parse: string -> Option<C.RawContract>, json: string) {
    forall k :: 0 <= k < |json| ==> parse(json[..k]).None?
  }

  lemma BlockRejected(parse: string -> Option<C.RawContract>, text: string, j: nat, close: nat)
    requires OpensJson(text, j) && j + 7 <= close < |text| && FindFrom(text, j + 7, FENCE) == close
    requires parse(Lstrip(text[j + 7..close])) == None
    ensures close + 3 <= |text| && ExtractContract(parse, text, j) == ExtractContract(parse, text, close + 3)
  {
    hide Lstrip, OpensJson;
  }

  /** The block of such a contract ends at the fence inside. */
  lemma CutBlock(head: string, json: string, rest: string) returns (k: nat)
    requires json != "" && !IsSpace(json[0]) && !NoFence(json)
    ensures var text := head + ("\n" + json + "\n" + rest);
      && k < |json| && |head| + 1 + k < |text|
      && FindFrom(text, |head|, FENCE) == |head| + 1 + k
      && Lstrip(text[|head|..|head| + 1 + k]) == json[..k]
  {
    hide FindFrom, Lstrip, MatchesAt;
    k := FindFrom(json, 0, FENCE);
    var text, close := head + ("\n" + json + "\n" + rest), |head| + 1 + k;
    FenceLength();
    FenceAt(json, k);
    FenceAt(text, close);
    forall i: nat | |head| <= i < close ensures !MatchesAt(text, i, FENCE) {
      FenceAt(text, i);
      if i > |head| {
        FenceAt(json, i - |head| - 1);
      }
    }
    FindFromIs(text, |head|, close, FENCE);
    assert text[|head|..close] == "\n" + json[..k];
    LstripSpaces("\n", json[..k]);
    TrimStartOf(json, k);
  }

  lemma TrimStartOf(json: string, k: nat)
    requires json != "" && !IsSpace(json[0]) && k <= |json|
    ensures Lstrip(json[..k]) == json[..k]
  {
  }

  lemma LostAtFence(parse: string -> Option<C.RawContract>, before: string, json: string, rest: string)
    requires Ahead(before) && json != "" && !IsSpace(json[0])
    requires !NoFence(json) && RejectsCut(parse, json) && NoOpening(json) && NoOpening(rest)
    ensures ExtractContract(parse, before + JSON_FENCE + ("\n" + json + "\n" + rest), 0) == None
  {
    hide NoFence, Ahead, NoOpening, FindFrom, OpensJson, ExtractContract, Lstrip;
    var head, inner := before + JSON_FENCE, "\n" + json + "\n" + rest;
    FenceLength();
    OpenBlock(parse, before, inner);
    var k := CutBlock(head, json, rest);
    BlockRejected(parse, head + inner, |before|, |head| + 1 + k);
    EmptyHasNoOpening();
    NoOpeningLines("", json);
    assert "" + "\n" + json == "\n" + json;
    NoOpeningLines("\n" + json, rest);
    NoneOpensAfter(head, inner);
    NothingFrom(parse, head + inner, |head| + 1 + k + 3);
  }

  lemma NoneOpensAfter(head: string, inner: string)
    requires NoOpening(inner)
    ensures forall p :: |head| <= p < |head + inner| ==> !OpensJson(head + inner, p)
  {
    hide OpensJson;
    forall p | |head| <= p < |head + inner| ensures !OpensJson(head + inner, p) {
      OpeningShift(head, inner, p);
    }
  }

  /** No JSON block opens inside the contract's text or after it. */
  ghost predicate OnlyOpening(x: Context, c: C.Contract, discovery: string) {
    var sections := KeptFor(x, c, discovery);
    var i := IndexOf(sections, "Strategy Contract");
    NoOpening(x.render(c)) && i < |sections| && OpeningFree(SectionsLines(sections[i + 1..]))
  }

  lemma NoneOpensBehind(back: seq<string>, after: string)
    requires OpeningFree(back)
    requires after == "\n" || after == Rstrip("\n" + JoinLines([""] + back)) + "\n"
    ensures NoOpening(FENCE + after)
  {
    hide NoOpening, JoinLines, Rstrip;
    EmptyHasNoOpening();
    NoOpeningLines(FENCE, "");
    assert FENCE + "\n" + "" == FENCE + "\n";
    if after != "\n" {
      assert OpeningFree([""] + back);
      OpeningFreeText([""] + back);
      var lines := JoinLines([""] + back);
      NoOpeningLines(FENCE, lines);
      var s := FENCE + ("\n" + lines);
      assert FENCE + "\n" + lines == s;
      RstripFacts("\n" + lines);
      var kept := Rstrip("\n" + lines);
      NoOpeningPrefix(s, 3 + |kept|);
      assert s[..3 + |kept|] == FENCE + kept;
      NoOpeningLines(FENCE + kept, "");
      assert FENCE + kept + "\n" + "" == FENCE + after;
    }
  }

  /** A written contract that has a fence in it is lost: no later run finds a contract in the plan. */
  lemma FencedContractIsLost(x: Context, c: C.Contract, discovery: string)
    requires Rewritable(x, c, discovery) && AllPresent(Split(x.template).sections, KeepSections(c))
    requires OnlyOpening(x, c, discovery) && RejectsCut(x.parse, x.render(c)) && !NoFence(x.render(c))
    ensures ExtractContract(x.parse, Render(Split(x.template).preamble, KeptFor(x, c, discovery)), 0) == None
  {
    var sections := KeptFor(x, c, discovery);
    hide Split, Overrides, HasHeading, KeptFor, PlainBodies, GoodJson, ReaderUndoesWriter, DistinctHeadings, NoFence,
      OpeningFree, NoOpening, Ahead, Render, KeepSections, ExtractContract, AllPresent, PreambleLines, SectionsLines,
      RejectsCut, Rstrip, JoinLines;
    OverrideKeys(x, c, discovery);
    KeptOverride(x, c, discovery, "Strategy Contract");
    var i := IndexOf(sections, "Strategy Contract");
    var preamble, json := Split(x.template).preamble, x.render(c);
    ContractLinesBefore(preamble, sections, i);
    var before, after := WrittenText(preamble, sections, i, json);
    NoneOpensBehind(SectionsLines(sections[i + 1..]), after);
    GoodJsonStarts(json);
    assert "\n" + json + "\n" + FENCE + after == "\n" + json + "\n" + (FENCE + after);
    LostAtFence(x.parse, before, json, FENCE + after);
  }

  lemma GoodJsonStarts(json: string)
    requires GoodJson(json)
    ensures json != "" && !IsSpace(json[0])
  {
  }

  /** Where the contract's block is the only one and the reader rejects truncated JSON, rewriting is a fixed point
      exactly if the written contract has no code fence in it. Otherwise the second run finds no contract. */
  lemma FixedPointIffNoFence(x: Context, plan: string, raw: C.RawContract)
    requires ExtractContract(x.parse, plan, 0) == Some(raw) && C.Normalize(raw).Ok? && C.LabelsAgree(raw)
    requires var c := C.Normalize(raw).value;
      && !c.triage.duplicate && Rewritable(x, c, Discovery(plan))
      && OnlyOpening(x, c, Discovery(plan)) && RejectsCut(x.parse, x.render(c))
    requires ApplyStrategy(x, plan).Ok?
    ensures var after := ApplyStrategy(x, plan).value;
      var json := x.render(C.Normalize(raw).value);
      && (ApplyStrategy(x, after) == Ok(after) <==> NoFence(json))
      && (!NoFence(json) ==> ApplyStrategy(x, after) == Err("combined_plan_contract_missing"))
  {
    var c := C.Normalize(raw).value;
    hide ExtractContract, Split, Overrides, KeepSections, Render, C.Normalize, C.LabelsAgree, SectionBody, Kept,
      AllPresent, Rewritable, OnlyOpening, RejectsCut, NoFence;
    if NoFence(x.render(c)) {
      RewriteIsFixedPoint(x, plan, raw);
    } else {
      FencedContractIsLost(x, c, Discovery(plan));
    }
  }

  // ---------------------------------------------------------------- which sections the plan gets

  /** The optional sections stand in the rewritten plan exactly for their flags; the others always, and nothing else. */
  lemma SectionsFollowFlags(x: Context, plan: string, raw: C.RawContract, h: string)
    requires ExtractContract(x.parse, plan, 0) == Some(raw) && C.Normalize(raw).Ok? && ApplyStrategy(x, plan).Ok?
    requires var c := C.Normalize(raw).value; !c.triage.duplicate && PlainBodies(KeptFor(x, c, Discovery(plan)))
    ensures var strategy := C.Normalize(raw).value.strategy;
      HasHeading(Split(ApplyStrategy(x, plan).value).sections, h) <==>
        || h in {"Triage", "Strategy Contract", "Internal Discovery", "Summary", "Relevant Domains",
                 "Internal Research", "Design Slices", "Plan Completion Summary"}
        || (h == "External Research" && strategy.externalResearch)
        || (h == "Architecture Strategy" && (strategy.architectureStrategy || strategy.architectureDiagram))
        || (h == "Architecture Diagram" && strategy.architectureDiagram)
        || (h == "Expanded Design Notes" && strategy.expandedNotes)
  {
    var c := C.Normalize(raw).value;
    hide ExtractContract, C.Normalize, Split, RenderSubset, Overrides, Kept, HasHeading, PlainBodies, SectionBody;
    NoBlankKept(c);
    SubsetReadsBack(x.template, KeepSections(c), Overrides(x, c, Discovery(plan)));
    KeptAre(c, h);
  }

  lemma KeptAre(c: C.Contract, h: string)
    ensures h in KeepSections(c) <==>
      || h in {"Triage", "Strategy Contract", "Internal Discovery", "Summary", "Relevant Domains",
               "Internal Research", "Design Slices", "Plan Completion Summary"}
      || (h == "External Research" && c.strategy.externalResearch)
      || (h == "Architecture Strategy" && (c.strategy.architectureStrategy || c.strategy.architectureDiagram))
      || (h == "Architecture Diagram" && c.strategy.architectureDiagram)
      || (h == "Expanded Design Notes" && c.strategy.expandedNotes)
  {
  }

  lemma OverriddenBodies(x: Context, c: C.Contract, discovery: string)
    requires !c.triage.duplicate
    ensures Overrides(x, c, discovery) ==
      map["Triage" := JoinLines([
            "- duplicate: false", "- t_shirt_size: " + c.triage.size, "- risk_level: " + c.triage.risk,
            "- reason: " + (if c.triage.reason != "" then c.triage.reason else c.strategy.reason)]),
          "Relevant Domains" := x.domainsBody(c),
          "Strategy Contract" := JoinLines(["```json", x.render(c), "```"]),
          "Internal Discovery" := if discovery != "" then discovery else "- No internal discovery results recorded."]
  {
    hide JoinLines;
    assert "- duplicate: " + "false" == "- duplicate: false";
  }

  /** What stands in the sections of the rewritten plan: the triage, the domain checklists, the contract and the
      discovery of the plan before, and in every other section what the template has there. */
  lemma RewrittenBodies(x: Context, plan: string, raw: C.RawContract, i: nat)
    requires ExtractContract(x.parse, plan, 0) == Some(raw) && C.Normalize(raw).Ok? && ApplyStrategy(x, plan).Ok?
    requires var c := C.Normalize(raw).value; !c.triage.duplicate && PlainBodies(KeptFor(x, c, Discovery(plan)))
    requires i < |Split(ApplyStrategy(x, plan).value).sections|
    ensures var c, s := C.Normalize(raw).value, Split(ApplyStrategy(x, plan).value).sections[i];
      if s.heading == "Triage" then
        s.body == Canonical(JoinLines([
          "- duplicate: false", "- t_shirt_size: " + c.triage.size, "- risk_level: " + c.triage.risk,
          "- reason: " + (if c.triage.reason != "" then c.triage.reason else c.strategy.reason)]))
      else if s.heading == "Relevant Domains" then s.body == Canonical(x.domainsBody(c))
      else if s.heading == "Strategy Contract" then s.body == Canonical(JoinLines(["```json", x.render(c), "```"]))
      else if s.heading == "Internal Discovery" then
        s.body == if Discovery(plan) != "" then Discovery(plan) else "- No internal discovery results recorded."
      else exists t :: t in Split(x.template).sections && t.heading == s.heading && s.body == Canonical(t.body)
  {
    hide *;
    var c := C.Normalize(raw).value;
    var overrides := Overrides(x, c, Discovery(plan));
    OverriddenBodies(x, c, Discovery(plan));
    DiscoveryBody(plan);
    RewriteIs(x, plan, raw);
    NoBlankKept(c);
    KeptForIs(x, c, Discovery(plan));
    BodiesReadBack(x.template, KeepSections(c), overrides, i);
  }

  lemma DiscoveryBody(plan: string)
    ensures var d := if Discovery(plan) != "" then Discovery(plan) else "- No internal discovery results recorded.";
      Canonical(d) == d
  {
    hide Discovery, Canonical;
    DiscoveryIsCanonical(plan);
  }

  /** The body of each section: its override, or that of the template. */
  lemma BodiesReadBack(template: string, keep: seq<string>, overrides: map<string, string>, i: nat)
    requires RenderSubset(template, keep, overrides).Ok? && "" !in keep
    requires PlainBodies(Kept(Split(template).sections, keep, overrides))
    requires i < |Split(RenderSubset(template, keep, overrides).value).sections|
    ensures var s := Split(RenderSubset(template, keep, overrides).value).sections[i];
      if s.heading in overrides then s.body == Canonical(overrides[s.heading])
      else exists t :: t in Split(template).sections && t.heading == s.heading && s.body == Canonical(t.body)
  {
    hide Split, RenderSubset, Kept, PlainBodies, Canonical, HasHeading;
    SubsetReadsBack(template, keep, overrides);
    var s := Split(RenderSubset(template, keep, overrides).value).sections[i];
    if s.heading !in overrides {
      TemplateBodiesStay(template, keep, overrides, i);
    }
  }

  lemma RewriteIs(x: Context, plan: string, raw: C.RawContract)
    requires ExtractContract(x.parse, plan, 0) == Some(raw) && C.Normalize(raw).Ok?
    requires !C.Normalize(raw).value.triage.duplicate
    ensures var c := C.Normalize(raw).value;
      ApplyStrategy(x, plan) == RenderSubset(x.template, KeepSections(c), Overrides(x, c, Discovery(plan)))
  {
    hide ExtractContract, C.Normalize, RenderSubset, SectionBody, KeepSections, Overrides;
  }

  lemma KeptForIs(x: Context, c: C.Contract, discovery: string)
    ensures KeptFor(x, c, discovery) ==
            Kept(Split(x.template).sections, KeepSections(c), Overrides(x, c, discovery))
  {
    hide Split, Kept, KeepSections, Overrides;
  }

  /** A duplicate's plan is left as it is, whatever the template holds. */
  lemma DuplicateIsLeftAlone(x: Context, plan: string, raw: C.RawContract)
    requires ExtractContract(x.parse, plan, 0) == Some(raw) && C.Normalize(raw).Ok? && raw.triage.duplicate
    ensures ApplyStrategy(x, plan) == Ok(plan)
  {
    hide ExtractContract, RenderSubset, SectionBody, C.Normalize, KeepSections, Overrides;
    C.DuplicateStays(raw);
  }

  /** The step fails exactly if it finds no contract, cannot normalize it, or, unless it marks a duplicate, needs a
      section that the template lacks. */
  lemma StepFailsIff(x: Context, plan: string)
    ensures var found := ExtractContract(x.parse, plan, 0);
      ApplyStrategy(x, plan).Err? <==>
        || found.None?
        || C.Normalize(found.value).Err?
        || (!C.Normalize(found.value).value.triage.duplicate &&
            exists h :: h in KeepSections(C.Normalize(found.value).value) && !HasHeading(Split(x.template).sections, h))
    ensures ExtractContract(x.parse, plan, 0).None? ==> ApplyStrategy(x, plan) == Err("combined_plan_contract_missing")
  {
    hide ExtractContract, C.Normalize, RenderSubset, KeepSections, Overrides, SectionBody, Split, HasHeading;
    var found := ExtractContract(x.parse, plan, 0);
    if found.Some? && C.Normalize(found.value).Ok? {
      var c := C.Normalize(found.value).value;
      SubsetFailsIff(x.template, KeepSections(c), Overrides(x, c, Discovery(plan)));
    }
  }
}
