/** Recording implementation notes in quickstart.md: two sections, each entry under a marker line, lines spliced
    in place, and the file rewritten only when an entry was new. */
module QuickstartDocs {
  import opened Options
  import opened Sequences
  import opened Text

  const TITLE := "# Quickstart"
  const RUNBOOK_HEADING := "## Deterministic Operator Runbook Notes"
  const RUNBOOK_SUBHEADING := "### Recovery Delta Validation Notes"
  const DECISION_LOG_HEADING := "## Decision Log"
  const MARKER_PREFIX := "<!-- speckit_implement_docs:entry_id="

  datatype Part = Runbook | DecisionLog

  function HeadingOf(p: Part): string {
    if p == Runbook then RUNBOOK_SUBHEADING else DECISION_LOG_HEADING
  }

  function MarkerTail(p: Part): string {
    if p == Runbook then ":runbook -->" else ":decision_log -->"
  }

  function Marker(p: Part, id: string): string {
    MARKER_PREFIX + id + MarkerTail(p)
  }

  predicate IdChar(c: char) {
    'A' <= c <= 'Z' || 'a' <= c <= 'z' || '0' <= c <= '9' || c == '_' || c == '.' || c == ':' || c == '-'
  }

  predicate ValidId(id: string) {
    id != "" && forall c :: c in id ==> IdChar(c)
  }

  /** A request as loaded: a valid entry id, and trimmed, non-empty bullets of one line each. */
  datatype Request = Request(id: string, runbook: seq<string>, decisions: seq<string>)

  predicate ValidBullets(bullets: seq<string>) {
    forall i :: 0 <= i < |bullets| ==> bullets[i] != "" && Trimmed(bullets[i]) && OneLine(bullets[i])
  }

  predicate ValidRequest(r: Request) {
    ValidId(r.id) && ValidBullets(r.runbook) && ValidBullets(r.decisions)
  }

  function BulletsOf(r: Request, p: Part): seq<string> {
    if p == Runbook then r.runbook else r.decisions
  }

  // ---------------------------------------------------------------- lines and sections

  predicate IsBreak(line: string) {
    StartsWith(line, "## ")
  }

  /** The first line that reads as the heading, or the number of lines. */
  function Find(lines: seq<string>, heading: string): (i: nat)
    ensures i <= |lines|
    ensures i < |lines| ==> Strip(lines[i]) == heading
    ensures forall j :: 0 <= j < i ==> Strip(lines[j]) != heading
  {
    hide Strip;
    if lines == [] || Strip(lines[0]) == heading then 0 else 1 + Find(lines[1..], heading)
  }

  predicate Has(lines: seq<string>, heading: string) {
    Find(lines, heading) < |lines|
  }

  /** Where the section body that starts at `from` ends. */
  function BodyEnd(lines: seq<string>, from: nat): (e: nat)
    requires from <= |lines|
    ensures from <= e <= |lines|
    ensures e < |lines| ==> IsBreak(lines[e])
    ensures forall j :: from <= j < e ==> !IsBreak(lines[j])
    decreases |lines| - from
  {
    hide IsBreak;
    if from == |lines| || IsBreak(lines[from]) then from else BodyEnd(lines, from + 1)
  }

  /** The section body under the heading line i. */
  function BodyAt(lines: seq<string>, i: nat): seq<string>
    requires i < |lines|
  {
    lines[i + 1..BodyEnd(lines, i + 1)]
  }

  function Body(lines: seq<string>, heading: string): seq<string> {
    if Has(lines, heading) then BodyAt(lines, Find(lines, heading)) else []
  }

  /** How many lines read as the given text. */
  function Count(lines: seq<string>, text: string): nat {
    if lines == [] then 0 else (if Strip(lines[0]) == text then 1 else 0) + Count(lines[1..], text)
  }

  function Splice(lines: seq<string>, p: nat, block: seq<string>): seq<string>
    requires p <= |lines|
  {
    lines[..p] + block + lines[p..]
  }

  function EnsureHeading(lines: seq<string>, heading: string, after: Option<string>): seq<string> {
    if Has(lines, heading) then lines
    else
      var p := if after.Some? && Has(lines, after.value) then Find(lines, after.value) + 1 else |lines|;
      Splice(lines, p, ["", heading, ""])
  }

  function WithTitle(lines: seq<string>): seq<string> {
    var some := if lines == [] then [TITLE, ""] else lines;
    if StartsWith(some[0], "# ") then some else [TITLE, ""] + some
  }

  /** The lines with title and headings in place. */
  function Ensured(lines: seq<string>): seq<string> {
    var a := EnsureHeading(WithTitle(lines), RUNBOOK_HEADING, None);
    var b := EnsureHeading(a, RUNBOOK_SUBHEADING, Some(RUNBOOK_HEADING));
    EnsureHeading(b, DECISION_LOG_HEADING, None)
  }

  function Block(p: Part, id: string, bullets: seq<string>): seq<string> {
    ["", Marker(p, id)] + seq(|bullets|, i requires 0 <= i < |bullets| => "- " + bullets[i]) + [""]
  }

  function Recorded(lines: seq<string>, p: Part, id: string): nat {
    Count(Body(lines, HeadingOf(p)), Marker(p, id))
  }

  function Inserted(lines: seq<string>, p: Part, id: string, bullets: seq<string>): seq<string> {
    if !Has(lines, HeadingOf(p)) || !IsNew(lines, p, id, bullets) then lines
    else Splice(lines, BodyEnd(lines, Find(lines, HeadingOf(p)) + 1), Block(p, id, bullets))
  }

  predicate IsNew(lines: seq<string>, p: Part, id: string, bullets: seq<string>) {
    bullets != [] && Recorded(lines, p, id) == 0
  }

  // ---------------------------------------------------------------- the in-place editor

  class LineBuffer {
    var lines: seq<string>

    constructor (initial: seq<string>)
      ensures lines == initial
    {
      lines := initial;
    }

    method FindHeading(heading: string) returns (i: nat)
      ensures i == Find(lines, heading)
    {
      hide Strip;
      i := 0;
      while i < |lines|
        invariant 0 <= i <= |lines|
        invariant Find(lines, heading) == i + Find(lines[i..], heading)
      {
        if Strip(lines[i]) == heading {
          return;
        }
        assert lines[i..][1..] == lines[i + 1..];
        i := i + 1;
      }
    }

    method EnsureHeadingInPlace(heading: string, after: Option<string>)
      modifies this
      ensures lines == EnsureHeading(old(lines), heading, after)
    {
      hide Strip, Find;
      var i := FindHeading(heading);
      if i < |lines| {
        return;
      }
      var insertAt := |lines|;
      if after.Some? {
        var j := FindHeading(after.value);
        if j < |lines| {
          insertAt := j + 1;
        }
      }
      lines := Splice(lines, insertAt, ["", heading, ""]);
    }

    method InsertMarkerAndBullets(p: Part, id: string, bullets: seq<string>) returns (inserted: bool)
      requires Has(lines, HeadingOf(p)) && bullets != []
      modifies this
      ensures inserted == IsNew(old(lines), p, id, bullets)
      ensures lines == Inserted(old(lines), p, id, bullets)
    {
      hide Strip, IsBreak, Find, Count, Marker, Block, Splice;
      var headingIndex := FindHeading(HeadingOf(p));
      var bodyEnd := headingIndex + 1;
      while bodyEnd < |lines| && !IsBreak(lines[bodyEnd])
        invariant headingIndex < bodyEnd <= |lines|
        invariant BodyEnd(lines, headingIndex + 1) == BodyEnd(lines, bodyEnd)
      {
        bodyEnd := bodyEnd + 1;
      }
      var marker := Marker(p, id);
      CountIsSome(lines[headingIndex + 1..bodyEnd], marker);
      if exists k :: headingIndex < k < bodyEnd && Strip(lines[k]) == marker {
        return false;
      }
      lines := Splice(lines, bodyEnd, Block(p, id, bullets));
      return true;
    }
  }

  lemma {:induction false} CountIsSome(lines: seq<string>, text: string)
    ensures Count(lines, text) > 0 <==> exists i :: 0 <= i < |lines| && Strip(lines[i]) == text
    decreases |lines|
  {
    hide Strip;
    if lines != [] {
      CountIsSome(lines[1..], text);
      if Count(lines, text) > 0 && Strip(lines[0]) != text {
        var i :| 0 <= i < |lines| - 1 && Strip(lines[1..][i]) == text;
        assert Strip(lines[i + 1]) == text;
      }
      if i :| 0 < i < |lines| && Strip(lines[i]) == text {
        assert Strip(lines[1..][i - 1]) == text;
      }
    }
  }

  // ---------------------------------------------------------------- splicing a block into the lines

  /** No line of the block ends a section or reads as one of the headings. */
  ghost predicate Quiet(block: seq<string>) {
    && (forall i :: 0 <= i < |block| ==> !IsBreak(block[i]))
    && Unlike(block, RUNBOOK_HEADING) && Unlike(block, RUNBOOK_SUBHEADING) && Unlike(block, DECISION_LOG_HEADING)
  }

  ghost predicate Unlike(block: seq<string>, text: string) {
    forall i :: 0 <= i < |block| ==> Strip(block[i]) != text
  }

  lemma {:induction false} FindIs(lines: seq<string>, heading: string, i: nat)
    requires i <= |lines| && forall j :: 0 <= j < i ==> Strip(lines[j]) != heading
    requires i < |lines| ==> Strip(lines[i]) == heading
    ensures Find(lines, heading) == i
  {
    hide Strip;
  }

  lemma FindSplice(lines: seq<string>, p: nat, block: seq<string>, heading: string)
    requires p <= |lines| && Unlike(block, heading)
    ensures Find(Splice(lines, p, block), heading) ==
            Find(lines, heading) + (if Find(lines, heading) < p then 0 else |block|)
  {
    hide Strip, Find, Splice;
    var i, spliced := Find(lines, heading), Splice(lines, p, block);
    var f := i + if i < p then 0 else |block|;
    SpliceLength(lines, p, block);
    forall j | 0 <= j < f ensures Strip(spliced[j]) != heading {
      SpliceElement(lines, p, block, j);
    }
    if f < |spliced| {
      SpliceElement(lines, p, block, f);
    }
    FindIs(spliced, heading, f);
  }

  lemma SpliceLength(lines: seq<string>, p: nat, block: seq<string>)
    requires p <= |lines|
    ensures |Splice(lines, p, block)| == |lines| + |block|
  {
  }

  lemma SpliceElement(lines: seq<string>, p: nat, block: seq<string>, j: nat)
    requires p <= |lines| && j < |lines| + |block|
    ensures j < |Splice(lines, p, block)|
    ensures Splice(lines, p, block)[j] ==
            if j < p then lines[j] else if j < p + |block| then block[j - p] else lines[j - |block|]
  {
  }

  lemma {:induction false} BodyEndIs(lines: seq<string>, from: nat, e: nat)
    requires from <= e <= |lines| && forall j :: from <= j < e ==> !IsBreak(lines[j])
    requires e < |lines| ==> IsBreak(lines[e])
    ensures BodyEnd(lines, from) == e
  {
    hide IsBreak;
  }

  lemma SpliceSlices(lines: seq<string>, p: nat, block: seq<string>, a: nat, e: nat)
    requires p <= |lines| && a <= e <= |lines|
    ensures e <= p ==> Splice(lines, p, block)[a..e] == lines[a..e]
    ensures p <= a ==> Splice(lines, p, block)[a + |block|..e + |block|] == lines[a..e]
    ensures a <= p <= e ==> Splice(lines, p, block)[a..e + |block|] == Splice(lines[a..e], p - a, block)
  {
    hide Splice;
    var spliced, n := Splice(lines, p, block), |block|;
    SpliceLength(lines, p, block);
    if e <= p {
      forall j | a <= j < e ensures spliced[j] == lines[j] {
        SpliceElement(lines, p, block, j);
      }
    }
    if p <= a {
      forall j | 0 <= j < e - a ensures spliced[a + n..e + n][j] == lines[a..e][j] {
        SpliceElement(lines, p, block, a + n + j);
      }
    }
    if a <= p <= e {
      SpliceLength(lines[a..e], p - a, block);
      var window, inner := spliced[a..e + n], Splice(lines[a..e], p - a, block);
      forall j | 0 <= j < |window| ensures window[j] == inner[j] {
        SpliceElement(lines, p, block, a + j);
        SpliceElement(lines[a..e], p - a, block, j);
      }
    }
  }

  lemma BodyEndSplice(lines: seq<string>, p: nat, block: seq<string>, from: nat)
    requires from <= |lines| && p <= |lines| && forall i :: 0 <= i < |block| ==> !IsBreak(block[i])
    ensures var e := BodyEnd(lines, from);
      && (p <= from ==> BodyEnd(Splice(lines, p, block), from + |block|) == e + |block|)
      && (from <= p <= e ==> BodyEnd(Splice(lines, p, block), from) == e + |block|)
      && (e < p ==> BodyEnd(Splice(lines, p, block), from) == e)
  {
    hide IsBreak, BodyEnd;
    var e, spliced := BodyEnd(lines, from), Splice(lines, p, block);
    assert forall i :: 0 <= i < p ==> spliced[i] == lines[i];
    assert forall i :: p <= i < p + |block| ==> spliced[i] == block[i - p];
    assert forall i :: p + |block| <= i < |spliced| ==> spliced[i] == lines[i - |block|];
    if p <= from {
      BodyEndIs(spliced, from + |block|, e + |block|);
    }
    if from <= p <= e {
      BodyEndIs(spliced, from, e + |block|);
    }
    if e < p {
      BodyEndIs(spliced, from, e);
    }
  }

  lemma BodyAtSplice(lines: seq<string>, p: nat, block: seq<string>, i: nat)
    requires i < |lines| && p <= |lines| && forall k :: 0 <= k < |block| ==> !IsBreak(block[k])
    ensures |Splice(lines, p, block)| == |lines| + |block|
    ensures p <= i ==> BodyAt(Splice(lines, p, block), i + |block|) == BodyAt(lines, i)
    ensures i < p <= BodyEnd(lines, i + 1) ==>
      BodyAt(Splice(lines, p, block), i) == Splice(BodyAt(lines, i), p - i - 1, block)
    ensures BodyEnd(lines, i + 1) < p ==> BodyAt(Splice(lines, p, block), i) == BodyAt(lines, i)
  {
    hide IsBreak, BodyEnd;
    BodyEndSplice(lines, p, block, i + 1);
    SpliceSlices(lines, p, block, i + 1, BodyEnd(lines, i + 1));
  }

  predicate InBody(lines: seq<string>, heading: string, p: nat) {
    Has(lines, heading) && Find(lines, heading) < p <= BodyEnd(lines, Find(lines, heading) + 1)
  }

  /** A quiet block becomes part of a section body, or leaves it as it is. */
  lemma BodySplice(lines: seq<string>, p: nat, block: seq<string>, heading: string)
    requires p <= |lines| && Has(lines, heading) && Unlike(block, heading)
    requires forall i :: 0 <= i < |block| ==> !IsBreak(block[i])
    ensures InBody(lines, heading, p) ==>
      p - Find(lines, heading) - 1 <= |Body(lines, heading)| &&
      Body(Splice(lines, p, block), heading) ==
      Splice(Body(lines, heading), p - Find(lines, heading) - 1, block)
    ensures !InBody(lines, heading, p) ==> Body(Splice(lines, p, block), heading) == Body(lines, heading)
  {
    hide Strip, IsBreak, BodyEnd, Splice, Unlike, Find;
    FindSplice(lines, p, block, heading);
    BodyAtSplice(lines, p, block, Find(lines, heading));
  }

  lemma {:induction false} CountAppend(a: seq<string>, b: seq<string>, text: string)
    ensures Count(a + b, text) == Count(a, text) + Count(b, text)
    decreases |a|
  {
    hide Strip;
    if a == [] {
      assert a + b == b;
    } else {
      assert (a + b)[1..] == a[1..] + b;
      CountAppend(a[1..], b, text);
    }
  }

  lemma CountSplice(lines: seq<string>, p: nat, block: seq<string>, text: string)
    requires p <= |lines|
    ensures Count(Splice(lines, p, block), text) == Count(lines, text) + Count(block, text)
  {
    hide Count;
    CountAppend(lines[..p] + block, lines[p..], text);
    CountAppend(lines[..p], block, text);
    CountAppend(lines[..p], lines[p..], text);
    assert lines == lines[..p] + lines[p..];
  }

  lemma {:induction false} CountUnlike(block: seq<string>, text: string)
    requires Unlike(block, text)
    ensures Count(block, text) == 0
  {
    hide Strip;
    if block != [] {
      assert forall i :: 0 <= i < |block| - 1 ==> block[1..][i] == block[i + 1];
      CountUnlike(block[1..], text);
    }
  }

  // ---------------------------------------------------------------- the fixed texts

  lemma MarkerOneLine(p: Part, id: string)
    requires ValidId(id)
    ensures OneLine(Marker(p, id))
  {
    IdOneLine(id);
    FixedTextsOneLine();
    hide OneLine, ValidId;
    OneLineAppend(MARKER_PREFIX, id);
    OneLineAppend(MARKER_PREFIX + id, MarkerTail(p));
  }

  lemma IdOneLine(id: string)
    requires ValidId(id)
    ensures OneLine(id)
  {
    forall i | 0 <= i < |id| ensures !IsLineBreak(id[i]) {
      assert id[i] in id;
    }
  }

  lemma FixedTextsOneLine()
    ensures OneLine(MARKER_PREFIX) && OneLine(MarkerTail(Runbook)) && OneLine(MarkerTail(DecisionLog))
  {
  }

  lemma MarkerShape(p: Part, id: string)
    requires ValidId(id)
    ensures var m := Marker(p, id); m != "" && OneLine(m) && Strip(m) == m && m[0] == '<' && !IsBreak(m)
  {
    hide OneLine, ValidId;
    MarkerOneLine(p, id);
    var m := Marker(p, id);
    assert m[0] == MARKER_PREFIX[0] == '<';
    assert m[|m| - 1] == MarkerTail(p)[|MarkerTail(p)| - 1] == '>';
    TrimmedStrip(m);
  }

  lemma MarkersDiffer(p: Part, id: string, q: Part, other: string)
    requires p != q || id != other
    ensures Marker(p, id) != Marker(q, other)
  {
    var m, w := Marker(p, id), Marker(q, other);
    assert m[|m| - 5] == MarkerTail(p)[|MarkerTail(p)| - 5];
    assert w[|w| - 5] == MarkerTail(q)[|MarkerTail(q)| - 5];
    assert id == m[|MARKER_PREFIX|..|MARKER_PREFIX| + |id|];
    assert other == w[|MARKER_PREFIX|..|MARKER_PREFIX| + |other|];
  }

  lemma HeadingShapes(h: string)
    requires h in {RUNBOOK_HEADING, RUNBOOK_SUBHEADING, DECISION_LOG_HEADING}
    ensures h != "" && OneLine(h) && Trimmed(h) && Strip(h) == h && h[0] == h[1] == '#'
  {
    hide Strip;
    TrimmedStrip(h);
  }

  lemma BulletShape(item: string)
    requires item != "" && Trimmed(item) && OneLine(item)
    ensures var line := "- " + item; Strip(line) == line && line[0] == '-' && OneLine(line) && !IsBreak(line)
  {
    var line := "- " + item;
    assert line[|line| - 1] == item[|item| - 1];
    TrimmedStrip(line);
  }

  lemma BlockShape(p: Part, id: string, bullets: seq<string>)
    requires ValidId(id) && ValidBullets(bullets)
    ensures Quiet(Block(p, id, bullets)) && OneLineEach(Block(p, id, bullets))
  {
    hide Strip, OneLine, Marker, ValidId, Trimmed;
    var block := Block(p, id, bullets);
    MarkerShape(p, id);
    HeadingShapes(RUNBOOK_HEADING);
    HeadingShapes(RUNBOOK_SUBHEADING);
    HeadingShapes(DECISION_LOG_HEADING);
    forall i | 0 <= i < |block|
      ensures (Strip(block[i]) == "" || Strip(block[i])[0] != '#') && OneLine(block[i]) && !IsBreak(block[i])
    {
      if 2 <= i < |block| - 1 {
        BulletShape(bullets[i - 2]);
      } else if i != 1 {
        EmptyShape();
      }
    }
  }

  lemma EmptyShape()
    ensures Strip("") == "" && OneLine("") && !IsBreak("")
  {
  }

  lemma BlockCount(p: Part, id: string, bullets: seq<string>, q: Part, other: string)
    requires ValidId(id) && ValidBullets(bullets) && ValidId(other)
    ensures Count(Block(p, id, bullets), Marker(q, other)) == if q == p && other == id then 1 else 0
  {
    hide Strip, OneLine, Marker, ValidId, Trimmed;
    var items := seq(|bullets|, i requires 0 <= i < |bullets| => "- " + bullets[i]);
    var m := Marker(q, other);
    MarkerShape(p, id);
    MarkerShape(q, other);
    EmptyShape();
    forall i | 0 <= i < |items| ensures Strip(items[i]) != m {
      BulletShape(bullets[i]);
    }
    CountUnlike(items, m);
    CountAppend(["", Marker(p, id)] + items, [""], m);
    CountAppend(["", Marker(p, id)], items, m);
    CountAppend([""], [Marker(p, id)], m);
    if q != p || other != id {
      MarkersDiffer(q, other, p, id);
    }
    assert ["", Marker(p, id)] == [""] + [Marker(p, id)];
    SingleCount("", m);
    SingleCount(Marker(p, id), m);
  }

  lemma SingleCount(line: string, text: string)
    ensures Count([line], text) == if Strip(line) == text then 1 else 0
  {
    hide Strip;
  }

  /** One insertion adds the entry's marker to its own section if the entry is new, and touches no other count. */
  lemma InsertedCounts(lines: seq<string>, p: Part, id: string, bullets: seq<string>, q: Part, other: string)
    requires ValidId(id) && ValidId(other) && ValidBullets(bullets)
    requires Has(lines, RUNBOOK_SUBHEADING) && Has(lines, DECISION_LOG_HEADING)
    ensures var after := Inserted(lines, p, id, bullets);
      Recorded(after, q, other) ==
        Recorded(lines, q, other) + (if q == p && other == id && IsNew(lines, p, id, bullets) then 1 else 0)
  {
    hide Strip, IsBreak, Find, BodyEnd, Count, Marker, Block, Splice, Body, Unlike, ValidBullets, ValidId;
    if IsNew(lines, p, id, bullets) {
      var block := Block(p, id, bullets);
      var at := BodyEnd(lines, Find(lines, HeadingOf(p)) + 1);
      BlockShape(p, id, bullets);
      BlockCount(p, id, bullets, q, other);
      BodySplice(lines, at, block, HeadingOf(q));
      if InBody(lines, HeadingOf(q), at) {
        CountSplice(Body(lines, HeadingOf(q)), at - Find(lines, HeadingOf(q)) - 1, block, Marker(q, other));
      }
    }
  }

  // ---------------------------------------------------------------- the trimmed file keeps every count

  lemma {:induction false} CountSame(a: seq<string>, b: seq<string>, text: string)
    requires |a| == |b| && forall i :: 0 <= i < |a| ==> Strip(a[i]) == Strip(b[i])
    ensures Count(a, text) == Count(b, text)
  {
    hide Strip;
    if a != [] {
      CountSame(a[1..], b[1..], text);
    }
  }

  /** Right-trimming changes no line's reading; it drops only blank lines, and at most turns a break that has
      become the last line into an ordinary one. */
  lemma TrimEndReads(lines: seq<string>, i: nat)
    requires i < |lines|
    ensures i < |TrimEnd(lines)| ==> Strip(TrimEnd(lines)[i]) == Strip(lines[i])
    ensures i < |TrimEnd(lines)| && IsBreak(TrimEnd(lines)[i]) ==> IsBreak(lines[i])
    ensures i < |TrimEnd(lines)| - 1 ==> TrimEnd(lines)[i] == lines[i]
    ensures i >= |TrimEnd(lines)| ==> Strip(lines[i]) == "" && !IsBreak(lines[i])
    ensures i == |TrimEnd(lines)| - 1 && IsBreak(lines[i]) ==> Strip(lines[i]) != "" && Strip(lines[i])[0] == '#'
  {
    hide Strip, Rstrip, Lstrip, TrimEnd;
    var r := TrimEnd(lines);
    RstripFacts(lines[i]);
    StripIgnoresRstrip(lines[i]);
    StripFacts(lines[i]);
    if i < |r| {
      TrimEndElement(lines, i);
    }
    if IsBreak(lines[i]) {
      BreakReads(lines[i]);
    }
  }

  lemma BreakReads(line: string)
    requires IsBreak(line)
    ensures Strip(line) != "" && Strip(line)[0] == '#'
  {
    assert line[0] == "## "[0] == '#';
    assert Lstrip(line) == line;
    RstripFacts(line);
    assert line[0] in line;
  }

  lemma TrimEndFind(lines: seq<string>, heading: string)
    requires heading != "" && Has(lines, heading)
    ensures Has(TrimEnd(lines), heading) && Find(TrimEnd(lines), heading) == Find(lines, heading)
  {
    hide Strip, Find, TrimEnd;
    var f := Find(lines, heading);
    TrimEndReads(lines, f);
    forall j | 0 <= j <= f ensures Strip(TrimEnd(lines)[j]) == Strip(lines[j]) {
      TrimEndReads(lines, j);
    }
    FindIs(TrimEnd(lines), heading, f);
  }

  /** r reads as the lines without a blank end; only its last line can have stopped being a break. */
  ghost predicate ReadsAlike(r: seq<string>, lines: seq<string>) {
    && |r| <= |lines|
    && (forall j :: 0 <= j < |r| ==> Strip(r[j]) == Strip(lines[j]) && (IsBreak(r[j]) ==> IsBreak(lines[j])))
    && (forall j :: 0 <= j < |r| - 1 ==> r[j] == lines[j])
    && (forall j :: |r| <= j < |lines| ==> Strip(lines[j]) == "" && !IsBreak(lines[j]))
    && (r != [] && IsBreak(lines[|r| - 1]) ==> Strip(lines[|r| - 1]) != "" && Strip(lines[|r| - 1])[0] == '#')
  }

  lemma TrimEndReadsAlike(lines: seq<string>)
    ensures ReadsAlike(TrimEnd(lines), lines)
  {
    hide Strip, TrimEnd, IsBreak;
    var r := TrimEnd(lines);
    forall j | 0 <= j < |lines|
      ensures j < |r| ==> Strip(r[j]) == Strip(lines[j]) && (IsBreak(r[j]) ==> IsBreak(lines[j]))
      ensures j < |r| - 1 ==> r[j] == lines[j]
      ensures j >= |r| ==> Strip(lines[j]) == "" && !IsBreak(lines[j])
      ensures j == |r| - 1 && IsBreak(lines[j]) ==> Strip(lines[j]) != "" && Strip(lines[j])[0] == '#'
    {
      TrimEndReads(lines, j);
    }
  }

  /** Where both bodies end: together, or past some blank lines, or past the last line itself. */
  lemma BodyEndsAlike(r: seq<string>, lines: seq<string>, i: nat, text: string) returns (m: nat)
    requires ReadsAlike(r, lines) && i < |r| && text != "" && text[0] != '#'
    ensures i + 1 <= m <= BodyEnd(r, i + 1) && m <= BodyEnd(lines, i + 1) && m <= |r|
    ensures Unlike(r[m..BodyEnd(r, i + 1)], text) && Unlike(lines[m..BodyEnd(lines, i + 1)], text)
  {
    hide Strip, IsBreak, BodyEnd;
    var e, t := BodyEnd(lines, i + 1), BodyEnd(r, i + 1);
    m := if e <= |r| then e else |r|;
    assert m <= t;
    forall j | m <= j < t ensures Strip(r[j]) != text {
      assert !IsBreak(r[j]);
    }
  }

  /** A body of the trimmed lines: the same readings, minus blank lines, plus at most the last line itself. */
  lemma TrimEndBody(lines: seq<string>, i: nat, text: string)
    requires i < |TrimEnd(lines)| && text != "" && text[0] != '#'
    ensures Count(BodyAt(TrimEnd(lines), i), text) == Count(BodyAt(lines, i), text)
  {
    hide Strip, TrimEnd, Count, IsBreak, BodyEnd, ReadsAlike, Unlike;
    var r := TrimEnd(lines);
    TrimEndReadsAlike(lines);
    var m := BodyEndsAlike(r, lines, i, text);
    var e, t := BodyEnd(lines, i + 1), BodyEnd(r, i + 1);
    SameReadings(r, lines, i + 1, m, text);
    assert lines[i + 1..e] == lines[i + 1..m] + lines[m..e];
    assert r[i + 1..t] == r[i + 1..m] + r[m..t];
    CountAppend(lines[i + 1..m], lines[m..e], text);
    CountAppend(r[i + 1..m], r[m..t], text);
    CountUnlike(lines[m..e], text);
    CountUnlike(r[m..t], text);
  }

  lemma SameReadings(r: seq<string>, lines: seq<string>, a: nat, m: nat, text: string)
    requires ReadsAlike(r, lines) && a <= m <= |r|
    ensures Count(r[a..m], text) == Count(lines[a..m], text)
  {
    hide Strip, Count, IsBreak;
    CountSame(r[a..m], lines[a..m], text);
  }

  lemma TrimEndRecorded(lines: seq<string>, p: Part, id: string)
    requires ValidId(id) && Has(lines, HeadingOf(p))
    ensures Recorded(TrimEnd(lines), p, id) == Recorded(lines, p, id)
  {
    hide Strip, TrimEnd, Count, IsBreak, BodyEnd, Find, Marker, BodyAt;
    HeadingShapes(HeadingOf(p));
    MarkerShape(p, id);
    TrimEndFind(lines, HeadingOf(p));
    TrimEndBody(lines, Find(lines, HeadingOf(p)), Marker(p, id));
  }

  // ---------------------------------------------------------------- title and headings

  /** A title line first, and every heading somewhere. */
  predicate Ready(lines: seq<string>) {
    lines != [] && StartsWith(lines[0], "# ") && Has(lines, RUNBOOK_HEADING) &&
    Has(lines, RUNBOOK_SUBHEADING) && Has(lines, DECISION_LOG_HEADING)
  }

  lemma HasIf(lines: seq<string>, heading: string, i: nat)
    requires i < |lines| && Strip(lines[i]) == heading
    ensures Has(lines, heading)
  {
    hide Strip, Find;
  }

  lemma SpliceKeepsHeadings(lines: seq<string>, p: nat, block: seq<string>, heading: string)
    requires p <= |lines|
    ensures Has(lines, heading) ==> Has(Splice(lines, p, block), heading)
    ensures (exists i :: 0 <= i < |block| && Strip(block[i]) == heading) ==> Has(Splice(lines, p, block), heading)
    ensures 0 < p ==> Splice(lines, p, block)[0] == lines[0]
  {
    hide Strip, Find;
    var spliced := Splice(lines, p, block);
    if Has(lines, heading) {
      var f := Find(lines, heading);
      HasIf(spliced, heading, if f < p then f else f + |block|);
    }
    if i :| 0 <= i < |block| && Strip(block[i]) == heading {
      HasIf(spliced, heading, p + i);
    }
  }

  lemma EnsureHeadingKeeps(lines: seq<string>, heading: string, after: Option<string>)
    requires lines != [] && heading in {RUNBOOK_HEADING, RUNBOOK_SUBHEADING, DECISION_LOG_HEADING}
    ensures var r := EnsureHeading(lines, heading, after);
      && r != [] && r[0] == lines[0] && Has(r, heading)
      && (forall other :: Has(lines, other) ==> Has(r, other))
      && Embeds(lines, r) && (OneLineEach(lines) ==> OneLineEach(r))
  {
    hide Strip, Find, OneLine, Splice;
    if Has(lines, heading) {
      EmbedsSelf(lines);
    } else {
      var p := if after.Some? && Has(lines, after.value) then Find(lines, after.value) + 1 else |lines|;
      var block := ["", heading, ""];
      HeadingShapes(heading);
      EmptyShape();
      assert Strip(block[1]) == heading;
      forall other ensures Has(lines, other) ==> Has(Splice(lines, p, block), other) {
        SpliceKeepsHeadings(lines, p, block, other);
      }
      SpliceKeepsHeadings(lines, p, block, heading);
      SpliceKeepsLines(lines, p, block);
    }
  }

  lemma SpliceKeepsLines(lines: seq<string>, p: nat, block: seq<string>)
    requires p <= |lines|
    ensures Embeds(lines, Splice(lines, p, block))
    ensures OneLineEach(lines) && OneLineEach(block) ==> OneLineEach(Splice(lines, p, block))
    ensures |Splice(lines, p, block)| == |lines| + |block|
  {
    EmbedsInsert(lines, p, block);
  }

  lemma TitleKeeps(lines: seq<string>)
    ensures var r := WithTitle(lines);
      r != [] && StartsWith(r[0], "# ") && Embeds(lines, r) && (OneLineEach(lines) ==> OneLineEach(r))
  {
    hide OneLine, StartsWith, Embeds, Splice, OneLineEach;
    TitleCases(lines);
    EmbedsSelf(lines);
    SpliceKeepsLines(lines, 0, [TITLE, ""]);
  }

  lemma TitleCases(lines: seq<string>)
    ensures OneLineEach([TITLE, ""])
    ensures WithTitle(lines) != [] && StartsWith(WithTitle(lines)[0], "# ")
    ensures WithTitle(lines) == lines || WithTitle(lines) == Splice(lines, 0, [TITLE, ""])
  {
    assert OneLine(TITLE) && OneLine("") && StartsWith(TITLE, "# ");
    hide OneLine, StartsWith;
    var block := [TITLE, ""];
    assert Splice(lines, 0, block) == block + lines;
    assert lines == [] ==> block + lines == block;
  }

  lemma EnsuredFacts(lines: seq<string>)
    ensures Ready(Ensured(lines)) && Embeds(lines, Ensured(lines))
    ensures OneLineEach(lines) ==> OneLineEach(Ensured(lines))
  {
    hide WithTitle, EnsureHeading, StartsWith, OneLineEach, Embeds, Has;
    TitleKeeps(lines);
    var t := WithTitle(lines);
    EnsureHeadingKeeps(t, RUNBOOK_HEADING, None);
    var a := EnsureHeading(t, RUNBOOK_HEADING, None);
    EnsureHeadingKeeps(a, RUNBOOK_SUBHEADING, Some(RUNBOOK_HEADING));
    var b := EnsureHeading(a, RUNBOOK_SUBHEADING, Some(RUNBOOK_HEADING));
    EnsureHeadingKeeps(b, DECISION_LOG_HEADING, None);
    EmbedsTransitive(lines, t, a);
    EmbedsTransitive(lines, a, b);
    EmbedsTransitive(lines, b, Ensured(lines));
  }

  lemma ReadyIsEnsured(lines: seq<string>)
    requires Ready(lines)
    ensures Ensured(lines) == lines
  {
  }

  lemma InsertedFacts(lines: seq<string>, p: Part, id: string, bullets: seq<string>)
    requires Ready(lines) && ValidId(id) && ValidBullets(bullets)
    ensures Ready(Inserted(lines, p, id, bullets)) && Embeds(lines, Inserted(lines, p, id, bullets))
    ensures OneLineEach(lines) ==> OneLineEach(Inserted(lines, p, id, bullets))
  {
    hide Strip, OneLine, Embeds, Block, Find, BodyEnd, Splice, StartsWith, IsNew;
    if IsNew(lines, p, id, bullets) {
      var at := BodyEnd(lines, Find(lines, HeadingOf(p)) + 1);
      var block := Block(p, id, bullets);
      BlockShape(p, id, bullets);
      SpliceKeepsLines(lines, at, block);
      SpliceKeepsHeadings(lines, at, block, RUNBOOK_HEADING);
      SpliceKeepsHeadings(lines, at, block, RUNBOOK_SUBHEADING);
      SpliceKeepsHeadings(lines, at, block, DECISION_LOG_HEADING);
    } else {
      EmbedsSelf(lines);
    }
  }

  /** A heading never sits on the title line. */
  lemma TitleIsNoHeading(line: string, heading: string)
    requires StartsWith(line, "# ") && heading in {RUNBOOK_HEADING, RUNBOOK_SUBHEADING, DECISION_LOG_HEADING}
    ensures Strip(line) != heading
  {
    HeadingShapes(heading);
    assert line[0] == "# "[0] == '#' && line[1] == "# "[1] == ' ';
    assert Lstrip(line) == line;
    RstripFacts(line);
  }

  lemma TrimEndReady(lines: seq<string>)
    requires Ready(lines)
    ensures Ready(TrimEnd(lines))
  {
    hide Strip, Find, TrimEnd, StartsWith;
    HeadingShapes(RUNBOOK_HEADING);
    HeadingShapes(RUNBOOK_SUBHEADING);
    HeadingShapes(DECISION_LOG_HEADING);
    TrimEndFind(lines, RUNBOOK_HEADING);
    TrimEndFind(lines, RUNBOOK_SUBHEADING);
    TrimEndFind(lines, DECISION_LOG_HEADING);
    TitleIsNoHeading(lines[0], RUNBOOK_HEADING);
    assert Find(lines, RUNBOOK_HEADING) >= 1;
    TrimEndReads(lines, 0);
  }

  // ---------------------------------------------------------------- the file

  const SKELETON := [TITLE, "", RUNBOOK_HEADING, "", RUNBOOK_SUBHEADING, "", DECISION_LOG_HEADING, ""]

  /** The text that is read: a missing file is first created from the skeleton. */
  function Opened(file: Option<string>): string {
    if file.Some? then file.value else JoinLines(SKELETON)
  }

  function LinesOf(file: Option<string>): seq<string> {
    Ensured(SplitLines(Opened(file)))
  }

  /** How often the entry is recorded in its section. */
  function Entries(file: Option<string>, p: Part, id: string): nat {
    Recorded(LinesOf(file), p, id)
  }

  /** The request asks for an entry in the section that is not recorded there. */
  predicate Adds(file: Option<string>, r: Request, p: Part) {
    BulletsOf(r, p) != [] && Entries(file, p, r.id) == 0
  }

  function Edited(lines: seq<string>, r: Request): seq<string> {
    Inserted(Inserted(lines, Runbook, r.id, r.runbook), DecisionLog, r.id, r.decisions)
  }

  function Applied(file: Option<string>, r: Request): Option<string> {
    if Adds(file, r, Runbook) || Adds(file, r, DecisionLog) then Some(FileText(Edited(LinesOf(file), r)))
    else Some(Opened(file))
  }

  lemma EditedFacts(lines: seq<string>, r: Request)
    requires Ready(lines) && OneLineEach(lines) && ValidRequest(r)
    ensures Ready(Edited(lines, r)) && OneLineEach(Edited(lines, r)) && Embeds(lines, Edited(lines, r))
    ensures IsNew(Inserted(lines, Runbook, r.id, r.runbook), DecisionLog, r.id, r.decisions) <==>
            IsNew(lines, DecisionLog, r.id, r.decisions)
  {
    hide Inserted, Recorded, ValidId, ValidBullets, Has, StartsWith, OneLineEach, Embeds;
    var a := Inserted(lines, Runbook, r.id, r.runbook);
    InsertedFacts(lines, Runbook, r.id, r.runbook);
    InsertedFacts(a, DecisionLog, r.id, r.decisions);
    EmbedsTransitive(lines, a, Edited(lines, r));
    InsertedCounts(lines, Runbook, r.id, r.runbook, DecisionLog, r.id);
  }

  lemma EditedCounts(lines: seq<string>, r: Request, q: Part, other: string)
    requires Ready(lines) && OneLineEach(lines) && ValidRequest(r) && ValidId(other)
    ensures Recorded(Edited(lines, r), q, other) ==
      Recorded(lines, q, other) + (if other == r.id && IsNew(lines, q, r.id, BulletsOf(r, q)) then 1 else 0)
  {
    hide Inserted, Recorded, ValidId, ValidBullets, Has, StartsWith, OneLineEach, Embeds;
    var a := Inserted(lines, Runbook, r.id, r.runbook);
    EditedFacts(lines, r);
    InsertedFacts(lines, Runbook, r.id, r.runbook);
    InsertedCounts(lines, Runbook, r.id, r.runbook, q, other);
    InsertedCounts(a, DecisionLog, r.id, r.decisions, q, other);
  }

  /** What the next reader of a written file works with: its own lines, nothing added. */
  lemma WrittenFile(lines: seq<string>)
    requires Ready(lines) && OneLineEach(lines)
    ensures LinesOf(Some(FileText(lines))) == TrimEnd(lines)
  {
    hide Ready, Ensured, TrimEnd, FileText, OneLineEach;
    ReadBack(lines);
    TrimEndReady(lines);
    assert TrimEnd(lines) != [] by { ReadyIsNonEmpty(TrimEnd(lines)); }
    ReadyIsEnsured(TrimEnd(lines));
  }

  lemma ReadyIsNonEmpty(lines: seq<string>)
    requires Ready(lines)
    ensures lines != []
  {
  }

  lemma LinesOfFacts(file: Option<string>)
    ensures Ready(LinesOf(file)) && OneLineEach(LinesOf(file)) && Embeds(SplitLines(Opened(file)), LinesOf(file))
  {
    hide Ready, Embeds;
    EnsuredFacts(SplitLines(Opened(file)));
  }

  /** One request adds one record of each entry it brings that was missing, and changes no other count. */
  lemma AppliedCounts(file: Option<string>, r: Request, q: Part, other: string)
    requires ValidRequest(r) && ValidId(other)
    ensures Entries(Applied(file, r), q, other) ==
      Entries(file, q, other) + (if other == r.id && Adds(file, r, q) then 1 else 0)
  {
    hide Ready, OneLineEach, Edited, Recorded, FileText, ValidId, ValidBullets, Ensured, Embeds, TrimEnd, SplitLines;
    LinesOfFacts(file);
    var lines := LinesOf(file);
    EditedFacts(lines, r);
    EditedCounts(lines, r, q, other);
    if Adds(file, r, Runbook) || Adds(file, r, DecisionLog) {
      WrittenFile(Edited(lines, r));
      ReadyHas(Edited(lines, r), q);
      TrimEndRecorded(Edited(lines, r), q, other);
    }
  }

  lemma ReadyHas(lines: seq<string>, q: Part)
    requires Ready(lines)
    ensures Has(lines, HeadingOf(q))
  {
  }

  class QuickstartFile {
    var content: Option<string>

    /** `apply_update`: reports which of the two sections gained the entry. */
    method ApplyUpdate(r: Request) returns (runbookUpdated: bool, decisionLogUpdated: bool)
      requires ValidRequest(r)
      modifies this
      ensures content == Applied(old(content), r)
      ensures runbookUpdated == Adds(old(content), r, Runbook)
      ensures decisionLogUpdated == Adds(old(content), r, DecisionLog)
    {
      hide Opened, WithTitle, EnsureHeading, Inserted, Ready, Embeds, OneLineEach, FileText, SplitLines, IsNew,
        ValidId, ValidBullets, Has;
      LinesOfFacts(content);
      ghost var lines := LinesOf(content);
      EditedFacts(lines, r);
      InsertedFacts(lines, Runbook, r.id, r.runbook);
      NewIsAdded(content, r);
      ReadyHas(lines, Runbook);
      ReadyHas(Inserted(lines, Runbook, r.id, r.runbook), DecisionLog);
      InsertedNothing(lines, Runbook, r.id);
      InsertedNothing(Inserted(lines, Runbook, r.id, r.runbook), DecisionLog, r.id);

      content := Some(Opened(content));
      var buffer := new LineBuffer(WithTitle(SplitLines(content.value)));
      buffer.EnsureHeadingInPlace(RUNBOOK_HEADING, None);
      buffer.EnsureHeadingInPlace(RUNBOOK_SUBHEADING, Some(RUNBOOK_HEADING));
      buffer.EnsureHeadingInPlace(DECISION_LOG_HEADING, None);
      runbookUpdated, decisionLogUpdated := false, false;
      if r.runbook != [] {
        runbookUpdated := buffer.InsertMarkerAndBullets(Runbook, r.id, r.runbook);
      }
      if r.decisions != [] {
        decisionLogUpdated := buffer.InsertMarkerAndBullets(DecisionLog, r.id, r.decisions);
      }
      if runbookUpdated || decisionLogUpdated {
        content := Some(FileText(buffer.lines));
      }
    }
  }

  lemma NewIsAdded(file: Option<string>, r: Request)
    ensures forall p :: Adds(file, r, p) <==> IsNew(LinesOf(file), p, r.id, BulletsOf(r, p))
  {
  }

  lemma InsertedNothing(lines: seq<string>, p: Part, id: string)
    ensures Inserted(lines, p, id, []) == lines && !IsNew(lines, p, id, [])
  {
  }

  // ---------------------------------------------------------------- any sequence of requests

  function AppliedAll(file: Option<string>, requests: seq<Request>): Option<string> {
    if requests == [] then file
    else
      var n := |requests| - 1;
      Applied(AppliedAll(file, requests[..n]), requests[n])
  }

  ghost predicate AllValid(requests: seq<Request>) {
    forall i :: 0 <= i < |requests| ==> ValidRequest(requests[i])
  }

  ghost predicate Requested(requests: seq<Request>, q: Part, id: string) {
    exists i :: 0 <= i < |requests| && requests[i].id == id && BulletsOf(requests[i], q) != []
  }

  /** Whatever the file was and whatever is requested how often, an entry that the file did not record is in its
      section exactly once if some request brought it and not at all otherwise; one that it did record stays as
      often as it was. */
  lemma {:induction false} ExactlyOnce(file: Option<string>, requests: seq<Request>, q: Part, id: string)
    requires AllValid(requests) && ValidId(id)
    ensures Entries(AppliedAll(file, requests), q, id) ==
      if Entries(file, q, id) > 0 then Entries(file, q, id)
      else if Requested(requests, q, id) then 1
      else 0
    decreases |requests|
  {
    hide Entries, Applied, ValidRequest, ValidId;
    if requests != [] {
      var n := |requests| - 1;
      var front, last := requests[..n], requests[n];
      ExactlyOnce(file, front, q, id);
      AppliedCounts(AppliedAll(file, front), last, q, id);
      if i :| 0 <= i < |requests| && requests[i].id == id && BulletsOf(requests[i], q) != [] {
        if i < n {
          assert front[i] == requests[i];
          assert Requested(front, q, id);
        }
      }
      if j :| 0 <= j < n && front[j].id == id && BulletsOf(front[j], q) != [] {
        assert requests[j] == front[j];
      }
    }
  }

  /** Replaying an earlier request leaves the file as it is. */
  lemma ReplayChangesNothing(file: Option<string>, requests: seq<Request>, i: nat)
    requires AllValid(requests) && i < |requests|
    ensures Applied(AppliedAll(file, requests), requests[i]) == AppliedAll(file, requests)
  {
    hide Entries, ValidBullets, ValidId, AppliedAll, Opened;
    var r, after := requests[i], AppliedAll(file, requests);
    assert ValidRequest(r);
    forall q: Part ensures !Adds(after, r, q) {
      ExactlyOnce(file, requests, q, r.id);
      assert BulletsOf(r, q) != [] ==> Requested(requests, q, r.id);
    }
    AppliedIsText(file, requests);
    assert Opened(after) == after.value by { OpenedText(after); }
  }

  lemma AppliedIsText(file: Option<string>, requests: seq<Request>)
    requires requests != []
    ensures AppliedAll(file, requests).Some?
  {
  }

  lemma OpenedText(file: Option<string>)
    requires file.Some?
    ensures Opened(file) == file.value
  {
  }

  /** The lines of a text up to trailing whitespace: no blank lines at the end, no spaces at line ends. */
  function Significant(lines: seq<string>): seq<string> {
    seq(|TrimEnd(lines)|, i requires 0 <= i < |TrimEnd(lines)| => Rstrip(lines[i]))
  }

  lemma SignificantEmbeds(a: seq<string>, b: seq<string>)
    requires Embeds(a, b)
    ensures Embeds(Significant(a), Significant(b))
  {
    hide Rstrip, TrimEnd;
    var f :| EmbedsVia(a, b, f);
    var n := |TrimEnd(a)|;
    forall i | 0 <= i < n ensures f[i] < |TrimEnd(b)| {
      assert Rstrip(b[f[n - 1]]) != "";
      assert f[i] <= f[n - 1];
    }
    assert EmbedsVia(Significant(a), Significant(b), f[..n]);
  }

  lemma SignificantTrimEnd(lines: seq<string>)
    ensures Significant(TrimEnd(lines)) == Significant(lines)
  {
    hide Rstrip, TrimEnd;
    var r := TrimEnd(lines);
    forall i | 0 <= i < |r| ensures Rstrip(r[i]) == Rstrip(lines[i]) {
      RstripTwice(lines[i]);
      assert i < |r| - 1 ==> r[i] == r[..|r| - 1][i];
    }
    if r != [] {
      RstripTwice(lines[|r| - 1]);
      assert |TrimEnd(r)| == |r|;
    }
  }

  lemma AppliedKeepsLines(file: Option<string>, r: Request)
    requires ValidRequest(r)
    ensures Embeds(Significant(SplitLines(Opened(file))), Significant(SplitLines(Opened(Applied(file, r)))))
  {
    hide Ready, OneLineEach, Edited, Adds, FileText, ValidRequest, Ensured, Embeds, TrimEnd, SplitLines, Significant;
    var before := SplitLines(Opened(file));
    if Adds(file, r, Runbook) || Adds(file, r, DecisionLog) {
      LinesOfFacts(file);
      EditedFacts(LinesOf(file), r);
      var edited := Edited(LinesOf(file), r);
      EmbedsTransitive(before, LinesOf(file), edited);
      SignificantEmbeds(before, edited);
      SignificantTrimEnd(edited);
      ReadBack(edited);
      TrimEndReady(edited);
      ReadyIsNonEmpty(TrimEnd(edited));
    } else {
      EmbedsSelf(Significant(before));
    }
  }

  /** No line is lost or moved: up to whitespace at the end of lines and file, what the file held at the start is
      found in it, in order, after any requests. */
  lemma {:induction false} NoLineLost(file: Option<string>, requests: seq<Request>)
    requires AllValid(requests)
    ensures Embeds(Significant(SplitLines(Opened(file))), Significant(SplitLines(Opened(AppliedAll(file, requests)))))
    decreases |requests|
  {
    hide Embeds, Significant, SplitLines, Applied, ValidRequest;
    if requests == [] {
      EmbedsSelf(Significant(SplitLines(Opened(file))));
    } else {
      var n := |requests| - 1;
      NoLineLost(file, requests[..n]);
      AppliedKeepsLines(AppliedAll(file, requests[..n]), requests[n]);
      EmbedsTransitive(Significant(SplitLines(Opened(file))),
                       Significant(SplitLines(Opened(AppliedAll(file, requests[..n])))),
                       Significant(SplitLines(Opened(AppliedAll(file, requests)))));
    }
  }
}
