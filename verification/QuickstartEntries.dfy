/** Where quickstart.md gets its entries and headings. */
module QuickstartEntries {
  import opened Options
  import opened Text
  import opened QuickstartDocs

  function Dashes(bullets: seq<string>): seq<string> {
    seq(|bullets|, i requires 0 <= i < |bullets| => "- " + bullets[i])
  }

  /** A new entry stands at the end of its section: a blank line, its marker, each bullet in order behind a dash, and a
      blank line; everything before it in the section stays as it is. An entry that is recorded, or has no bullets,
      changes nothing. */
  lemma EntryStandsAtEnd(lines: seq<string>, p: Part, id: string, bullets: seq<string>)
    requires ValidId(id) && ValidBullets(bullets) && Has(lines, HeadingOf(p))
    ensures var after := Inserted(lines, p, id, bullets);
      var marker :=
        "<!-- speckit_implement_docs:entry_id=" + id + (if p == Runbook then ":runbook -->" else ":decision_log -->");
      if bullets != [] && Count(Body(lines, HeadingOf(p)), marker) == 0 then
        Body(after, HeadingOf(p)) == Body(lines, HeadingOf(p)) + ["", marker] + Dashes(bullets) + [""]
      else after == lines
  {
    BlockIs(p, id, bullets);
    BlockShape(p, id, bullets);
    EntryInserted(lines, p, id, bullets);
    hide *;
    Regroup(Body(lines, HeadingOf(p)), ["", Marker(p, id)], Dashes(bullets), [""]);
  }

  lemma EntryInserted(lines: seq<string>, p: Part, id: string, bullets: seq<string>)
    requires Has(lines, HeadingOf(p)) && Quiet(Block(p, id, bullets))
    ensures var after := Inserted(lines, p, id, bullets);
      if bullets != [] && Count(Body(lines, HeadingOf(p)), Marker(p, id)) == 0 then
        Body(after, HeadingOf(p)) == Body(lines, HeadingOf(p)) + Block(p, id, bullets)
      else after == lines
  {
    hide Strip, Body, Has, Find, BodyEnd, Count, Block, Unlike, Splice, IsBreak, Marker;
    SplicedAtEnd(lines, HeadingOf(p), Block(p, id, bullets));
  }

  lemma Regroup<T>(a: seq<T>, b: seq<T>, c: seq<T>, d: seq<T>)
    ensures a + (b + c + d) == a + b + c + d
  {
  }

  lemma BlockIs(p: Part, id: string, bullets: seq<string>)
    ensures Block(p, id, bullets) == ["", Marker(p, id)] + Dashes(bullets) + [""]
    ensures Marker(p, id) ==
      "<!-- speckit_implement_docs:entry_id=" + id + (if p == Runbook then ":runbook -->" else ":decision_log -->")
  {
  }

  lemma SplicedAtEnd(lines: seq<string>, heading: string, block: seq<string>)
    requires Has(lines, heading) && Unlike(block, heading) && forall i :: 0 <= i < |block| ==> !IsBreak(block[i])
    ensures var at := BodyEnd(lines, Find(lines, heading) + 1);
      Body(Splice(lines, at, block), heading) == Body(lines, heading) + block
  {
    hide Strip, IsBreak, Find, BodyEnd, Unlike;
    var at := BodyEnd(lines, Find(lines, heading) + 1);
    BodySplice(lines, at, block, heading);
    var body := Body(lines, heading);
    assert |body| == at - Find(lines, heading) - 1;
    assert body[..|body|] == body && body[|body|..] == [];
  }

  /** A heading that was missing is put right below the line of the one it belongs to, or else at the end, between
      blank lines. */
  lemma MissingHeadingStands(lines: seq<string>, heading: string, after: Option<string>)
    requires heading in {RUNBOOK_HEADING, RUNBOOK_SUBHEADING, DECISION_LOG_HEADING} && !Has(lines, heading)
    ensures var r := EnsureHeading(lines, heading, after);
      var i := Find(r, heading);
      && Has(r, heading) && 0 < i < |r| - 1 && r[i - 1] == "" && r[i] == heading && r[i + 1] == ""
      && r[..i - 1] + r[i + 2..] == lines
      && (if after.Some? && Has(lines, after.value) then
            Has(r, after.value) && i == Find(r, after.value) + 2 && Find(r, after.value) == Find(lines, after.value)
          else i == |lines| + 1)
  {
    MissingHeadingSpliced(lines, heading, if after.Some? && Has(lines, after.value)
                                          then Find(lines, after.value) + 1 else |lines|);
    hide Strip, Find, Splice;
    if after.Some? && Has(lines, after.value) {
      StaysAhead(lines, Find(lines, after.value) + 1, ["", heading, ""], after.value);
    }
  }

  lemma MissingHeadingSpliced(lines: seq<string>, heading: string, p: nat)
    requires heading in {RUNBOOK_HEADING, RUNBOOK_SUBHEADING, DECISION_LOG_HEADING} && !Has(lines, heading)
    requires p <= |lines|
    ensures var r := Splice(lines, p, ["", heading, ""]);
      && |r| == |lines| + 3 && Find(r, heading) == p + 1 && r[p] == "" && r[p + 1] == heading && r[p + 2] == ""
      && r[..p] + r[p + 3..] == lines
  {
    HeadingShapes(heading);
    EmptyShape();
    hide Strip, Find;
    var r := Splice(lines, p, ["", heading, ""]);
    assert r[p] == "" && r[p + 1] == heading && r[p + 2] == "";
    assert forall j :: 0 <= j < p ==> r[j] == lines[j];
    FindIs(r, heading, p + 1);
    assert r[..p] == lines[..p] && r[p + 3..] == lines[p..];
  }

  lemma StaysAhead(lines: seq<string>, p: nat, block: seq<string>, heading: string)
    requires Has(lines, heading) && Find(lines, heading) < p <= |lines|
    ensures Find(Splice(lines, p, block), heading) == Find(lines, heading) && Has(Splice(lines, p, block), heading)
  {
    hide Strip, Find;
    var r := Splice(lines, p, block);
    assert forall j :: 0 <= j < p ==> r[j] == lines[j];
    FindIs(r, heading, Find(lines, heading));
  }

  /** A missing file is created with its title and its headings, and then has all that an entry needs. */
  lemma NewFileIs(r: Request)
    requires r.runbook == [] && r.decisions == []
    ensures Applied(None, r) == Some(JoinLines([
      "# Quickstart", "", "## Deterministic Operator Runbook Notes", "", "### Recovery Delta Validation Notes", "",
      "## Decision Log", ""]))
  {
    hide JoinLines, Entries;
  }
}
