/** Normalizing the strategy contract that the plan's JSON block holds. Absent values are empty texts, empty
    lists and false, which is how the normalizer reads them. */
module PlanContract {
  import opened Options
  import opened Text

  datatype Strategy = Strategy(
    externalResearch: bool, architectureStrategy: bool, architectureDiagram: bool, expandedNotes: bool,
    netNewSurface: bool, reason: string)

  /** The level-based predecessor of the strategy. */
  datatype LegacyRouting = LegacyRouting(
    planLevel: string, sketchLevel: string, externalResearch: bool, architectureDiagram: bool, reason: string)

  datatype Triage = Triage(duplicate: bool, reason: string, matches: seq<string>, size: string, risk: string)

  datatype Risk = Risk(
    overall: string, clarity: string, repoUncertainty: string, externalDependency: string,
    dataMigration: string, runtimeSideEffect: string, humanOperator: string)

  datatype RawContract = RawContract(
    triage: Triage, relevant: seq<string>, reasoning: seq<(string, string)>,
    strategy: Option<Strategy>, legacy: Option<LegacyRouting>, risk: Risk)

  datatype Contract = Contract(
    triage: Triage, relevant: seq<string>, reasoning: map<string, string>, strategy: Strategy, risk: Risk)

  const CANONICAL_DOMAINS := [
    "api integration", "data modeling", "storage", "caching", "client/UI", "edge delivery", "compute",
    "networking", "environment", "observability", "resilience", "testing", "identity", "security",
    "build pipeline", "ops governance", "code patterns"]

  function LowerChar(c: char): char {
    if 'A' <= c <= 'Z' then c + 32 as char else c
  }

  function Lower(s: string): string {
    seq(|s|, i requires 0 <= i < |s| => LowerChar(s[i]))
  }

  /** `value or other`. */
  function Or(value: string, other: string): string {
    if value != "" then value else other
  }

  function NormalizeLevel(value: string): Result<string> {
    var level := Lower(Strip(value));
    if level in {"", "low", "medium", "high"} then Ok(level) else Err("invalid_risk_level")
  }

  function NormalizeSize(value: string): Result<string> {
    var size := Lower(Strip(value));
    if size in {"", "xs", "s", "m", "l", "xl"} then Ok(size) else Err("invalid_tshirt_size")
  }

  /** The last canonical spelling whose lower-case form is the key. */
  function Alias(domains: seq<string>, key: string): Option<string> {
    if domains == [] then None
    else
      var n := |domains| - 1;
      if Lower(domains[n]) == key then Some(domains[n]) else Alias(domains[..n], key)
  }

  function NormalizeDomain(value: string): Result<string> {
    var candidate := Strip(value);
    if candidate == "" then Ok("")
    else
      match Alias(CANONICAL_DOMAINS, Lower(candidate))
      case Some(domain) => Ok(domain)
      case None => Err("invalid_domain")
  }

  /** Normalized names without blanks, the first occurrence of each. */
  function NormalizeRelevant(values: seq<string>): Result<seq<string>> {
    if values == [] then Ok([])
    else
      var n := |values| - 1;
      var front :- NormalizeRelevant(values[..n]);
      var domain :- NormalizeDomain(values[n]);
      Ok(if domain == "" || domain in front then front else front + [domain])
  }

  function NormalizeReasoning(pairs: seq<(string, string)>): Result<map<string, string>> {
    if pairs == [] then Ok(map[])
    else
      var n := |pairs| - 1;
      var front :- NormalizeReasoning(pairs[..n]);
      var domain :- NormalizeDomain(pairs[n].0);
      Ok(if domain == "" then front else front[domain := Strip(pairs[n].1)])
  }

  method NormalizeDomainReasoning(pairs: seq<(string, string)>) returns (reasoning: Result<map<string, string>>)
    ensures reasoning == NormalizeReasoning(pairs)
  {
    hide NormalizeDomain;
    var result: map<string, string> := map[];
    for i := 0 to |pairs|
      invariant NormalizeReasoning(pairs[..i]) == Ok(result)
    {
      assert pairs[..i + 1][..i] == pairs[..i];
      var domain := NormalizeDomain(pairs[i].0);
      if domain.Err? {
        ReasoningStops(pairs, i);
        return Err(domain.error);
      }
      if domain.value != "" {
        result := result[domain.value := Strip(pairs[i].1)];
      }
    }
    assert pairs[..|pairs|] == pairs;
    return Ok(result);
  }

  lemma {:induction false} ReasoningStops(pairs: seq<(string, string)>, i: nat)
    requires i < |pairs| && NormalizeReasoning(pairs[..i]).Ok? && NormalizeDomain(pairs[i].0).Err?
    ensures NormalizeReasoning(pairs) == Err(NormalizeDomain(pairs[i].0).error)
    decreases |pairs|
  {
    hide NormalizeDomain;
    var n := |pairs| - 1;
    if i < n {
      assert pairs[..n][..i] == pairs[..i];
      ReasoningStops(pairs[..n], i);
    } else {
      assert pairs[..n] == pairs[..i];
    }
  }

  function FromLegacy(r: LegacyRouting): Strategy {
    var level, sketch := Lower(Strip(r.planLevel)), Lower(Strip(r.sketchLevel));
    var diagram := r.architectureDiagram || level == "comprehensive";
    Strategy(r.externalResearch, diagram, diagram, sketch == "expanded", false, Strip(r.reason))
  }

  const NO_STRATEGY := Strategy(false, false, false, false, false, "")

  function NormalizeStrategy(strategy: Option<Strategy>, legacy: Option<LegacyRouting>): Strategy {
    var s := if strategy.Some? then strategy.value else if legacy.Some? then FromLegacy(legacy.value) else NO_STRATEGY;
    s.(externalResearch := s.externalResearch || s.netNewSurface, reason := Strip(s.reason))
  }

  function Normalize(raw: RawContract): Result<Contract> {
    var size :- NormalizeSize(raw.triage.size);
    var relevant :- NormalizeRelevant(raw.relevant);
    var reasoning :- NormalizeReasoning(raw.reasoning);
    var triageRisk :- NormalizeLevel(Or(raw.triage.risk, raw.risk.overall));
    var overall :- NormalizeLevel(Or(raw.risk.overall, raw.triage.risk));
    var clarity :- NormalizeLevel(raw.risk.clarity);
    var repo :- NormalizeLevel(raw.risk.repoUncertainty);
    var dependency :- NormalizeLevel(raw.risk.externalDependency);
    var migration :- NormalizeLevel(raw.risk.dataMigration);
    var sideEffect :- NormalizeLevel(raw.risk.runtimeSideEffect);
    var human :- NormalizeLevel(raw.risk.humanOperator);
    Ok(Contract(
         Triage(raw.triage.duplicate, Strip(raw.triage.reason), raw.triage.matches, size, triageRisk),
         relevant, reasoning, NormalizeStrategy(raw.strategy, raw.legacy),
         Risk(overall, clarity, repo, dependency, migration, sideEffect, human)))
  }

  // ---------------------------------------------------------------- normalizing what was normalized

  /** What loading the written form of a normalized contract yields: the same values, the reasoning listed in
      some order with each domain once. */
  ghost predicate Rereads(raw: RawContract, c: Contract) {
    && raw.triage == c.triage && raw.relevant == c.relevant
    && raw.strategy == Some(c.strategy) && raw.risk == c.risk
    && Lists(raw.reasoning, c.reasoning)
  }

  ghost predicate Lists(pairs: seq<(string, string)>, m: map<string, string>) {
    && (forall i, j :: 0 <= i < j < |pairs| ==> pairs[i].0 != pairs[j].0)
    && (forall i :: 0 <= i < |pairs| ==> pairs[i].0 in m && m[pairs[i].0] == pairs[i].1)
    && (forall k :: k in m ==> exists i :: 0 <= i < |pairs| && pairs[i].0 == k)
  }

  lemma LevelIsStable(value: string)
    requires NormalizeLevel(value).Ok?
    ensures NormalizeLevel(NormalizeLevel(value).value) == NormalizeLevel(value)
    ensures NormalizeLevel(value).value == "" <==> AllSpace(value)
  {
    var level := NormalizeLevel(value).value;
    StripFacts(value);
    hide Strip;
    assert |Lower(Strip(value))| == |Strip(value)|;
    LowerLevels();
    TrimmedStrip(level);
  }

  lemma LowerLevels()
    ensures forall s | s in {"", "low", "medium", "high", "xs", "s", "m", "l", "xl"} :: Lower(s) == s && Trimmed(s)
  {
  }

  lemma SizeIsStable(value: string)
    requires NormalizeSize(value).Ok?
    ensures NormalizeSize(NormalizeSize(value).value) == NormalizeSize(value)
  {
    hide Strip;
    LowerLevels();
    TrimmedStrip(NormalizeSize(value).value);
  }

  lemma {:induction false} AliasMeans(domains: seq<string>, key: string)
    ensures var a := Alias(domains, key); a.Some? ==> a.value in domains && Lower(a.value) == key
    decreases |domains|
  {
    hide Lower;
    if domains != [] {
      AliasMeans(domains[..|domains| - 1], key);
    }
  }

  lemma CanonicalAreTrimmed()
    ensures forall d :: d in CANONICAL_DOMAINS ==> d != "" && Trimmed(d)
  {
  }

  lemma DomainIsStable(value: string)
    requires NormalizeDomain(value).Ok?
    ensures NormalizeDomain(NormalizeDomain(value).value) == NormalizeDomain(value)
  {
    var d := NormalizeDomain(value).value;
    hide Lower, Alias, Strip;
    AliasMeans(CANONICAL_DOMAINS, Lower(Strip(value)));
    CanonicalAreTrimmed();
    TrimmedStrip(d);
  }

  /** A canonical domain name: normalizing leaves it alone. */
  predicate IsDomain(d: string) {
    d != "" && NormalizeDomain(d) == Ok(d)
  }

  lemma {:induction false} RelevantAreDomains(values: seq<string>)
    requires NormalizeRelevant(values).Ok?
    ensures var r := NormalizeRelevant(values).value;
      && (forall i :: 0 <= i < |r| ==> IsDomain(r[i]))
      && (forall i, j :: 0 <= i < j < |r| ==> r[i] != r[j])
    decreases |values|
  {
    hide NormalizeDomain;
    if values != [] {
      var n := |values| - 1;
      RelevantAreDomains(values[..n]);
      DomainIsStable(values[n]);
    }
  }

  lemma {:induction false} DomainsStay(r: seq<string>)
    requires forall i :: 0 <= i < |r| ==> IsDomain(r[i])
    requires forall i, j :: 0 <= i < j < |r| ==> r[i] != r[j]
    ensures NormalizeRelevant(r) == Ok(r)
    decreases |r|
  {
    hide NormalizeDomain;
    if r != [] {
      var n := |r| - 1;
      DomainsStay(r[..n]);
      assert r == r[..n] + [r[n]];
      assert IsDomain(r[n]);
    }
  }

  ghost predicate IsReasoning(m: map<string, string>) {
    forall k :: k in m ==> IsDomain(k) && Trimmed(m[k])
  }

  lemma {:induction false} ReasoningIsByDomain(pairs: seq<(string, string)>)
    requires NormalizeReasoning(pairs).Ok?
    ensures IsReasoning(NormalizeReasoning(pairs).value)
    decreases |pairs|
  {
    hide NormalizeDomain, Strip, Trimmed;
    if pairs != [] {
      var n := |pairs| - 1;
      ReasoningIsByDomain(pairs[..n]);
      DomainIsStable(pairs[n].0);
      StripFacts(pairs[n].1);
    }
  }

  lemma {:induction false} ListingNormalizes(pairs: seq<(string, string)>)
    requires forall i, j :: 0 <= i < j < |pairs| ==> pairs[i].0 != pairs[j].0
    requires forall i :: 0 <= i < |pairs| ==> IsDomain(pairs[i].0) && Trimmed(pairs[i].1)
    ensures NormalizeReasoning(pairs).Ok?
    ensures var m := NormalizeReasoning(pairs).value;
      && (forall i :: 0 <= i < |pairs| ==> pairs[i].0 in m && m[pairs[i].0] == pairs[i].1)
      && (forall k :: k in m ==> exists i :: 0 <= i < |pairs| && pairs[i].0 == k)
    decreases |pairs|
  {
    hide NormalizeDomain, Strip, Trimmed;
    if pairs != [] {
      var n := |pairs| - 1;
      var front := pairs[..n];
      ListingNormalizes(front);
      assert IsDomain(pairs[n].0);
      TrimmedStrip(pairs[n].1);
      var m := NormalizeReasoning(pairs).value;
      assert m == NormalizeReasoning(front).value[pairs[n].0 := pairs[n].1];
      forall k | k in m ensures exists i :: 0 <= i < |pairs| && pairs[i].0 == k {
        if k != pairs[n].0 {
          var i :| 0 <= i < |front| && front[i].0 == k;
          assert pairs[i].0 == k;
        }
      }
    }
  }

  lemma ReasoningIsStable(m: map<string, string>, pairs: seq<(string, string)>)
    requires IsReasoning(m) && Lists(pairs, m)
    ensures NormalizeReasoning(pairs) == Ok(m)
  {
    hide IsDomain, Trimmed, NormalizeReasoning;
    ListingNormalizes(pairs);
    var r := NormalizeReasoning(pairs).value;
    forall k ensures k in r <==> k in m {
      if k in m {
        var i :| 0 <= i < |pairs| && pairs[i].0 == k;
      }
    }
    forall k | k in m ensures r[k] == m[k] {
      var i :| 0 <= i < |pairs| && pairs[i].0 == k;
    }
    assert r == m;
  }

  lemma StrategyIsStable(strategy: Option<Strategy>, legacy: Option<LegacyRouting>)
    ensures var s := NormalizeStrategy(strategy, legacy);
      && (forall l :: NormalizeStrategy(Some(s), l) == s)
      && (s.netNewSurface ==> s.externalResearch)
  {
    hide Strip;
    var s := NormalizeStrategy(strategy, legacy);
    forall t ensures Strip(Strip(t)) == Strip(t) {
      StripFacts(t);
      TrimmedStrip(Strip(t));
    }
  }

  /** The two labels that stand in for each other agree on being present: a label of nothing but whitespace next
      to a real one is taken as present when it is read and as absent once it is written. */
  predicate LabelsAgree(raw: RawContract) {
    && (raw.triage.risk != "" && AllSpace(raw.triage.risk) ==> AllSpace(raw.risk.overall))
    && (raw.risk.overall != "" && AllSpace(raw.risk.overall) ==> AllSpace(raw.triage.risk))
  }

  lemma CrossLabels(t: string, o: string)
    requires NormalizeLevel(Or(t, o)).Ok? && NormalizeLevel(Or(o, t)).Ok?
    ensures var nt, no := NormalizeLevel(Or(t, o)).value, NormalizeLevel(Or(o, t)).value;
      && NormalizeLevel(Or(nt, no)).Ok? && NormalizeLevel(Or(no, nt)).Ok?
      && (NormalizeLevel(Or(nt, no)).value == nt && NormalizeLevel(Or(no, nt)).value == no <==>
            (t != "" && AllSpace(t) ==> AllSpace(o)) && (o != "" && AllSpace(o) ==> AllSpace(t)))
  {
    hide NormalizeLevel, AllSpace;
    LevelIsStable(Or(t, o));
    LevelIsStable(Or(o, t));
    assert AllSpace("") by { NothingIsSpace(); }
  }

  lemma NothingIsSpace()
    ensures AllSpace("")
  {
  }

  /** Normalizing what was written after normalizing succeeds, and gives the same contract exactly if the two
      overall risk labels agreed in the first place. */
  lemma NormalizationIsStableIff(raw: RawContract, again: RawContract)
    requires Normalize(raw).Ok? && Rereads(again, Normalize(raw).value)
    ensures Normalize(again).Ok?
    ensures Normalize(again) == Normalize(raw) <==> LabelsAgree(raw)
  {
    hide NormalizeLevel, NormalizeSize, NormalizeRelevant, NormalizeReasoning, NormalizeStrategy, Strip, Or, Lists,
      AllSpace;
    var c := Normalize(raw).value;
    SizeIsStable(raw.triage.size);
    RelevantAreDomains(raw.relevant);
    DomainsStay(c.relevant);
    ReasoningIsByDomain(raw.reasoning);
    ReasoningIsStable(c.reasoning, again.reasoning);
    StrategyIsStable(raw.strategy, raw.legacy);
    CrossLabels(raw.triage.risk, raw.risk.overall);
    LevelIsStable(raw.risk.clarity);
    LevelIsStable(raw.risk.repoUncertainty);
    LevelIsStable(raw.risk.externalDependency);
    LevelIsStable(raw.risk.dataMigration);
    LevelIsStable(raw.risk.runtimeSideEffect);
    LevelIsStable(raw.risk.humanOperator);
    StripFacts(raw.triage.reason);
    TrimmedStrip(Strip(raw.triage.reason));
  }

  /** `_selected_sections`. */
  function SelectedSections(s: Strategy): seq<string> {
    ["Summary", "Relevant Domains", "Internal Research"] +
    (if s.externalResearch then ["External Research"] else []) +
    (if s.architectureStrategy || s.architectureDiagram then ["Architecture Strategy"] else []) +
    (if s.architectureDiagram then ["Architecture Diagram"] else []) +
    (if s.expandedNotes then ["Expanded Design Notes"] else []) +
    ["Design Slices", "Plan Completion Summary"]
  }

  /** A contract that meets the bad case: a blank triage risk beside a high overall one. */
  const BLANK_BESIDE_HIGH := RawContract(
    Triage(false, "", [], "", " "), [], [], None, None, Risk("high", "", "", "", "", "", ""))

  /** Read back from what was written for it, it normalizes to another contract. */
  lemma BlankBesideHighIsUnstable()
    ensures Normalize(BLANK_BESIDE_HIGH).Ok?
    ensures var c := Normalize(BLANK_BESIDE_HIGH).value;
      var again := RawContract(c.triage, c.relevant, [], Some(c.strategy), None, c.risk);
      Rereads(again, c) && Normalize(again).Ok? && Normalize(again) != Normalize(BLANK_BESIDE_HIGH)
  {
    LiteralLevels();
    hide NormalizeLevel, AllSpace;
    var c := Normalize(BLANK_BESIDE_HIGH).value;
    var again := RawContract(c.triage, c.relevant, [], Some(c.strategy), None, c.risk);
    assert c.reasoning == map[];
    NormalizationIsStableIff(BLANK_BESIDE_HIGH, again);
  }

  lemma LiteralLevels()
    ensures NormalizeLevel("") == Ok("") && NormalizeLevel(" ") == Ok("") && NormalizeLevel("high") == Ok("high")
    ensures AllSpace(" ") && !AllSpace("high") && NormalizeSize("") == Ok("")
  {
    TrimmedStrip("high");
    assert Lower("high") == "high";
    assert Lower("") == "";
    StripFacts(" ");
    assert "high"[0] in "high";
  }

  /** Where the flags come from: the strategy as given, whose new surface calls for external research, or else the
      levels of its predecessor, or else none. */
  lemma FlagsComeFrom(raw: RawContract)
    requires Normalize(raw).Ok?
    ensures var s := Normalize(raw).value.strategy;
      match (raw.strategy, raw.legacy)
      case (Some(given), _) =>
        && s.externalResearch == (given.externalResearch || given.netNewSurface)
        && s.architectureStrategy == given.architectureStrategy && s.architectureDiagram == given.architectureDiagram
        && s.expandedNotes == given.expandedNotes && s.netNewSurface == given.netNewSurface
        && s.reason == Strip(given.reason)
      case (None, Some(former)) =>
        && s.externalResearch == former.externalResearch && !s.netNewSurface
        && s.architectureDiagram == (former.architectureDiagram || Lower(Strip(former.planLevel)) == "comprehensive")
        && s.architectureStrategy == s.architectureDiagram
        && s.expandedNotes == (Lower(Strip(former.sketchLevel)) == "expanded")
        && s.reason == Strip(former.reason)
      case (None, None) => s == NO_STRATEGY
  {
    hide Strip, Lower, NormalizeLevel, NormalizeSize, NormalizeRelevant, NormalizeReasoning;
    if raw.legacy.Some? {
      StripAgain(raw.legacy.value.reason);
    }
    StripAgain("");
    NothingToStrip();
  }

  lemma StripAgain(s: string)
    ensures Strip(Strip(s)) == Strip(s)
  {
    hide Strip;
    StripFacts(s);
    TrimmedStrip(Strip(s));
  }

  lemma NothingToStrip()
    ensures Strip("") == ""
  {
  }

  lemma DuplicateStays(raw: RawContract)
    ensures Normalize(raw).Ok? ==> Normalize(raw).value.triage.duplicate == raw.triage.duplicate
  {
    hide NormalizeLevel, NormalizeSize, NormalizeRelevant, NormalizeReasoning, NormalizeStrategy, Strip;
  }
}
