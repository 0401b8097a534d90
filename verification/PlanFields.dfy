/** What normalizing a contract makes of each of its fields, and when it fails. */
module PlanFields {
  import opened Options
  import opened Text
  import opened PlanContract

  /** A risk level is recognized in any case and with whitespace around it, a T-shirt size likewise. */
  lemma LevelIff(value: string, level: string)
    ensures NormalizeLevel(value) == Ok(level) <==>
            Lower(Strip(value)) == level && level in {"", "low", "medium", "high"}
    ensures NormalizeSize(value) == Ok(level) <==>
            Lower(Strip(value)) == level && level in {"", "xs", "s", "m", "l", "xl"}
  {
    hide Strip, Lower;
  }

  lemma {:induction false} NoAlias(domains: seq<string>, key: string)
    ensures Alias(domains, key).None? <==> forall d :: d in domains ==> Lower(d) != key
    decreases |domains|
  {
    hide Lower;
    if domains != [] {
      var n := |domains| - 1;
      NoAlias(domains[..n], key);
      assert domains == domains[..n] + [domains[n]];
    }
  }

  /** A domain is recognized in the same way, and written in its canonical spelling; a blank one is dropped. */
  lemma DomainIff(value: string)
    ensures match NormalizeDomain(value)
            case Ok(d) =>
              if AllSpace(value) then d == "" else d in CANONICAL_DOMAINS && Lower(d) == Lower(Strip(value))
            case Err(_) =>
              !AllSpace(value) && forall d :: d in CANONICAL_DOMAINS ==> Lower(d) != Lower(Strip(value))
  {
    hide Strip, Lower, Alias, AllSpace;
    StripFacts(value);
    AliasMeans(CANONICAL_DOMAINS, Lower(Strip(value)));
    NoAlias(CANONICAL_DOMAINS, Lower(Strip(value)));
  }

  /** The relevant domains are those named, once each, and nothing else; one unknown name fails the whole list. */
  lemma {:induction false} RelevantIs(values: seq<string>)
    ensures NormalizeRelevant(values).Ok? <==> forall i :: 0 <= i < |values| ==> NormalizeDomain(values[i]).Ok?
    ensures NormalizeRelevant(values).Ok? ==> forall d ::
      d in NormalizeRelevant(values).value <==>
        d != "" && exists i :: 0 <= i < |values| && NormalizeDomain(values[i]) == Ok(d)
    decreases |values|
  {
    hide NormalizeDomain;
    if values != [] {
      var n := |values| - 1;
      var front := values[..n];
      RelevantIs(front);
      assert forall i :: 0 <= i < n ==> front[i] == values[i];
      if NormalizeRelevant(values).Ok? {
        var r := NormalizeRelevant(values).value;
        forall d
          ensures d in r <==> d != "" && exists i :: 0 <= i < |values| && NormalizeDomain(values[i]) == Ok(d)
        {
          if i :| 0 <= i < |values| && NormalizeDomain(values[i]) == Ok(d) {
            assert i < n ==> NormalizeDomain(front[i]) == Ok(d);
          }
          if i :| 0 <= i < n && NormalizeDomain(front[i]) == Ok(d) {
            assert NormalizeDomain(values[i]) == Ok(d);
          }
        }
      }
    }
  }

  /** They stand in the order of their first mention: a longer list only adds at the end. */
  lemma {:induction false} RelevantInOrder(values: seq<string>, k: nat)
    requires k <= |values| && NormalizeRelevant(values).Ok?
    ensures NormalizeRelevant(values[..k]).Ok?
    ensures NormalizeRelevant(values[..k]).value <= NormalizeRelevant(values).value
    decreases |values|
  {
    hide NormalizeDomain;
    if k == |values| {
      assert values[..k] == values;
    } else {
      var n := |values| - 1;
      RelevantInOrder(values[..n], k);
      assert values[..n][..k] == values[..k];
    }
  }

  /** The reasoning has an entry for each domain named, with the text of the last mention, trimmed. */
  lemma {:induction false} ReasoningIs(pairs: seq<(string, string)>, i: nat)
    requires NormalizeReasoning(pairs).Ok? && i < |pairs|
    ensures var d := NormalizeDomain(pairs[i].0);
      d.Ok? &&
      (d.value != "" ==>
         var m := NormalizeReasoning(pairs).value;
         d.value in m &&
         ((forall j :: i < j < |pairs| ==> NormalizeDomain(pairs[j].0) != d) ==> m[d.value] == Strip(pairs[i].1)))
    decreases |pairs|
  {
    hide NormalizeDomain, Strip;
    var n := |pairs| - 1;
    if i < n {
      ReasoningIs(pairs[..n], i);
      var d := NormalizeDomain(pairs[i].0);
      if forall j :: i < j < |pairs| ==> NormalizeDomain(pairs[j].0) != d {
        assert NormalizeDomain(pairs[n].0) != d;
        assert forall j :: i < j < n ==> pairs[..n][j] == pairs[j];
      }
    }
  }

  /** Every other field comes from the field of its name; the two overall risk labels stand in for each other where one
      is empty. Normalizing fails exactly if a label, a size or a domain is unknown. */
  lemma FieldsComeFrom(raw: RawContract)
    ensures Normalize(raw).Ok? <==>
      && NormalizeSize(raw.triage.size).Ok? && NormalizeRelevant(raw.relevant).Ok?
      && NormalizeReasoning(raw.reasoning).Ok?
      && NormalizeLevel(if raw.triage.risk != "" then raw.triage.risk else raw.risk.overall).Ok?
      && NormalizeLevel(if raw.risk.overall != "" then raw.risk.overall else raw.triage.risk).Ok?
      && NormalizeLevel(raw.risk.clarity).Ok? && NormalizeLevel(raw.risk.repoUncertainty).Ok?
      && NormalizeLevel(raw.risk.externalDependency).Ok? && NormalizeLevel(raw.risk.dataMigration).Ok?
      && NormalizeLevel(raw.risk.runtimeSideEffect).Ok? && NormalizeLevel(raw.risk.humanOperator).Ok?
    ensures Normalize(raw).Ok? ==>
      var c := Normalize(raw).value;
      && c.triage.duplicate == raw.triage.duplicate && c.triage.matches == raw.triage.matches
      && c.triage.reason == Strip(raw.triage.reason)
      && Ok(c.triage.size) == NormalizeSize(raw.triage.size)
      && Ok(c.relevant) == NormalizeRelevant(raw.relevant) && Ok(c.reasoning) == NormalizeReasoning(raw.reasoning)
      && Ok(c.triage.risk) == NormalizeLevel(if raw.triage.risk != "" then raw.triage.risk else raw.risk.overall)
      && Ok(c.risk.overall) == NormalizeLevel(if raw.risk.overall != "" then raw.risk.overall else raw.triage.risk)
      && Ok(c.risk.clarity) == NormalizeLevel(raw.risk.clarity)
      && Ok(c.risk.repoUncertainty) == NormalizeLevel(raw.risk.repoUncertainty)
      && Ok(c.risk.externalDependency) == NormalizeLevel(raw.risk.externalDependency)
      && Ok(c.risk.dataMigration) == NormalizeLevel(raw.risk.dataMigration)
      && Ok(c.risk.runtimeSideEffect) == NormalizeLevel(raw.risk.runtimeSideEffect)
      && Ok(c.risk.humanOperator) == NormalizeLevel(raw.risk.humanOperator)
  {
    hide NormalizeLevel, NormalizeSize, NormalizeRelevant, NormalizeReasoning, NormalizeStrategy, Strip;
  }
}
