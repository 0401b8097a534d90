/** Whether a read may rely on a cached vector-index probe. On a stale index a scoped read is trusted only when
    no drifted path touches its scope; the test works on text, with slash-terminated prefixes. */
module VectorTrust {
  import opened Options
  import opened Text

  /** A repository-relative path by components; [] is the repository root. */
  type Components = seq<string>

  predicate PlainComponent(c: string) {
    c != "" && c != "." && '/' !in c
  }

  ghost predicate Plain(p: Components) {
    forall i :: 0 <= i < |p| ==> PlainComponent(p[i])
  }

  /** One is the other, or one contains the other. */
  ghost predicate Comparable(a: Components, b: Components) {
    a <= b || b <= a
  }

  /** Every component followed by a slash. */
  function Slashed(p: Components): string {
    if p == [] then "" else p[0] + "/" + Slashed(p[1..])
  }

  /** `PurePath.as_posix` of a relative path, whose empty case is a dot. */
  function AsPosix(p: Components): string {
    if p == [] then "." else Slashed(p)[..|Slashed(p)| - 1]
  }

  function StripSlashes(s: string): (r: string)
    ensures |r| <= |s| && r == s[..|r|] && (r != "" ==> r[|r| - 1] != '/')
    ensures forall i :: |r| <= i < |s| ==> s[i] == '/'
  {
    if s == "" || s[|s| - 1] != '/' then s else StripSlashes(s[..|s| - 1])
  }

  /** The three textual tests on one drift path. */
  predicate Touches(scopeRel: string, candidate: string) {
    || candidate == scopeRel
    || StartsWith(candidate, scopeRel + "/")
    || StartsWith(scopeRel, StripSlashes(candidate) + "/")
  }

  /** `_scope_needs_vector_refresh`; a scope outside the repository has no components. */
  function ScopeNeedsRefresh(scope: Option<Components>, drift: seq<string>): Option<bool> {
    if drift == [] || scope.None? then None
    else
      var scopeRel := StripSlashes(AsPosix(scope.value));
      if scopeRel == "" then Some(true)
      else Some(exists i :: 0 <= i < |drift| && Touches(scopeRel, drift[i]))
  }

  datatype Status = Healthy | Stale | Missing | Unavailable | ProbeFailed | OtherStatus(text: string)

  datatype Probe = Probe(status: Status, drift: seq<string>, escalation: string)

  datatype Note = Silent | NoProbe | StatusIs(status: Status) | BroadRead | NoScope | Overlap | OverlapUnknown

  datatype Decision = Decision(trusted: bool, trustState: string, escalation: string, note: Note)

  predicate Unusable(s: Status) {
    s == Missing || s == Unavailable || s == ProbeFailed
  }

  /** `_vector_trust_decision`. */
  function TrustDecision(probe: Option<Probe>, scope: Option<Components>, scoped: Option<bool>): Decision {
    var trust := Decision(true, "reused", "none", Silent);
    if probe.None? then Decision(false, "invalidated", "recover", NoProbe)
    else
      var p := probe.value;
      if scoped == Some(false) then
        if p.status == Healthy then trust
        else if Unusable(p.status) then Decision(false, "invalidated", p.escalation, StatusIs(p.status))
        else Decision(false, "invalidated", p.escalation, BroadRead)
      else if scoped != Some(true) then Decision(false, "invalidated", "unknown", NoScope)
      else if Unusable(p.status) then Decision(false, "invalidated", p.escalation, StatusIs(p.status))
      else if p.status == Healthy then trust
      else if p.status != Stale then Decision(false, "invalidated", "unknown", StatusIs(p.status))
      else
        var overlap := ScopeNeedsRefresh(scope, p.drift);
        if overlap == Some(false) then trust
        else if overlap == Some(true) then Decision(false, "invalidated", p.escalation, Overlap)
        else Decision(false, "invalidated", p.escalation, OverlapUnknown)
  }

  /** `_read_request_trusts_vector_cache`, the shortcut in front of the decision. */
  predicate TrustsCache(probe: Option<Probe>, scope: Option<Components>, scoped: Option<bool>) {
    if probe.None? then false
    else
      var p := probe.value;
      if scoped == Some(false) then p.status == Healthy
      else if scoped != Some(true) then false
      else if Unusable(p.status) then false
      else if p.status == Healthy then true
      else if p.status != Stale then false
      else ScopeNeedsRefresh(scope, p.drift) == Some(false)
  }

  // ---------------------------------------------------------------- text against components

  lemma {:induction false} SameFirstComponent(x: string, r: string, y: string, q: string)
    requires '/' !in x && '/' !in y
    ensures StartsWith(x + "/" + r, y + "/" + q) <==> x == y && StartsWith(r, q)
  {
    var s, t := x + "/" + r, y + "/" + q;
    assert |y| < |x| ==> s[|y|] == x[|y|] && x[|y|] in x;
    assert |x| < |y| ==> t[|x|] == y[|x|] && y[|x|] in y;
    if StartsWith(s, t) {
      assert s[|y|] == t[|y|] == '/';
      assert s[|x|] == '/' && |x| == |y|;
      assert x == s[..|x|] == t[..|x|] == y;
      assert r == s[|x| + 1..] && q == t[|x| + 1..];
      assert s[..|t|][|x| + 1..] == r[..|q|];
    }
    if x == y && StartsWith(r, q) {
      assert s[..|t|] == x + "/" + r[..|q|];
    }
  }

  lemma {:induction false} SlashedPrefix(a: Components, extra: string, b: Components)
    requires Plain(a) && Plain(b) && forall c :: c in extra ==> c == '/'
    ensures StartsWith(Slashed(a) + extra, Slashed(b)) <==> b <= a
    decreases |b|
  {
    if b != [] {
      assert PlainComponent(b[0]);
      if a == [] {
        assert Slashed(b)[0] == b[0][0];
        if extra != "" {
          assert extra[0] in extra && b[0][0] in b[0];
        }
      } else {
        assert PlainComponent(a[0]);
        assert forall i :: 0 <= i < |a| - 1 ==> a[1..][i] == a[i + 1];
        assert forall i :: 0 <= i < |b| - 1 ==> b[1..][i] == b[i + 1];
        SlashedPrefix(a[1..], extra, b[1..]);
        assert Slashed(a) + extra == a[0] + "/" + (Slashed(a[1..]) + extra);
        SameFirstComponent(a[0], Slashed(a[1..]) + extra, b[0], Slashed(b[1..]));
        assert a == [a[0]] + a[1..] && b == [b[0]] + b[1..];
      }
    }
  }

  lemma {:induction false} SlashedLength(a: Components, b: Components)
    requires b < a && Plain(a)
    ensures |Slashed(b)| < |Slashed(a)|
    decreases |b|
  {
    assert PlainComponent(a[0]);
    if b != [] {
      assert forall i :: 0 <= i < |a| - 1 ==> a[1..][i] == a[i + 1];
      SlashedLength(a[1..], b[1..]);
    }
  }

  lemma {:induction false} SlashedEnds(p: Components)
    requires p != [] && Plain(p)
    ensures |Slashed(p)| > 1 && Slashed(p)[|Slashed(p)| - 1] == '/' && Slashed(p)[|Slashed(p)| - 2] != '/'
    decreases |p|
  {
    assert PlainComponent(p[0]);
    if |p| == 1 {
      assert Slashed(p) == p[0] + "/";
      assert p[0][|p[0]| - 1] in p[0];
    } else {
      assert forall i :: 0 <= i < |p| - 1 ==> p[1..][i] == p[i + 1];
      SlashedEnds(p[1..]);
    }
  }

  lemma {:induction false} StripSlashesOf(s: string, extra: string)
    requires (forall c :: c in extra ==> c == '/') && (s != "" ==> s[|s| - 1] != '/')
    ensures StripSlashes(s + extra) == s
    decreases |extra|
  {
    if extra == "" {
      assert s + extra == s;
    } else {
      var n := |extra| - 1;
      assert (s + extra)[..|s + extra| - 1] == s + extra[..n];
      assert extra[n] in extra && forall c :: c in extra[..n] ==> c in extra;
      StripSlashesOf(s, extra[..n]);
    }
  }

  /** A drift path as the status report spells it: components, and possibly slashes at the end. */
  predicate Spells(candidate: string, p: Components) {
    p != [] && StartsWith(candidate, AsPosix(p)) && forall c :: c in candidate[|AsPosix(p)|..] ==> c == '/'
  }

  lemma SlashedIsPosix(p: Components)
    requires p != [] && Plain(p)
    ensures Slashed(p) == AsPosix(p) + "/" && AsPosix(p) != "" && AsPosix(p)[|AsPosix(p)| - 1] != '/'
    ensures StripSlashes(AsPosix(p)) == AsPosix(p)
  {
    SlashedEnds(p);
  }

  /** Below the root, the textual tests decide component-wise ancestry in either direction. */
  lemma TouchesIsComparable(scope: Components, candidate: string, p: Components)
    requires scope != [] && Plain(scope) && Plain(p) && Spells(candidate, p)
    ensures Touches(AsPosix(scope), candidate) <==> Comparable(scope, p)
  {
    SlashedIsPosix(scope);
    SlashedIsPosix(p);
    var a, b := AsPosix(scope), AsPosix(p);
    var extra := candidate[|b|..];
    assert candidate == b + extra;
    StripSlashesOf(b, extra);
    ScopeAbove(scope, p, extra);
    ScopeBelow(scope, p);
    if candidate == a {
      SamePath(scope, p, extra);
    }
  }

  /** The drift path lies strictly below the scope, or is the scope written with a final slash. */
  lemma ScopeAbove(scope: Components, p: Components, extra: string)
    requires scope != [] && p != [] && Plain(scope) && Plain(p) && forall c :: c in extra ==> c == '/'
    ensures StartsWith(AsPosix(p) + extra, AsPosix(scope) + "/") <==> scope <= p && (extra != "" || scope != p)
  {
    SlashedIsPosix(scope);
    SlashedIsPosix(p);
    if extra == "" {
      SlashedPrefix(p, "", scope);
      assert Slashed(p) + "" == Slashed(p) && AsPosix(p) + "" == AsPosix(p);
      if scope < p {
        SlashedLength(p, scope);
        assert Slashed(p)[..|Slashed(scope)|] == AsPosix(p)[..|Slashed(scope)|];
      }
    } else {
      assert extra[0] in extra;
      assert AsPosix(p) + extra == Slashed(p) + extra[1..];
      assert forall c :: c in extra[1..] ==> c in extra;
      SlashedPrefix(p, extra[1..], scope);
    }
  }

  lemma ScopeBelow(scope: Components, p: Components)
    requires scope != [] && p != [] && Plain(scope) && Plain(p)
    ensures StartsWith(AsPosix(scope), AsPosix(p) + "/") <==> p < scope
  {
    ScopeAbove(p, scope, "");
    assert AsPosix(scope) + "" == AsPosix(scope);
  }

  lemma SamePath(scope: Components, p: Components, extra: string)
    requires scope != [] && p != [] && Plain(scope) && Plain(p) && forall c :: c in extra ==> c == '/'
    requires AsPosix(p) + extra == AsPosix(scope)
    ensures p == scope
  {
    SlashedIsPosix(scope);
    SlashedIsPosix(p);
    StripSlashesOf(AsPosix(p), extra);
    assert Slashed(p) == Slashed(scope);
    assert Slashed(p) + "" == Slashed(p);
    SlashedPrefix(p, "", scope);
    SlashedPrefix(scope, "", p);
  }

  lemma RootIsNeverTouched(candidate: string, p: Components)
    requires Plain(p) && Spells(candidate, p)
    ensures !Touches(".", candidate)
  {
    SlashedIsPosix(p);
    assert PlainComponent(p[0]);
    var b := AsPosix(p);
    var extra := candidate[|b|..];
    assert candidate == b + extra;
    StripSlashesOf(b, extra);
    assert b == p[0] + (if |p| == 1 then "" else b[|p[0]|..]);
    assert candidate[0] == p[0][0];
    if |p[0]| == 1 {
      assert p[0] == [candidate[0]];
      assert candidate[0] != '.';
    } else {
      assert p[0][1] in p[0];
      assert candidate[1] == p[0][1];
    }
  }

  /** The status report spells the drifted paths one by one. */
  ghost predicate Reports(drift: seq<string>, paths: seq<Components>) {
    |drift| == |paths| && forall i :: 0 <= i < |drift| ==> Plain(paths[i]) && Spells(drift[i], paths[i])
  }

  ghost predicate Untouched(scope: Components, paths: seq<Components>) {
    forall i :: 0 <= i < |paths| ==> !Comparable(scope, paths[i])
  }

  /** A scoped read on a stale index is trusted exactly when drift is reported and its scope is the repository
      root or has no drifted path equal to, inside or above it. */
  lemma StaleTrust(probe: Probe, scope: Components, paths: seq<Components>)
    requires probe.status == Stale && Plain(scope) && Reports(probe.drift, paths)
    ensures TrustDecision(Some(probe), Some(scope), Some(true)).trusted <==>
            paths != [] && (scope == [] || Untouched(scope, paths))
  {
    hide Touches, Spells, Comparable;
    if scope == [] {
      forall i | 0 <= i < |paths| ensures !Touches(".", probe.drift[i]) {
        RootIsNeverTouched(probe.drift[i], paths[i]);
      }
    } else {
      SlashedIsPosix(scope);
      forall i | 0 <= i < |paths| ensures Touches(AsPosix(scope), probe.drift[i]) <==> Comparable(scope, paths[i]) {
        TouchesIsComparable(scope, probe.drift[i], paths[i]);
      }
    }
  }

  /** So trusting a stale index is safe for a scope exactly when the scope is not the repository root: the
      root is written ".", which no prefix test matches, although every drifted path lies inside it. */
  lemma StaleTrustIsSafeIffBelowRoot(probe: Probe, scope: Components, paths: seq<Components>)
    requires probe.status == Stale && Plain(scope) && Reports(probe.drift, paths)
    requires TrustDecision(Some(probe), Some(scope), Some(true)).trusted
    ensures Untouched(scope, paths) <==> scope != []
  {
    StaleTrust(probe, scope, paths);
    if scope == [] {
      assert Comparable(scope, paths[0]);
    }
  }

  lemma RootReadTrustsDriftedIndex()
    ensures var probe := Probe(Stale, ["scripts"], "recover");
      Reports(probe.drift, [["scripts"]]) && TrustsCache(Some(probe), Some([]), Some(true))
  {
    var probe := Probe(Stale, ["scripts"], "recover");
    assert Slashed(["scripts"]) == "scripts" + "/" + Slashed([]);
    assert AsPosix(["scripts"]) == "scripts";
    assert Spells("scripts", ["scripts"]);
    assert PlainComponent("scripts");
    StaleTrust(probe, [], [["scripts"]]);
    ShortcutAgrees(Some(probe), Some([]), Some(true));
  }

  /** The shortcut never disagrees with the decision it stands in for. */
  lemma ShortcutAgrees(probe: Option<Probe>, scope: Option<Components>, scoped: Option<bool>)
    ensures TrustsCache(probe, scope, scoped) == TrustDecision(probe, scope, scoped).trusted
    ensures TrustsCache(probe, scope, scoped) <==>
            TrustDecision(probe, scope, scoped) == Decision(true, "reused", "none", Silent)
  {
  }

  /** Every decision: a broad read needs a healthy index, a scoped one a healthy index or a stale one that is known to
      have drifted elsewhere; a read of unknown breadth is never trusted. And what is reported along with that. */
  lemma TrustedIff(probe: Option<Probe>, scope: Option<Components>, scoped: Option<bool>, paths: seq<Components>)
    requires probe.Some? ==> Reports(probe.value.drift, paths)
    requires scope.Some? ==> Plain(scope.value)
    ensures TrustDecision(probe, scope, scoped).trusted <==>
            && probe.Some? && scoped.Some?
            && (probe.value.status == Healthy ||
                (scoped.value && probe.value.status == Stale && scope.Some? && paths != [] &&
                 (scope.value == [] || Untouched(scope.value, paths))))
    ensures var d := TrustDecision(probe, scope, scoped);
      && d.trustState == (if d.trusted then "reused" else "invalidated")
      && d.escalation ==
         (if d.trusted then "none"
          else if probe.None? then "recover"
          else if scoped.None? || (scoped.value && probe.value.status.OtherStatus?) then "unknown"
          else probe.value.escalation)
      && d.note ==
         (if d.trusted then Silent
          else if probe.None? then NoProbe
          else if scoped.None? then NoScope
          else if probe.value.status in {Missing, Unavailable, ProbeFailed} then StatusIs(probe.value.status)
          else if !scoped.value then BroadRead
          else if probe.value.status.OtherStatus? then StatusIs(probe.value.status)
          else if scope.None? || paths == [] then OverlapUnknown
          else Overlap)
  {
    hide Reports, Untouched, ScopeNeedsRefresh;
    if probe.Some? && scope.Some? && probe.value.status == Stale && scoped.Some? && scoped.value {
      assert probe == Some(probe.value) && scope == Some(scope.value) && scoped == Some(true);
      StaleTrust(probe.value, scope.value, paths);
    } else if scoped.Some? {
      assert scoped == if scoped.value then Some(true) else Some(false);
    }
    if probe.Some? {
      AnswerIff(scope, probe.value.drift);
      assert |probe.value.drift| == |paths| by { OneEach(probe.value.drift, paths); }
    }
  }

  lemma AnswerIff(scope: Option<Components>, drift: seq<string>)
    ensures ScopeNeedsRefresh(scope, drift) == None <==> scope.None? || drift == []
    ensures ScopeNeedsRefresh(scope, drift) in {None, Some(true), Some(false)}
  {
  }

  lemma OneEach(drift: seq<string>, paths: seq<Components>)
    requires Reports(drift, paths)
    ensures |drift| == |paths|
  {
  }
}
