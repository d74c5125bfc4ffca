/** The autonomy policy: how strictly a set of changed paths must be handled. */
module Policy {
  import opened Common

  datatype Mode = AutoPatch | PrOnly | Blocked {
    function Strictness(): nat {
      match this
      case AutoPatch => 0
      case PrOnly => 1
      case Blocked => 2
    }
  }

  datatype Decision = Decision(mode: Mode, reason: string)

  function ClassBlocked(changeClass: string): string {
    "change_class '" + changeClass + "' is blocked"
  }

  function ClassNeedsApproval(changeClass: string): string {
    "change_class '" + changeClass + "' requires human approval"
  }

  const BLOCKED_PATH := "one or more changed paths are blocked from automation"
  const ALLOWLISTED := "class/path combination is allowlisted"
  const OUTSIDE_LOW_RISK := "paths outside low-risk prefixes require human approval"
  const UNCLASSIFIED := "unclassified change class defaults to PR-only"

  datatype AutonomyPolicy = AutonomyPolicy(
    autoPatchClasses: set<string>,
    prOnlyClasses: set<string>,
    blockedClasses: set<string>,
    blockedPrefixes: seq<string>,
    lowRiskPrefixes: seq<string>)
  {
    predicate IsBlockedPath(path: string) {
      exists i :: 0 <= i < |blockedPrefixes| && blockedPrefixes[i] <= path
    }

    predicate IsLowRisk(path: string) {
      exists i :: 0 <= i < |lowRiskPrefixes| && lowRiskPrefixes[i] <= path
    }

    predicate WithinLowRisk(paths: seq<string>) {
      paths != [] && forall i :: 0 <= i < |paths| ==> IsLowRisk(paths[i])
    }

    function Classify(changeClass: string, paths: seq<string>): Decision {
      if changeClass in blockedClasses then
        Decision(Blocked, ClassBlocked(changeClass))
      else if exists i :: 0 <= i < |paths| && IsBlockedPath(paths[i]) then
        Decision(Blocked, BLOCKED_PATH)
      else if changeClass in prOnlyClasses then
        Decision(PrOnly, ClassNeedsApproval(changeClass))
      else if changeClass in autoPatchClasses then
        if WithinLowRisk(paths) then Decision(AutoPatch, ALLOWLISTED)
        else Decision(PrOnly, OUTSIDE_LOW_RISK)
      else Decision(PrOnly, UNCLASSIFIED)
    }

    function Strictness(changeClass: string, paths: seq<string>): nat {
      Classify(changeClass, paths).mode.Strictness()
    }
  }

  /** The path is one of the prefixes followed by anything. */
  ghost predicate Under(path: string, prefixes: seq<string>) {
    exists i: nat, rest: string :: i < |prefixes| && path == prefixes[i] + rest
  }

  lemma PrefixPlusRest(path: string, prefix: string)
    ensures prefix <= path <==> exists rest :: path == prefix + rest
  {
    if prefix <= path {
      assert path == prefix + path[|prefix|..];
    }
  }

  lemma BlockedExactly(p: AutonomyPolicy, path: string)
    ensures p.IsBlockedPath(path) <==> Under(path, p.blockedPrefixes)
  {
    forall i | 0 <= i < |p.blockedPrefixes| {
      PrefixPlusRest(path, p.blockedPrefixes[i]);
    }
  }

  lemma LowRiskExactly(p: AutonomyPolicy, path: string)
    ensures p.IsLowRisk(path) <==> Under(path, p.lowRiskPrefixes)
  {
    forall i | 0 <= i < |p.lowRiskPrefixes| {
      PrefixPlusRest(path, p.lowRiskPrefixes[i]);
    }
  }

  /** Some path lies under a blocked prefix. */
  ghost predicate AnyBlocked(p: AutonomyPolicy, paths: seq<string>) {
    exists i :: 0 <= i < |paths| && Under(paths[i], p.blockedPrefixes)
  }

  ghost predicate AllLowRisk(p: AutonomyPolicy, paths: seq<string>) {
    forall i :: 0 <= i < |paths| ==> Under(paths[i], p.lowRiskPrefixes)
  }

  lemma PathTestsExactly(p: AutonomyPolicy, paths: seq<string>)
    ensures (exists i :: 0 <= i < |paths| && p.IsBlockedPath(paths[i])) <==> AnyBlocked(p, paths)
    ensures p.WithinLowRisk(paths) <==> paths != [] && AllLowRisk(p, paths)
  {
    hide Under, AutonomyPolicy.IsBlockedPath, AutonomyPolicy.IsLowRisk;
    forall i | 0 <= i < |paths|
      ensures p.IsBlockedPath(paths[i]) <==> Under(paths[i], p.blockedPrefixes)
      ensures p.IsLowRisk(paths[i]) <==> Under(paths[i], p.lowRiskPrefixes)
    {
      BlockedExactly(p, paths[i]);
      LowRiskExactly(p, paths[i]);
    }
  }

  /** The decision in terms of classes and prefixes: blocked if the class is or some path lies under a
      blocked prefix; patched automatically if not blocked, the class is an automatic and not a pr_only one,
      and there are paths and all of them lie under low-risk prefixes; a pull request otherwise. */
  lemma ClassifyExactly(p: AutonomyPolicy, c: string, paths: seq<string>)
    ensures
      var d := p.Classify(c, paths);
      var blocked := c in p.blockedClasses || AnyBlocked(p, paths);
      && (d.mode == Blocked <==> blocked)
      && (d.mode == AutoPatch <==>
            !blocked && c in p.autoPatchClasses && c !in p.prOnlyClasses && paths != [] && AllLowRisk(p, paths))
  {
    hide AnyBlocked, AllLowRisk;
    PathTestsExactly(p, paths);
  }

  /** The reason names the rule that decided. */
  lemma ReasonExactly(p: AutonomyPolicy, c: string, paths: seq<string>)
    ensures
      var d := p.Classify(c, paths);
      && (c in p.blockedClasses ==> d.reason == ClassBlocked(c))
      && (c !in p.blockedClasses && AnyBlocked(p, paths) ==>
            d.reason == BLOCKED_PATH)
      && (d.mode == AutoPatch ==> d.reason == ALLOWLISTED)
      && (d.mode == PrOnly ==>
            d.reason == if c in p.prOnlyClasses then ClassNeedsApproval(c)
                        else if c in p.autoPatchClasses then OUTSIDE_LOW_RISK
                        else UNCLASSIFIED)
  {
    hide ClassBlocked, ClassNeedsApproval;
    hide AnyBlocked, AllLowRisk, AutonomyPolicy.IsBlockedPath, AutonomyPolicy.WithinLowRisk;
    PathTestsExactly(p, paths);
  }

  /** The reference: how strictly one path on its own must be handled. */
  ghost function PathStrictness(p: AutonomyPolicy, c: string, path: string): nat {
    if c in p.blockedClasses || Under(path, p.blockedPrefixes) then 2
    else if c in p.autoPatchClasses && c !in p.prOnlyClasses && Under(path, p.lowRiskPrefixes) then 0
    else 1
  }

  /** Path `i` is one that is handled as strictly as the whole change. */
  lemma StrictestPath(p: AutonomyPolicy, c: string, paths: seq<string>) returns (i: nat)
    requires paths != []
    ensures i < |paths| && PathStrictness(p, c, paths[i]) == p.Strictness(c, paths)
  {
    hide Under, AutonomyPolicy.Classify;
    ClassifyExactly(p, c, paths);
    i := 0;
    if c in p.blockedClasses {
    } else if j :| 0 <= j < |paths| && Under(paths[j], p.blockedPrefixes) {
      i := j;
    } else if c in p.autoPatchClasses && c !in p.prOnlyClasses && !AllLowRisk(p, paths) {
      i :| 0 <= i < |paths| && !Under(paths[i], p.lowRiskPrefixes);
    }
  }

  /** A nonempty change is handled exactly as strictly as its strictest path. */
  lemma StrictestPathDecides(p: AutonomyPolicy, c: string, paths: seq<string>)
    requires paths != []
    ensures forall i :: 0 <= i < |paths| ==> PathStrictness(p, c, paths[i]) <= p.Strictness(c, paths)
    ensures exists i :: 0 <= i < |paths| && PathStrictness(p, c, paths[i]) == p.Strictness(c, paths)
  {
    hide Under, AutonomyPolicy.Classify;
    ClassifyExactly(p, c, paths);
    var i := StrictestPath(p, c, paths);
  }

  lemma {:induction false} JoinNonempty(policy: AutonomyPolicy, c: string, p: seq<string>, q: seq<string>)
    requires p != [] && q != []
    ensures policy.Strictness(c, p + q) == Max(policy.Strictness(c, p), policy.Strictness(c, q))
  {
    StrictestPathDecides(policy, c, p);
    StrictestPathDecides(policy, c, q);
    StrictestPathDecides(policy, c, p + q);
    var i :| 0 <= i < |p| && PathStrictness(policy, c, p[i]) == policy.Strictness(c, p);
    var j :| 0 <= j < |q| && PathStrictness(policy, c, q[j]) == policy.Strictness(c, q);
    assert (p + q)[i] == p[i] && (p + q)[|p| + j] == q[j];
    var k :| 0 <= k < |p + q| && PathStrictness(policy, c, (p + q)[k]) == policy.Strictness(c, p + q);
    assert if k < |p| then (p + q)[k] == p[k] else (p + q)[k] == q[k - |p|];
  }

  /** The class is an automatic one, and every path lies under a low-risk and no blocked prefix. */
  ghost predicate AllClear(policy: AutonomyPolicy, c: string, paths: seq<string>) {
    && c in policy.autoPatchClasses && c !in policy.prOnlyClasses && c !in policy.blockedClasses
    && !AnyBlocked(policy, paths) && AllLowRisk(policy, paths)
  }

  /** An empty change is never patched automatically, so it is stricter than one that is all clear, and no
      stricter than any other. */
  lemma JoinEmpty(policy: AutonomyPolicy, c: string, q: seq<string>)
    ensures policy.Strictness(c, q) == Max(policy.Strictness(c, []), policy.Strictness(c, q))
       <==> !(q != [] && AllClear(policy, c, q))
  {
    hide Under, AutonomyPolicy.Classify;
    ClassifyExactly(policy, c, q);
    ClassifyExactly(policy, c, []);
  }

  /** Classification is a join on changes, except in one case: exactly one of the changes is empty, the
      class is an automatic one and every path is low-risk and not blocked. */
  lemma ClassifyIsJoin(policy: AutonomyPolicy, c: string, p: seq<string>, q: seq<string>)
    ensures policy.Strictness(c, p + q) == Max(policy.Strictness(c, p), policy.Strictness(c, q))
       <==> !((p == []) != (q == []) && AllClear(policy, c, p + q))
  {
    if p != [] && q != [] {
      JoinNonempty(policy, c, p, q);
    } else if p == [] {
      assert p + q == q;
      JoinEmpty(policy, c, q);
    } else {
      assert p + q == p;
      JoinEmpty(policy, c, p);
    }
  }

  lemma SameBlocked(policy: AutonomyPolicy, p: seq<string>, q: seq<string>)
    requires forall s :: s in p ==> s in q
    ensures (exists i :: 0 <= i < |p| && policy.IsBlockedPath(p[i]))
        ==> (exists i :: 0 <= i < |q| && policy.IsBlockedPath(q[i]))
  {
    if i :| 0 <= i < |p| && policy.IsBlockedPath(p[i]) {
      assert p[i] in q;
    }
  }

  /** The decision depends on the set of paths only: order and repetition do not matter. */
  lemma ClassifyDependsOnSet(policy: AutonomyPolicy, c: string, p: seq<string>, q: seq<string>)
    requires forall s :: s in p <==> s in q
    ensures policy.Classify(c, p) == policy.Classify(c, q)
  {
    assert p == [] <==> q == [] by {
      assert p != [] ==> p[0] in q;
      assert q != [] ==> q[0] in p;
    }
    SameBlocked(policy, p, q);
    SameBlocked(policy, q, p);
    assert policy.WithinLowRisk(p) <==> policy.WithinLowRisk(q) by {
      assert policy.WithinLowRisk(p) <==> p != [] && forall s :: s in p ==> policy.IsLowRisk(s);
      assert policy.WithinLowRisk(q) <==> q != [] && forall s :: s in q ==> policy.IsLowRisk(s);
    }
  }

  /** Adding paths to a nonempty change never loosens the decision. */
  lemma MorePathsNeverLoosen(policy: AutonomyPolicy, c: string, p: seq<string>, extra: seq<string>)
    requires p != []
    ensures policy.Strictness(c, p + extra) >= policy.Strictness(c, p)
  {
    ClassifyIsJoin(policy, c, p, extra);
    if extra == [] {
      assert p + extra == p;
    }
  }

  /** `q` protects at least what `p` protects and allows at most what `p` allows. */
  ghost predicate AtLeastAsTight(p: AutonomyPolicy, q: AutonomyPolicy) {
    p.blockedClasses <= q.blockedClasses && p.prOnlyClasses <= q.prOnlyClasses
    && q.autoPatchClasses <= p.autoPatchClasses
    && (forall s :: s in p.blockedPrefixes ==> s in q.blockedPrefixes)
    && (forall s :: s in q.lowRiskPrefixes ==> s in p.lowRiskPrefixes)
  }

  /** Tightening the policy never loosens a decision, for any change. */
  lemma TighterPolicyNeverLoosens(p: AutonomyPolicy, q: AutonomyPolicy, c: string, paths: seq<string>)
    requires AtLeastAsTight(p, q)
    ensures q.Strictness(c, paths) >= p.Strictness(c, paths)
  {
    forall path
      ensures p.IsBlockedPath(path) ==> q.IsBlockedPath(path)
      ensures q.IsLowRisk(path) ==> p.IsLowRisk(path)
    {
      if i :| 0 <= i < |p.blockedPrefixes| && p.blockedPrefixes[i] <= path {
        assert p.blockedPrefixes[i] in q.blockedPrefixes;
      }
      if i :| 0 <= i < |q.lowRiskPrefixes| && q.lowRiskPrefixes[i] <= path {
        assert q.lowRiskPrefixes[i] in p.lowRiskPrefixes;
      }
    }
    if i :| 0 <= i < |paths| && p.IsBlockedPath(paths[i]) {
      assert q.IsBlockedPath(paths[i]);
    }
  }
}
