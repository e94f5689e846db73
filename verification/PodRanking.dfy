/** The order in which a controller picks pods to delete (pkg/controller/controller_utils.go), with the
    readiness test it relies on (pkg/api/resource_helpers.go). */
module PodRanking {

  /** An instant; 0 is the zero time. */
  type Time = int

  datatype Condition = Condition(kind: string, status: string, lastTransition: Time)

  datatype Pod = Pod(nodeName: string, phase: string, conditions: seq<Condition>, restarts: seq<int>, created: Time)

  // ---- Readiness ----

  /** Index of the first condition of the given kind, or -1. */
  method GetPodCondition(conditions: seq<Condition>, kind: string) returns (index: int)
    ensures index == FirstOfKind(conditions, kind)
  {
    for i := 0 to |conditions|
      invariant FirstOfKind(conditions, kind) == NotBefore(i, FirstOfKind(conditions[i..], kind))
    {
      if conditions[i].kind == kind {
        return i;
      }
      assert conditions[i..][1..] == conditions[i + 1..];
    }
    return -1;
  }

  function NotBefore(i: nat, r: int): int { if r < 0 then -1 else i + r }

  function FirstOfKind(conditions: seq<Condition>, kind: string): (r: int)
    ensures -1 <= r < |conditions|
    ensures r >= 0 ==> conditions[r].kind == kind
    ensures forall i :: 0 <= i < (if r < 0 then |conditions| else r) ==> conditions[i].kind != kind
  {
    if conditions == [] then -1
    else if conditions[0].kind == kind then 0
    else NotBefore(1, FirstOfKind(conditions[1..], kind))
  }

  predicate IsPodReady(p: Pod) {
    var i := FirstOfKind(p.conditions, "Ready");
    i >= 0 && p.conditions[i].status == "True"
  }

  /** The transition time of the first condition that is both of kind Ready and true. */
  function FirstReadyTime(conditions: seq<Condition>): Time {
    if conditions == [] then 0
    else if conditions[0].kind == "Ready" && conditions[0].status == "True" then conditions[0].lastTransition
    else FirstReadyTime(conditions[1..])
  }

  function PodReadyTime(p: Pod): Time {
    if IsPodReady(p) then FirstReadyTime(p.conditions) else 0
  }

  /** The ready time is read from the very condition that readiness was judged on. */
  lemma {:induction false} ReadyTimeIsTheJudgedOne(conditions: seq<Condition>)
    requires FirstOfKind(conditions, "Ready") >= 0 && conditions[FirstOfKind(conditions, "Ready")].status == "True"
    ensures FirstReadyTime(conditions) == conditions[FirstOfKind(conditions, "Ready")].lastTransition
  {
    if conditions[0].kind != "Ready" {
      ReadyTimeIsTheJudgedOne(conditions[1..]);
    }
  }

  // ---- Restarts ----

  function MaxRestarts(restarts: seq<int>): (m: int)
    ensures m >= 0 && (m == 0 || m in restarts) && forall i :: 0 <= i < |restarts| ==> restarts[i] <= m
  {
    if restarts == [] then 0
    else
      var m := MaxRestarts(restarts[..|restarts| - 1]);
      if restarts[|restarts| - 1] > m then restarts[|restarts| - 1] else m
  }

  method MaxContainerRestarts(p: Pod) returns (maxRestarts: int)
    ensures maxRestarts == MaxRestarts(p.restarts)
  {
    maxRestarts := 0;
    for i := 0 to |p.restarts|
      invariant maxRestarts == MaxRestarts(p.restarts[..i])
    {
      assert p.restarts[..i + 1][..i] == p.restarts[..i];
      if p.restarts[i] > maxRestarts {
        maxRestarts := p.restarts[i];
      }
    }
    assert p.restarts[..|p.restarts|] == p.restarts;
  }

  // ---- The comparison ----

  /** Phases that are not listed rank with Pending. */
  function PhaseRank(phase: string): int {
    if phase == "Unknown" then 1 else if phase == "Running" then 2 else 0
  }

  predicate AfterOrZero(t1: Time, t2: Time) {
    if t1 == 0 || t2 == 0 then t1 == 0 else t1 > t2
  }

  predicate Less(p: Pod, q: Pod) {
    if p.nodeName != q.nodeName && (p.nodeName == "" || q.nodeName == "") then p.nodeName == ""
    else if PhaseRank(p.phase) != PhaseRank(q.phase) then PhaseRank(p.phase) < PhaseRank(q.phase)
    else if IsPodReady(p) != IsPodReady(q) then !IsPodReady(p)
    else if IsPodReady(p) && IsPodReady(q) && PodReadyTime(p) != PodReadyTime(q)
      then AfterOrZero(PodReadyTime(p), PodReadyTime(q))
    else if MaxRestarts(p.restarts) != MaxRestarts(q.restarts) then MaxRestarts(p.restarts) > MaxRestarts(q.restarts)
    else if p.created != q.created then AfterOrZero(p.created, q.created)
    else false
  }

  // ---- A key that explains it ----

  /** Zero first, then later before earlier. */
  function TimeKey(t: Time): seq<int> { if t == 0 then [0, 0] else [1, -t] }

  function JudgedReadyTime(p: Pod): Time {
    if IsPodReady(p) then p.conditions[FirstOfKind(p.conditions, "Ready")].lastTransition else 0
  }

  /** Assigned, phase, ready, ready time, restarts, creation time. */
  function Key(p: Pod): (k: seq<int>)
    ensures |k| == 8
  {
    [if p.nodeName == "" then 0 else 1, PhaseRank(p.phase), if IsPodReady(p) then 1 else 0]
    + TimeKey(JudgedReadyTime(p)) + [-MaxRestarts(p.restarts)] + TimeKey(p.created)
  }

  predicate LexLess(a: seq<int>, b: seq<int>)
    requires |a| == |b|
  {
    a != [] && (a[0] < b[0] || (a[0] == b[0] && LexLess(a[1..], b[1..])))
  }

  lemma LexStep(a: seq<int>, b: seq<int>, k: nat)
    requires |a| == |b| && k < |a|
    ensures LexLess(a[k..], b[k..]) <==> a[k] < b[k] || (a[k] == b[k] && LexLess(a[k + 1..], b[k + 1..]))
  {
    assert a[k..][1..] == a[k + 1..] && b[k..][1..] == b[k + 1..];
  }

  /** The first difference decides, from position k on. */
  lemma {:induction false} FirstDifferenceDecides(a: seq<int>, b: seq<int>, k: nat, d: nat)
    requires |a| == |b| && k <= d <= |a| && forall i :: k <= i < d ==> a[i] == b[i]
    requires d == |a| || a[d] != b[d]
    ensures LexLess(a[k..], b[k..]) <==> d < |a| && a[d] < b[d]
    decreases d - k
  {
    if k < |a| {
      LexStep(a, b, k);
      if k < d { FirstDifferenceDecides(a, b, k + 1, d); }
    }
  }

  /** The first position at which the keys of two pods differ, or 8. */
  function FirstDifference(a: seq<int>, b: seq<int>, k: nat): (d: nat)
    requires |a| == |b| && k <= |a|
    ensures k <= d <= |a| && (forall i :: k <= i < d ==> a[i] == b[i]) && (d == |a| || a[d] != b[d])
    decreases |a| - k
  {
    if k == |a| || a[k] != b[k] then k else FirstDifference(a, b, k + 1)
  }

  lemma KeyParts(p: Pod)
    ensures Key(p)[0] == (if p.nodeName == "" then 0 else 1) && Key(p)[1] == PhaseRank(p.phase)
    ensures Key(p)[2] == if IsPodReady(p) then 1 else 0
    ensures Key(p)[3..5] == TimeKey(JudgedReadyTime(p)) && Key(p)[5] == -MaxRestarts(p.restarts)
    ensures Key(p)[6..8] == TimeKey(p.created)
  {
  }

  /** Less is the lexicographic order of the keys. */
  lemma LessComparesKeys(p: Pod, q: Pod)
    ensures Less(p, q) <==> LexLess(Key(p), Key(q))
  {
    hide LexLess, FirstReadyTime, MaxRestarts, FirstOfKind, PhaseRank, Key;
    if IsPodReady(p) { ReadyTimeIsTheJudgedOne(p.conditions); }
    if IsPodReady(q) { ReadyTimeIsTheJudgedOne(q.conditions); }
    var a, b := Key(p), Key(q);
    assert a[0..] == a && b[0..] == b;
    var d := FirstDifference(a, b, 0);
    FirstDifferenceDecides(a, b, 0, d);
    KeyParts(p);
    KeyParts(q);
    assert a[3..5][0] == a[3] && a[3..5][1] == a[4] && a[6..8][0] == a[6] && a[6..8][1] == a[7];
    assert b[3..5][0] == b[3] && b[3..5][1] == b[4] && b[6..8][0] == b[6] && b[6..8][1] == b[7];
  }

  lemma {:induction false} LexIrreflexive(a: seq<int>)
    ensures !LexLess(a, a)
  {
    if a != [] { LexIrreflexive(a[1..]); }
  }

  lemma {:induction false} LexTransitive(a: seq<int>, b: seq<int>, c: seq<int>)
    requires |a| == |b| == |c| && LexLess(a, b) && LexLess(b, c)
    ensures LexLess(a, c)
  {
    if a[0] == b[0] == c[0] { LexTransitive(a[1..], b[1..], c[1..]); }
  }

  lemma {:induction false} LexTotal(a: seq<int>, b: seq<int>)
    requires |a| == |b|
    ensures LexLess(a, b) || LexLess(b, a) || a == b
  {
    if a != [] {
      LexTotal(a[1..], b[1..]);
      assert a == [a[0]] + a[1..] && b == [b[0]] + b[1..];
    }
  }

  predicate Tied(p: Pod, q: Pod) { !Less(p, q) && !Less(q, p) }

  lemma TiedPodsHaveEqualKeys(p: Pod, q: Pod)
    ensures Tied(p, q) <==> Key(p) == Key(q)
  {
    hide Less, Key;
    LessComparesKeys(p, q);
    LessComparesKeys(q, p);
    LexTotal(Key(p), Key(q));
    LexIrreflexive(Key(p));
  }

  /** Less is a strict weak order on all pods: what sorting needs. */
  lemma LessIsAStrictWeakOrder(p: Pod, q: Pod, r: Pod)
    ensures !Less(p, p)
    ensures Less(p, q) && Less(q, r) ==> Less(p, r)
    ensures Tied(p, q) && Tied(q, r) ==> Tied(p, r)
  {
    hide Less, Key;
    LessComparesKeys(p, p);
    LexIrreflexive(Key(p));
    LessComparesKeys(p, q);
    LessComparesKeys(q, r);
    LessComparesKeys(p, r);
    if Less(p, q) && Less(q, r) { LexTransitive(Key(p), Key(q), Key(r)); }
    TiedPodsHaveEqualKeys(p, q);
    TiedPodsHaveEqualKeys(q, r);
    TiedPodsHaveEqualKeys(p, r);
  }

  /** Of two pods that are both assigned, or both not, the one that is neither of unknown phase nor running goes first,
      then the one of unknown phase, then the running one, whatever else they are. */
  lemma PhasesInOrder(p: Pod, q: Pod)
    requires p.nodeName == "" <==> q.nodeName == ""
    ensures p.phase !in {"Unknown", "Running"} && q.phase in {"Unknown", "Running"} ==> Less(p, q) && !Less(q, p)
    ensures p.phase == "Unknown" && q.phase == "Running" ==> Less(p, q) && !Less(q, p)
  {
    hide IsPodReady, PodReadyTime, MaxRestarts, AfterOrZero;
  }
}
