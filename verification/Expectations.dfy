/** Controller expectations (pkg/controller/controller_utils.go): the counters a controller waits on,
    and the UIDs that keep a deletion from being counted twice. */
module Expectations {

  /** What one controller still expects to see. */
  datatype Counters = Counters(add: int, del: int)

  predicate Fulfilled(c: Counters) { c.add <= 0 && c.del <= 0 }

  // ---- The objects ----

  class ControllerExpectations {
    var store: map<string, Counters>

    constructor ()
      ensures store == map[]
    {
      store := map[];
    }

    method SetExpectations(key: string, add: int, del: int)
      modifies this
      ensures store == old(store)[key := Counters(add, del)]
    {
      store := store[key := Counters(add, del)];
    }

    method ExpectCreations(key: string, adds: int)
      modifies this
      ensures store == old(store)[key := Counters(adds, 0)]
    {
      SetExpectations(key, adds, 0);
    }

    method ExpectDeletions(key: string, dels: int)
      modifies this
      ensures store == old(store)[key := Counters(0, dels)]
    {
      SetExpectations(key, 0, dels);
    }

    method LowerExpectations(key: string, add: int, del: int)
      modifies this
      ensures store == if key in old(store)
                       then old(store)[key := Counters(old(store)[key].add - add, old(store)[key].del - del)]
                       else old(store)
    {
      if key in store {
        store := store[key := Counters(store[key].add - add, store[key].del - del)];
      }
    }

    method DeleteExpectations(key: string)
      modifies this
      ensures store == old(store) - {key}
    {
      if key in store {
        store := store - {key};
      }
    }

    /** Whether the controller may sync; `expired` is whether its expectations have timed out. */
    method SatisfiedExpectations(key: string, expired: bool) returns (satisfied: bool)
      ensures !satisfied <==> key in store && !Fulfilled(store[key]) && !expired
    {
      if key in store {
        if Fulfilled(store[key]) {
          return true;
        }
        return expired;
      }
      return true;
    }
  }

  class UIDTrackingControllerExpectations {
    const inner: ControllerExpectations
    var uidStore: map<string, set<string>>

    constructor (inner: ControllerExpectations)
      ensures this.inner == inner && uidStore == map[]
    {
      this.inner := inner;
      uidStore := map[];
    }

    ghost function Now(): State
      reads this, inner
    {
      State(inner.store, uidStore, Idle, map[])
    }

    method ExpectDeletions(rcKey: string, deletedKeys: seq<string>)
      modifies this, inner
      ensures Now() == Run(old(Now()), ExpectDeletionsSteps(rcKey, set k | k in deletedKeys))
    {
      var expectedUIDs: set<string> := {};
      for i := 0 to |deletedKeys|
        invariant expectedUIDs == set k | k in deletedKeys[..i]
      {
        expectedUIDs := expectedUIDs + {deletedKeys[i]};
      }
      assert deletedKeys[..|deletedKeys|] == deletedKeys;
      RunTwo(Now(), BeginExpectDeletions(rcKey, expectedUIDs), FinishExpectDeletions);
      uidStore := uidStore[rcKey := expectedUIDs];
      inner.ExpectDeletions(rcKey, |expectedUIDs|);
    }

    method DeletionObserved(rcKey: string, deleteKey: string)
      modifies this, inner
      ensures Now() == Run(old(Now()), DeletionObservedSteps(rcKey, deleteKey))
    {
      RunFour(Now(), CheckUID(rcKey, deleteKey), FetchCounters, LowerDel, FinishDeletionObserved);
      if rcKey in uidStore && deleteKey in uidStore[rcKey] {
        inner.LowerExpectations(rcKey, 0, 1);
        uidStore := uidStore[rcKey := uidStore[rcKey] - {deleteKey}];
      }
    }

    method DeleteExpectations(rcKey: string)
      modifies this, inner
      ensures Now() == Run(old(Now()), DeleteExpectationsSteps(rcKey))
    {
      RunThree(Now(), BeginDeleteExpectations(rcKey), DropCounters, FinishDeleteExpectations);
      inner.DeleteExpectations(rcKey);
      if rcKey in uidStore {
        uidStore := uidStore - {rcKey};
      }
    }

    method ExpectCreations(rcKey: string, adds: int)
      modifies inner
      ensures Now() == Run(old(Now()), [ReplaceCounters(rcKey, adds)])
    {
      RunOne(Now(), ReplaceCounters(rcKey, adds));
      inner.ExpectCreations(rcKey, adds);
    }

    method CreationObserved(rcKey: string)
      modifies inner
      ensures Now() == Run(old(Now()), CreationObservedSteps(0, rcKey))
    {
      RunTwo(Now(), FetchForCreation(0, rcKey), LowerAdd(0));
      inner.LowerExpectations(rcKey, 1, 0);
    }
  }

  // ---- The same operations as the atomic steps concurrent callers interleave ----

  /** The operation that holds the UID lock, and how far it has come. `holds` says whether the
      counters it fetched are still the ones in the store, `found` whether there were any. */
  datatype Operation =
    | Idle
    | ExpectingDeletions(key: string, uids: set<string>)
    | Checked(key: string, uid: string)
    | Holding(key: string, uid: string, holds: bool)
    | Observed(key: string, uid: string)
    | Dropping(key: string, found: bool)
    | Forgetting(key: string)

  /** Counters that an observer of a creation has fetched, and whether they are still in the store. */
  datatype Fetched = Fetched(key: string, holds: bool)

  datatype State = State(exps: map<string, Counters>, uids: map<string, set<string>>, op: Operation,
                         observers: map<int, Fetched>)

  datatype Step =
    | BeginExpectDeletions(key: string, uids: set<string>)
    | FinishExpectDeletions
    | CheckUID(key: string, uid: string)
    | FetchCounters
    | LowerDel
    | FinishDeletionObserved
    | BeginDeleteExpectations(key: string)
    | DropCounters
    | FinishDeleteExpectations
    | ReplaceCounters(key: string, adds: int)
    | FetchForCreation(observer: int, key: string)
    | LowerAdd(observer: int)

  /** Steps of a locked operation happen in order; the last three take no lock, and any number of
      observers may be between their two. */
  predicate Enabled(s: State, step: Step) {
    match step
    case BeginExpectDeletions(_, _) => s.op.Idle?
    case FinishExpectDeletions => s.op.ExpectingDeletions?
    case CheckUID(_, _) => s.op.Idle?
    case FetchCounters => s.op.Checked?
    case LowerDel => s.op.Holding?
    case FinishDeletionObserved => s.op.Observed?
    case BeginDeleteExpectations(_) => s.op.Idle?
    case DropCounters => s.op.Dropping?
    case FinishDeleteExpectations => s.op.Forgetting?
    case ReplaceCounters(_, _) => true
    case FetchForCreation(t, _) => t !in s.observers
    case LowerAdd(t) => t in s.observers
  }

  function Uids(s: State, key: string): set<string> {
    if key in s.uids then s.uids[key] else {}
  }

  function Del(s: State, key: string): int {
    if key in s.exps then s.exps[key].del else 0
  }

  /** The observers, once the counters of `key` have been replaced or dropped. */
  function Outdated(observers: map<int, Fetched>, key: string): map<int, Fetched> {
    map t | t in observers :: if observers[t].key == key then observers[t].(holds := false) else observers[t]
  }

  /** A step that is not enabled changes nothing. */
  function Next(s: State, step: Step): State {
    if !Enabled(s, step) then s else
    match step
    case BeginExpectDeletions(key, uids) =>
      s.(uids := s.uids[key := uids], op := ExpectingDeletions(key, uids))
    case FinishExpectDeletions =>
      s.(exps := s.exps[s.op.key := Counters(0, |s.op.uids|)], op := Idle, observers := Outdated(s.observers, s.op.key))
    case CheckUID(key, uid) =>
      if uid in Uids(s, key) then s.(op := Checked(key, uid)) else s
    case FetchCounters =>
      s.(op := Holding(s.op.key, s.op.uid, s.op.key in s.exps))
    case LowerDel =>
      var next := s.(op := Observed(s.op.key, s.op.uid));
      if s.op.holds && s.op.key in s.exps
      then next.(exps := s.exps[s.op.key := s.exps[s.op.key].(del := s.exps[s.op.key].del - 1)]) else next
    case FinishDeletionObserved =>
      s.(uids := s.uids[s.op.key := Uids(s, s.op.key) - {s.op.uid}], op := Idle)
    case BeginDeleteExpectations(key) =>
      s.(op := Dropping(key, key in s.exps))
    case DropCounters =>
      var next := s.(op := Forgetting(s.op.key));
      if s.op.found then next.(exps := s.exps - {s.op.key}, observers := Outdated(s.observers, s.op.key)) else next
    case FinishDeleteExpectations =>
      s.(uids := s.uids - {s.op.key}, op := Idle)
    case ReplaceCounters(key, adds) =>
      var next := s.(exps := s.exps[key := Counters(adds, 0)], observers := Outdated(s.observers, key));
      if s.op.Holding? && s.op.key == key then next.(op := s.op.(holds := false)) else next
    case FetchForCreation(t, key) =>
      if key in s.exps then s.(observers := s.observers[t := Fetched(key, true)]) else s
    case LowerAdd(t) =>
      var next, key := s.(observers := s.observers - {t}), s.observers[t].key;
      if s.observers[t].holds && key in s.exps
      then next.(exps := s.exps[key := s.exps[key].(add := s.exps[key].add - 1)]) else next
  }

  function Run(s: State, steps: seq<Step>): State {
    if steps == [] then s else Next(Run(s, steps[..|steps| - 1]), steps[|steps| - 1])
  }

  function ExpectDeletionsSteps(key: string, uids: set<string>): seq<Step> {
    [BeginExpectDeletions(key, uids), FinishExpectDeletions]
  }

  function DeletionObservedSteps(key: string, uid: string): seq<Step> {
    [CheckUID(key, uid), FetchCounters, LowerDel, FinishDeletionObserved]
  }

  function DeleteExpectationsSteps(key: string): seq<Step> {
    [BeginDeleteExpectations(key), DropCounters, FinishDeleteExpectations]
  }

  function CreationObservedSteps(observer: int, key: string): seq<Step> {
    [FetchForCreation(observer, key), LowerAdd(observer)]
  }

  const START := State(map[], map[], Idle, map[])

  lemma RunOne(s: State, a: Step)
    ensures Run(s, [a]) == Next(s, a)
  {
    assert [a][..0] == [];
  }

  lemma RunTwo(s: State, a: Step, b: Step)
    ensures Run(s, [a, b]) == Next(Next(s, a), b)
  {
    RunOne(s, a);
    assert [a, b][..1] == [a];
  }

  lemma RunThree(s: State, a: Step, b: Step, c: Step)
    ensures Run(s, [a, b, c]) == Next(Next(Next(s, a), b), c)
  {
    RunTwo(s, a, b);
    assert [a, b, c][..2] == [a, b];
  }

  lemma RunFour(s: State, a: Step, b: Step, c: Step, d: Step)
    ensures Run(s, [a, b, c, d]) == Next(Next(Next(Next(s, a), b), c), d)
  {
    RunThree(s, a, b, c);
    assert [a, b, c, d][..3] == [a, b, c];
  }

  // ---- The counter never exceeds the outstanding UIDs ----

  /** How far the count of a key may run ahead of its UIDs: never, except that an observed deletion
      has already been counted before its UID goes. */
  function Slack(s: State, key: string): int {
    if s.op.Observed? && s.op.key == key then |Uids(s, key)| - 1 else |Uids(s, key)|
  }

  /** The key is being given new expectations, or being forgotten. */
  predicate InTransit(s: State, key: string) {
    (s.op.ExpectingDeletions? || s.op.Forgetting?) && s.op.key == key
  }

  /** The UID an operation has checked is still outstanding. */
  predicate OpSound(s: State) {
    && (s.op.Checked? || s.op.Holding? || s.op.Observed? ==> s.op.uid in Uids(s, s.op.key))
    && (s.op.Holding? && !s.op.holds ==> Del(s, s.op.key) <= |Uids(s, s.op.key)| - 1)
    && (s.op.ExpectingDeletions? ==> Uids(s, s.op.key) == s.op.uids)
    && (s.op.Dropping? && !s.op.found ==> Del(s, s.op.key) <= 0)
    && (s.op.Forgetting? ==> Del(s, s.op.key) <= 0)
  }

  ghost predicate Bounded(s: State) {
    OpSound(s) && forall key :: !InTransit(s, key) ==> Del(s, key) <= Slack(s, key)
  }

  lemma CheckedUidCounts(s: State)
    requires OpSound(s)
    ensures s.op.Checked? || s.op.Holding? || s.op.Observed? ==>
              |Uids(s, s.op.key)| >= 1 && |Uids(s, s.op.key) - {s.op.uid}| == |Uids(s, s.op.key)| - 1
  {
  }

  predicate IsObservation(step: Step) { step.FetchForCreation? || step.LowerAdd? }

  /** Observing creations touches neither UIDs nor the counts of deletions. */
  lemma ObservationsLeaveDel(s: State, step: Step, key: string)
    requires IsObservation(step)
    ensures Next(s, step).uids == s.uids && Next(s, step).op == s.op
    ensures Del(Next(s, step), key) == Del(s, key) && Uids(Next(s, step), key) == Uids(s, key)
  {
  }

  lemma BoundedKey(s: State, step: Step, key: string)
    requires Bounded(s) && !IsObservation(step)
    ensures InTransit(Next(s, step), key) || Del(Next(s, step), key) <= Slack(Next(s, step), key)
  {
    hide Outdated;
    assert InTransit(s, key) || Del(s, key) <= Slack(s, key);
    if step.LowerDel? || step.FinishDeletionObserved? || step.ReplaceCounters? {
      BoundedKeyMore(s, step, key);
    } else {
      match step {
        case BeginExpectDeletions(_, _) =>
        case FinishExpectDeletions =>
        case CheckUID(_, _) =>
        case FetchCounters =>
        case BeginDeleteExpectations(_) =>
        case DropCounters =>
        case FinishDeleteExpectations =>
      }
    }
  }

  lemma BoundedKeyMore(s: State, step: Step, key: string)
    requires Bounded(s) && !IsObservation(step)
    requires step.LowerDel? || step.FinishDeletionObserved? || step.ReplaceCounters?
    ensures InTransit(Next(s, step), key) || Del(Next(s, step), key) <= Slack(Next(s, step), key)
  {
    hide Outdated;
    assert InTransit(s, key) || Del(s, key) <= Slack(s, key);
    CheckedUidCounts(s);
    match step {
      case LowerDel =>
      case FinishDeletionObserved =>
      case ReplaceCounters(_, _) =>
    }
  }


  lemma BoundedOp(s: State, step: Step)
    requires Bounded(s) && !IsObservation(step)
    ensures OpSound(Next(s, step))
  {
    hide Outdated;
    assert s.op.Idle? || InTransit(s, s.op.key) || Del(s, s.op.key) <= Slack(s, s.op.key);
    if step.LowerDel? || step.FinishDeletionObserved? || step.ReplaceCounters? {
      BoundedOpMore(s, step);
    } else {
      match step {
        case BeginExpectDeletions(_, _) =>
        case FinishExpectDeletions =>
        case CheckUID(_, _) =>
        case FetchCounters =>
        case BeginDeleteExpectations(_) =>
        case DropCounters =>
        case FinishDeleteExpectations =>
      }
    }
  }

  lemma BoundedOpMore(s: State, step: Step)
    requires Bounded(s) && !IsObservation(step)
    requires step.LowerDel? || step.FinishDeletionObserved? || step.ReplaceCounters?
    ensures OpSound(Next(s, step))
  {
    hide Outdated;
    assert s.op.Idle? || InTransit(s, s.op.key) || Del(s, s.op.key) <= Slack(s, s.op.key);
    CheckedUidCounts(s);
    match step {
      case LowerDel =>
      case FinishDeletionObserved =>
      case ReplaceCounters(_, _) =>
    }
  }


  lemma NextKeepsBounded(s: State, step: Step)
    requires Bounded(s)
    ensures Bounded(Next(s, step))
  {
    var t := Next(s, step);
    if IsObservation(step) {
      forall key ensures t.uids == s.uids && t.op == s.op && Del(t, key) == Del(s, key) && Uids(t, key) == Uids(s, key) {
        ObservationsLeaveDel(s, step, key);
      }
      hide Next, Del, Uids;
      SameCounts(s, t);
    } else {
      hide Next, Slack, Del, OpSound;
      BoundedOp(s, step);
      forall key ensures InTransit(t, key) || Del(t, key) <= Slack(t, key) {
        BoundedKey(s, step, key);
      }
    }
  }

  lemma SameCounts(s: State, t: State)
    requires t.op == s.op && forall key :: Del(t, key) == Del(s, key) && Uids(t, key) == Uids(s, key)
    ensures OpSound(t) == OpSound(s) && OpBalanced(t) == OpBalanced(s)
    ensures forall key :: InTransit(t, key) == InTransit(s, key) && Slack(t, key) == Slack(s, key)
  {
    hide Del, Uids;
  }

  lemma {:induction false} RunsStayBounded(steps: seq<Step>)
    ensures Bounded(Run(START, steps))
  {
    if steps != [] {
      RunsStayBounded(steps[..|steps| - 1]);
      NextKeepsBounded(Run(START, steps[..|steps| - 1]), steps[|steps| - 1]);
    }
  }

  /** In every interleaving, whenever no locked operation is under way, no controller waits for more
      deletions than it has outstanding UIDs. */
  lemma DelNeverExceedsUids(steps: seq<Step>, key: string)
    requires Run(START, steps).op.Idle?
    ensures Del(Run(START, steps), key) <= |Uids(Run(START, steps), key)|
  {
    RunsStayBounded(steps);
  }

  // ---- Both are equal while nothing is clobbered ----

  predicate OpBalanced(s: State) {
    && OpSound(s)
    && (s.op.Holding? ==> s.op.holds)
    && (s.op.Dropping? && !s.op.found ==> Del(s, s.op.key) == 0)
    && (s.op.Forgetting? ==> Del(s, s.op.key) == 0)
  }

  /** Between operations, every controller waits for exactly as many deletions as it has outstanding UIDs; within one,
      for as many as will be right once it is done. */
  ghost predicate Balanced(s: State) {
    OpBalanced(s) && forall key :: !InTransit(s, key) ==> Del(s, key) == Slack(s, key)
  }

  /** The step does not forget deletions that are still being waited for: creations are expected only of a controller
      that waits for no deletion, or whose counters are about to be set or have just been dropped. */
  predicate Harmless(s: State, step: Step) {
    step.ReplaceCounters? ==> InTransit(s, step.key) || Del(s, step.key) <= 0
  }

  lemma BalancedKey(s: State, step: Step, key: string)
    requires Balanced(s) && Harmless(s, step) && !IsObservation(step)
    ensures InTransit(Next(s, step), key) || Del(Next(s, step), key) == Slack(Next(s, step), key)
  {
    hide Outdated;
    assert InTransit(s, key) || Del(s, key) == Slack(s, key);
    if step.LowerDel? || step.FinishDeletionObserved? || step.ReplaceCounters? {
      BalancedKeyMore(s, step, key);
    } else {
      match step {
        case BeginExpectDeletions(_, _) =>
        case FinishExpectDeletions =>
        case CheckUID(_, _) =>
        case FetchCounters =>
        case BeginDeleteExpectations(_) =>
        case DropCounters =>
        case FinishDeleteExpectations =>
      }
    }
  }

  lemma BalancedKeyMore(s: State, step: Step, key: string)
    requires Balanced(s) && Harmless(s, step) && !IsObservation(step)
    requires step.LowerDel? || step.FinishDeletionObserved? || step.ReplaceCounters?
    ensures InTransit(Next(s, step), key) || Del(Next(s, step), key) == Slack(Next(s, step), key)
  {
    hide Outdated;
    assert InTransit(s, key) || Del(s, key) == Slack(s, key);
    CheckedUidCounts(s);
    match step {
      case LowerDel =>
      case FinishDeletionObserved =>
      case ReplaceCounters(_, _) =>
    }
  }


  lemma BalancedOp(s: State, step: Step)
    requires Balanced(s) && Harmless(s, step) && !IsObservation(step)
    ensures OpBalanced(Next(s, step))
  {
    hide Outdated;
    assert s.op.Idle? || InTransit(s, s.op.key) || Del(s, s.op.key) == Slack(s, s.op.key);
    if step.LowerDel? || step.FinishDeletionObserved? || step.ReplaceCounters? {
      BalancedOpMore(s, step);
    } else {
      match step {
        case BeginExpectDeletions(_, _) =>
        case FinishExpectDeletions =>
        case CheckUID(_, _) =>
        case FetchCounters =>
        case BeginDeleteExpectations(_) =>
        case DropCounters =>
        case FinishDeleteExpectations =>
      }
    }
  }

  lemma BalancedOpMore(s: State, step: Step)
    requires Balanced(s) && Harmless(s, step) && !IsObservation(step)
    requires step.LowerDel? || step.FinishDeletionObserved? || step.ReplaceCounters?
    ensures OpBalanced(Next(s, step))
  {
    hide Outdated;
    assert s.op.Idle? || InTransit(s, s.op.key) || Del(s, s.op.key) == Slack(s, s.op.key);
    CheckedUidCounts(s);
    match step {
      case LowerDel =>
      case FinishDeletionObserved =>
      case ReplaceCounters(_, _) =>
    }
  }


  /** From a balanced state, a step leads to a balanced state if and only if it is harmless. */
  lemma NextIsBalancedIffHarmless(s: State, step: Step)
    requires Balanced(s)
    ensures Balanced(Next(s, step)) <==> Harmless(s, step)
  {
    var t := Next(s, step);
    if IsObservation(step) {
      forall key ensures t.uids == s.uids && t.op == s.op && Del(t, key) == Del(s, key) && Uids(t, key) == Uids(s, key) {
        ObservationsLeaveDel(s, step, key);
      }
      hide Next, Del, Uids;
      SameCounts(s, t);
    } else if Harmless(s, step) {
      hide Next, Slack, Del, OpSound, OpBalanced, Harmless;
      BalancedOp(s, step);
      forall key ensures InTransit(Next(s, step), key) || Del(Next(s, step), key) == Slack(Next(s, step), key) {
        BalancedKey(s, step, key);
      }
    } else {
      HarmUnbalances(s, step.key, step.adds);
    }
  }

  lemma HarmUnbalances(s: State, key: string, adds: int)
    requires Balanced(s) && !Harmless(s, ReplaceCounters(key, adds))
    ensures !Balanced(Next(s, ReplaceCounters(key, adds)))
  {
    var t := Next(s, ReplaceCounters(key, adds));
    assert !InTransit(t, key) && Del(s, key) == Slack(s, key) == Slack(t, key) && Del(t, key) == 0;
  }

  ghost predicate AllBalanced(steps: seq<Step>) {
    forall i :: 0 <= i <= |steps| ==> Balanced(Run(START, steps[..i]))
  }

  ghost predicate AllHarmless(steps: seq<Step>) {
    forall i :: 0 <= i < |steps| ==> Harmless(Run(START, steps[..i]), steps[i])
  }

  /** In every interleaving: the counts agree all along the run if and only if every step of it is harmless. */
  lemma {:induction false} BalancedIffHarmless(steps: seq<Step>)
    ensures AllBalanced(steps) <==> AllHarmless(steps)
  {
    hide Balanced, Harmless, Next;
    if steps == [] {
      StartIsBalanced();
      assert forall i :: 0 <= i <= |steps| ==> steps[..i] == [];
    } else {
      var n := |steps| - 1;
      var front := steps[..n];
      assert forall i :: 0 <= i <= n ==> front[..i] == steps[..i];
      assert forall i :: 0 <= i < n ==> front[i] == steps[i];
      BalancedIffHarmless(front);
      assert steps[..n + 1] == steps;
      if AllBalanced(front) {
        assert Balanced(Run(START, front[..n]));
        NextIsBalancedIffHarmless(Run(START, front), steps[n]);
        BalancedSnoc(steps);
        HarmlessSnoc(steps);
      } else {
        BalancedSnoc(steps);
        HarmlessSnoc(steps);
      }
    }
  }

  lemma BalancedSnoc(steps: seq<Step>)
    requires steps != []
    ensures AllBalanced(steps) <==> AllBalanced(steps[..|steps| - 1]) && Balanced(Run(START, steps))
  {
    hide Balanced, Run;
    var front := steps[..|steps| - 1];
    assert steps[..|steps|] == steps;
    if AllBalanced(steps) {
      forall i | 0 <= i <= |front| ensures Balanced(Run(START, front[..i])) {
        assert front[..i] == steps[..i];
      }
    }
    if AllBalanced(front) && Balanced(Run(START, steps)) {
      forall i | 0 <= i <= |steps| ensures Balanced(Run(START, steps[..i])) {
        if i <= |front| { assert steps[..i] == front[..i]; } else { assert steps[..i] == steps; }
      }
    }
  }

  lemma HarmlessSnoc(steps: seq<Step>)
    requires steps != []
    ensures AllHarmless(steps) <==>
              AllHarmless(steps[..|steps| - 1]) && Harmless(Run(START, steps[..|steps| - 1]), steps[|steps| - 1])
  {
    hide Harmless, Run;
    var front := steps[..|steps| - 1];
    assert forall i :: 0 <= i < |front| ==> front[..i] == steps[..i] && front[i] == steps[i];
    if AllHarmless(steps) {
      forall i | 0 <= i < |front| ensures Harmless(Run(START, front[..i]), front[i]) {
        assert Harmless(Run(START, steps[..i]), steps[i]);
      }
    }
  }

  lemma StartIsBalanced()
    ensures Balanced(START)
  {
  }

  /** In every harmless interleaving, whenever no locked operation is under way, a controller waits
      for exactly as many deletions as it has outstanding UIDs. */
  lemma DelEqualsUids(steps: seq<Step>, key: string)
    requires AllHarmless(steps) && Run(START, steps).op.Idle?
    ensures Del(Run(START, steps), key) == |Uids(Run(START, steps), key)|
  {
    BalancedIffHarmless(steps);
    assert steps[..|steps|] == steps;
    assert Balanced(Run(START, steps[..|steps|]));
  }

  /** New expectations are only set for a controller whose old ones are fulfilled or gone. */
  predicate Disciplined(s: State, step: Step) {
    (step.BeginExpectDeletions? && Enabled(s, step)) || step.ReplaceCounters? ==>
      step.key !in s.exps || Fulfilled(s.exps[step.key])
  }

  /** Setting new expectations only after the old ones were fulfilled is enough. */
  lemma DisciplineIsEnough(steps: seq<Step>)
    requires forall i :: 0 <= i < |steps| ==> Disciplined(Run(START, steps[..i]), steps[i])
    ensures AllHarmless(steps)
  {
    forall i | 0 <= i < |steps| ensures Harmless(Run(START, steps[..i]), steps[i]) {
      assert Disciplined(Run(START, steps[..i]), steps[i]);
    }
  }

  /** It is not necessary: creations can be expected again before the last ones were seen. */
  lemma DisciplineIsNotNecessary(key: string)
    ensures var steps := [ReplaceCounters(key, 1), ReplaceCounters(key, 2)];
            AllHarmless(steps) && !Disciplined(Run(START, steps[..1]), steps[1])
  {
    var steps := [ReplaceCounters(key, 1), ReplaceCounters(key, 2)];
    RunOne(START, steps[0]);
    assert steps[..0] == [] && steps[..1] == [steps[0]];
    assert Harmless(Run(START, steps[..0]), steps[0]) && Harmless(Run(START, steps[..1]), steps[1]);
  }

  /** A harmful step parts the two: new creations forget the deletions, not their UIDs. */
  lemma ClobberingLeavesUids(key: string, uid: string)
    ensures var s := Run(START, [BeginExpectDeletions(key, {uid}), FinishExpectDeletions, ReplaceCounters(key, 1)]);
            s.op.Idle? && Del(s, key) == 0 && |Uids(s, key)| == 1
  {
    RunTwo(START, BeginExpectDeletions(key, {uid}), FinishExpectDeletions);
    var steps := [BeginExpectDeletions(key, {uid}), FinishExpectDeletions, ReplaceCounters(key, 1)];
    assert steps[..2] == [BeginExpectDeletions(key, {uid}), FinishExpectDeletions];
  }

  /** A second sighting of the same UID changes nothing. */
  lemma SecondSightingIsIgnored(s: State, key: string, uid: string)
    requires s.op.Idle?
    ensures var once := Run(s, DeletionObservedSteps(key, uid));
            once.op.Idle? && Run(once, DeletionObservedSteps(key, uid)) == once
  {
    RunFour(s, CheckUID(key, uid), FetchCounters, LowerDel, FinishDeletionObserved);
    RunFour(Run(s, DeletionObservedSteps(key, uid)), CheckUID(key, uid), FetchCounters, LowerDel, FinishDeletionObserved);
  }

  // ---- When a controller is released ----

  /** The step gives `key` other counters, or takes them away. */
  predicate Resets(s: State, step: Step, key: string) {
    || (step.ReplaceCounters? && step.key == key)
    || (step.FinishExpectDeletions? && s.op.ExpectingDeletions? && s.op.key == key)
    || (step.DropCounters? && s.op.Dropping? && s.op.found && s.op.key == key)
  }

  ghost predicate NoneResets(s: State, steps: seq<Step>, key: string) {
    forall i :: 0 <= i < |steps| ==> !Resets(Run(s, steps[..i]), steps[i], key)
  }

  /** The observer holds the counters of `key` that are in the store. */
  predicate HasCounters(s: State, observer: int, key: string) {
    observer in s.observers && s.observers[observer] == Fetched(key, true)
  }

  lemma OneStepCountsDown(s: State, step: Step, key: string)
    requires key in s.exps && !Resets(s, step, key)
    ensures var t := Next(s, step);
            && key in t.exps && t.exps[key].del <= s.exps[key].del
            && t.exps[key].add == s.exps[key].add - if step.LowerAdd? && HasCounters(s, step.observer, key) then 1 else 0
  {
    hide Outdated;
  }

  /** Counters that are not reset are only lowered. */
  lemma {:induction false} CountersGoDown(s: State, steps: seq<Step>, key: string)
    requires key in s.exps && NoneResets(s, steps, key)
    ensures var t := Run(s, steps); key in t.exps && t.exps[key].add <= s.exps[key].add && t.exps[key].del <= s.exps[key].del
  {
    hide Next, Resets;
    if steps != [] {
      var n := |steps| - 1;
      NoneResetsBefore(s, steps, key, n);
      CountersGoDown(s, steps[..n], key);
      OneStepCountsDown(Run(s, steps[..n]), steps[n], key);
    }
  }

  /** The observer has fetched the counters of `key` in the course of these steps, and not lowered them yet. */
  ghost predicate FetchedSince(s: State, steps: seq<Step>, observer: int, key: string) {
    exists j :: 0 <= j < |steps| && steps[j] == FetchForCreation(observer, key) && observer !in Run(s, steps[..j]).observers
      && forall k :: j < k < |steps| ==> steps[k] != LowerAdd(observer)
  }

  /** How many creations were observed in the course of these steps, from fetching the counters to lowering them. */
  ghost function Sightings(s: State, steps: seq<Step>, key: string): nat {
    if steps == [] then 0
    else
      var front, last := steps[..|steps| - 1], steps[|steps| - 1];
      Sightings(s, front, key) + if last.LowerAdd? && FetchedSince(s, front, last.observer, key) then 1 else 0
  }

  /** No observer holds these counters yet. */
  predicate Unfetched(s: State, key: string) { forall t :: t in s.observers ==> !HasCounters(s, t, key) }

  lemma {:induction false} HoldersHaveFetched(s: State, steps: seq<Step>, observer: int, key: string)
    requires key in s.exps && Unfetched(s, key) && NoneResets(s, steps, key)
    ensures HasCounters(Run(s, steps), observer, key) <==> FetchedSince(s, steps, observer, key)
  {
    hide Next, Resets, HasCounters;
    if steps == [] {
      NoHolderYet(s, observer, key);
    } else {
      var n := |steps| - 1;
      var front, last := steps[..n], steps[n];
      NoneResetsBefore(s, steps, key, n);
      HoldersHaveFetched(s, front, observer, key);
      CountersGoDown(s, front, key);
      HolderStep(Run(s, front), last, observer, key);
      FetchedLast(s, front, last, observer, key);
      assert front + [last] == steps;
    }
  }

  lemma NoHolderYet(s: State, observer: int, key: string)
    requires Unfetched(s, key)
    ensures !HasCounters(s, observer, key)
  {
  }

  lemma HolderStep(s: State, step: Step, observer: int, key: string)
    requires key in s.exps && !Resets(s, step, key)
    ensures HasCounters(Next(s, step), observer, key) <==>
              || (step == FetchForCreation(observer, key) && observer !in s.observers)
              || (HasCounters(s, observer, key) && step != LowerAdd(observer))
  {
  }

  lemma FetchedLast(s: State, front: seq<Step>, last: Step, observer: int, key: string)
    ensures FetchedSince(s, front + [last], observer, key) <==>
              || (last == FetchForCreation(observer, key) && observer !in Run(s, front).observers)
              || (FetchedSince(s, front, observer, key) && last != LowerAdd(observer))
  {
    hide Run;
    var steps, n := front + [last], |front|;
    assert steps[..n] == front && steps[n] == last;
    assert forall j :: 0 <= j < n ==> steps[..j] == front[..j] && steps[j] == front[j];
    if FetchedSince(s, steps, observer, key) { FetchedEarlier(s, front, last, observer, key); }
    if FetchedSince(s, front, observer, key) && last != LowerAdd(observer) {
      var j :| 0 <= j < n && front[j] == FetchForCreation(observer, key) && observer !in Run(s, front[..j]).observers
        && forall k :: j < k < n ==> front[k] != LowerAdd(observer);
      assert steps[j] == FetchForCreation(observer, key) && observer !in Run(s, steps[..j]).observers;
      assert forall k :: j < k < |steps| ==> steps[k] != LowerAdd(observer);
    }
  }

  lemma FetchedEarlier(s: State, front: seq<Step>, last: Step, observer: int, key: string)
    requires FetchedSince(s, front + [last], observer, key)
    ensures || (last == FetchForCreation(observer, key) && observer !in Run(s, front).observers)
            || (FetchedSince(s, front, observer, key) && last != LowerAdd(observer))
  {
    hide Run;
    var steps, n := front + [last], |front|;
    assert steps[..n] == front && steps[n] == last;
    assert forall j :: 0 <= j < n ==> steps[..j] == front[..j] && steps[j] == front[j];
    if FetchedSince(s, steps, observer, key) {
      var j :| 0 <= j < |steps| && steps[j] == FetchForCreation(observer, key) && observer !in Run(s, steps[..j]).observers
        && forall k :: j < k < |steps| ==> steps[k] != LowerAdd(observer);
      if j < n {
        assert steps[n] != LowerAdd(observer);
        assert front[j] == FetchForCreation(observer, key) && observer !in Run(s, front[..j]).observers;
        assert forall k :: j < k < n ==> front[k] == steps[k] != LowerAdd(observer);
      }
    }
  }

  /** The count of creations goes down by one for each that is observed from now on. */
  lemma {:induction false} SightingsCountDown(s: State, steps: seq<Step>, key: string)
    requires key in s.exps && Unfetched(s, key) && NoneResets(s, steps, key)
    ensures var t := Run(s, steps); key in t.exps && t.exps[key].add == s.exps[key].add - Sightings(s, steps, key)
  {
    hide Next, Resets, HasCounters, FetchedSince;
    if steps != [] {
      var n := |steps| - 1;
      NoneResetsBefore(s, steps, key, n);
      SightingsCountDown(s, steps[..n], key);
      OneStepCountsDown(Run(s, steps[..n]), steps[n], key);
      if steps[n].LowerAdd? { HoldersHaveFetched(s, steps[..n], steps[n].observer, key); }
    }
  }

  /** A controller that expects n creations, and is given no other expectations, is released exactly when n of them
      have been observed since; observers that fetched earlier counters do not count. */
  lemma ReleasedWhenAllSeen(s: State, key: string, n: int, steps: seq<Step>)
    requires NoneResets(Next(s, ReplaceCounters(key, n)), steps, key)
    ensures var s1 := Next(s, ReplaceCounters(key, n));
            key in Run(s1, steps).exps && (Fulfilled(Run(s1, steps).exps[key]) <==> Sightings(s1, steps, key) >= n)
  {
    var s1 := Next(s, ReplaceCounters(key, n));
    SightingsCountDown(s1, steps, key);
    CountersGoDown(s1, steps, key);
  }

  /** A call that observes the deletion of `uid` has taken the lock in the course of these steps. */
  ghost predicate WasObserved(s: State, steps: seq<Step>, key: string, uid: string) {
    exists i :: 0 <= i < |steps| && steps[i] == CheckUID(key, uid) && Run(s, steps[..i]).op.Idle?
  }

  ghost predicate IsUnseen(s: State, steps: seq<Step>, key: string, uids: set<string>, left: set<string>) {
    left <= uids && forall uid :: uid in uids ==> (uid in left <==> !WasObserved(s, steps, key, uid))
  }

  /** An operation under way will replace or drop the counters of `key` before it lets go of the lock. */
  predicate WillReset(s: State, key: string) {
    (s.op.ExpectingDeletions? || (s.op.Dropping? && s.op.found)) && s.op.key == key
  }

  /** `key` is waiting for the deletion of `left`; a deletion being observed is no longer among them. */
  predicate WaitsFor(s: State, key: string, left: set<string>) {
    && key in s.exps
    && (|| WillReset(s, key)
        || if s.op.Idle? || s.op.key != key then Uids(s, key) == left && Del(s, key) == |left|
           else
             && (s.op.Checked? || (s.op.Holding? && s.op.holds) || s.op.Observed?) && s.op.uid !in left
             && Uids(s, key) == left + {s.op.uid} && Del(s, key) == |left| + if s.op.Observed? then 0 else 1)
  }

  /** Those still waited for after the step. */
  function LeftAfter(s: State, step: Step, key: string, left: set<string>): set<string> {
    if step.CheckUID? && step.key == key && s.op.Idle? then left - {step.uid} else left
  }

  lemma WaitsForObserved(s: State, step: Step, key: string, left: set<string>)
    requires WaitsFor(s, key, left) && IsObservation(step)
    ensures WaitsFor(Next(s, step), key, left)
  {
    ObservationsLeaveDel(s, step, key);
    OneStepCountsDown(s, step, key);
  }

  lemma WaitsForCheck(s: State, uid: string, k: string, key: string, left: set<string>)
    requires WaitsFor(s, key, left)
    ensures WaitsFor(Next(s, CheckUID(k, uid)), key, LeftAfter(s, CheckUID(k, uid), key, left))
  {
    assert uid !in left ==> left - {uid} == left;
    assert uid in left ==> left - {uid} + {uid} == left;
  }

  lemma WaitsForLower(s: State, step: Step, key: string, left: set<string>)
    requires WaitsFor(s, key, left) && (step.FetchCounters? || step.LowerDel?)
    ensures WaitsFor(Next(s, step), key, left)
  {
  }

  lemma WaitsForFinish(s: State, key: string, left: set<string>)
    requires WaitsFor(s, key, left)
    ensures WaitsFor(Next(s, FinishDeletionObserved), key, left)
  {
    if s.op.Observed? && s.op.uid !in left { assert left + {s.op.uid} - {s.op.uid} == left; }
  }

  lemma WaitsForBegin(s: State, step: Step, key: string, left: set<string>)
    requires WaitsFor(s, key, left) && (step.BeginExpectDeletions? || step.BeginDeleteExpectations?)
    ensures WaitsFor(Next(s, step), key, left)
  {
  }

  lemma WaitsForOthers(s: State, step: Step, key: string, left: set<string>)
    requires WaitsFor(s, key, left) && !Resets(s, step, key)
    requires step.FinishExpectDeletions? || step.DropCounters? || step.FinishDeleteExpectations?
    ensures WaitsFor(Next(s, step), key, left)
  {
    hide Outdated;
  }

  lemma WaitsForReplaced(s: State, k: string, adds: int, key: string, left: set<string>)
    requires WaitsFor(s, key, left) && k != key
    ensures WaitsFor(Next(s, ReplaceCounters(k, adds)), key, left)
  {
    hide Next, Outdated;
    ReplacingIs(s, k, adds);
  }

  lemma ReplacingIs(s: State, k: string, adds: int)
    ensures var t := Next(s, ReplaceCounters(k, adds));
            && t.exps == s.exps[k := Counters(adds, 0)] && t.uids == s.uids
            && t.op == if s.op.Holding? && s.op.key == k then s.op.(holds := false) else s.op
  {
    hide Outdated;
  }

  lemma WaitsForStep(s: State, step: Step, key: string, left: set<string>)
    requires WaitsFor(s, key, left) && !Resets(s, step, key)
    ensures WaitsFor(Next(s, step), key, LeftAfter(s, step, key, left))
  {
    hide WaitsFor, Next, Resets;
    match step
    case CheckUID(k, uid) => WaitsForCheck(s, uid, k, key, left);
    case FetchCounters => WaitsForLower(s, step, key, left);
    case LowerDel => WaitsForLower(s, step, key, left);
    case FinishDeletionObserved => WaitsForFinish(s, key, left);
    case BeginExpectDeletions(_, _) => WaitsForBegin(s, step, key, left);
    case BeginDeleteExpectations(_) => WaitsForBegin(s, step, key, left);
    case FetchForCreation(_, _) => WaitsForObserved(s, step, key, left);
    case LowerAdd(_) => WaitsForObserved(s, step, key, left);
    case ReplaceCounters(k, adds) =>
      NoResetOf(s, k, adds, key);
      WaitsForReplaced(s, k, adds, key, left);
    case _ => WaitsForOthers(s, step, key, left);
  }

  lemma NoResetOf(s: State, k: string, adds: int, key: string)
    requires !Resets(s, ReplaceCounters(k, adds), key)
    ensures k != key
  {
  }

  lemma ObservedLast(s: State, front: seq<Step>, last: Step, key: string, uid: string)
    ensures WasObserved(s, front + [last], key, uid) <==>
              WasObserved(s, front, key, uid) || (last == CheckUID(key, uid) && Run(s, front).op.Idle?)
  {
    hide Run;
    var steps, n := front + [last], |front|;
    assert steps[..n] == front && steps[n] == last;
    assert forall i :: 0 <= i < n ==> steps[..i] == front[..i] && steps[i] == front[i];
    if WasObserved(s, front, key, uid) {
      var i :| 0 <= i < n && front[i] == CheckUID(key, uid) && Run(s, front[..i]).op.Idle?;
      assert steps[i] == CheckUID(key, uid) && Run(s, steps[..i]).op.Idle?;
    }
  }

  lemma {:induction false} UnseenAreWaitedFor(s: State, key: string, uids: set<string>, steps: seq<Step>)
    returns (left: set<string>)
    requires WaitsFor(s, key, uids) && NoneResets(s, steps, key)
    ensures IsUnseen(s, steps, key, uids, left) && WaitsFor(Run(s, steps), key, left)
  {
    hide Next, WaitsFor, Resets, WasObserved;
    if steps == [] {
      left := uids;
      NothingObserved(s, key);
    } else {
      var n := |steps| - 1;
      var front, last := steps[..n], steps[n];
      NoneResetsBefore(s, steps, key, n);
      var before := UnseenAreWaitedFor(s, key, uids, front);
      left := LeftAfter(Run(s, front), last, key, before);
      WaitsForStep(Run(s, front), last, key, before);
      assert front + [last] == steps;
      forall uid | uid in uids ensures uid in left <==> !WasObserved(s, steps, key, uid) {
        ObservedLast(s, front, last, key, uid);
      }
    }
  }

  lemma NothingObserved(s: State, key: string)
    ensures forall uid :: !WasObserved(s, [], key, uid)
  {
  }

  /** A controller whose deletions of `uids` have just been expected, and that is given no other expectations, is
      released exactly when each of them has been observed since, whatever creations are observed meanwhile. */
  lemma ReleasedWhenAllGone(before: seq<Step>, key: string, uids: set<string>, steps: seq<Step>)
    requires Run(START, before).op == ExpectingDeletions(key, uids)
    requires var s := Next(Run(START, before), FinishExpectDeletions); NoneResets(s, steps, key) && Run(s, steps).op.Idle?
    ensures var s := Next(Run(START, before), FinishExpectDeletions);
            && key in Run(s, steps).exps
            && (Fulfilled(Run(s, steps).exps[key]) <==> forall uid :: uid in uids ==> WasObserved(s, steps, key, uid))
  {
    hide WasObserved, Resets;
    RunsStayBounded(before);
    var s := Next(Run(START, before), FinishExpectDeletions);
    assert WaitsFor(s, key, uids);
    var left := UnseenAreWaitedFor(s, key, uids, steps);
    CountersGoDown(s, steps, key);
    assert left == {} <==> forall uid :: uid in uids ==> uid !in left;
  }

  /** Nothing is known about `key`, except that it may be about to be given new expectations. */
  predicate Forgotten(s: State, key: string) {
    && key !in s.exps
    && if s.op.Idle? || s.op.key != key then key !in s.uids
       else s.op.Forgetting? || s.op.ExpectingDeletions? || (s.op.Dropping? && !s.op.found && key !in s.uids)
  }

  lemma ForgottenStep(s: State, step: Step, key: string)
    requires Forgotten(s, key) && !Resets(s, step, key)
    ensures Forgotten(Next(s, step), key)
  {
    hide Outdated;
  }

  /** A controller whose expectations are deleted is not held back until it is given new ones, and once nobody has the
      lock no UID of it is left either. */
  lemma {:induction false} ForgottenUntilExpected(s: State, key: string, found: bool, steps: seq<Step>)
    requires s.op == Dropping(key, found) && (found <==> key in s.exps)
    requires NoneResets(Next(s, DropCounters), steps, key)
    ensures var t := Run(Next(s, DropCounters), steps); key !in t.exps && (t.op.Idle? ==> key !in t.uids)
  {
    StaysForgotten(Next(s, DropCounters), key, steps);
  }

  lemma {:induction false} StaysForgotten(s: State, key: string, steps: seq<Step>)
    requires Forgotten(s, key) && NoneResets(s, steps, key)
    ensures Forgotten(Run(s, steps), key)
  {
    hide Next, Forgotten, Resets;
    if steps != [] {
      var n := |steps| - 1;
      NoneResetsBefore(s, steps, key, n);
      StaysForgotten(s, key, steps[..n]);
      ForgottenStep(Run(s, steps[..n]), steps[n], key);
    }
  }

  // ---- Fulfilled reads two counters one after the other ----

  /** The answer of a reader that loads `add` at the first instant and `del` at the last. */
  predicate ReadFulfilled(adds: seq<int>, dels: seq<int>)
    requires |adds| == |dels| > 0
  {
    adds[0] <= 0 && dels[|dels| - 1] <= 0
  }

  /** The answer is the true one at some instant from the first load to the last. */
  ghost predicate AnswerHolds(adds: seq<int>, dels: seq<int>)
    requires |adds| == |dels| > 0
  {
    exists t :: 0 <= t < |adds| && Fulfilled(Counters(adds[t], dels[t])) == ReadFulfilled(adds, dels)
  }

  /** Whatever becomes of `del` meanwhile: the answer was true at some instant if and only if `add` was positive at the
      first load, or not positive at the last. */
  lemma FulfilledIsLinearizableIff(adds: seq<int>)
    requires |adds| > 0
    ensures (forall dels: seq<int> :: |dels| == |adds| ==> AnswerHolds(adds, dels))
            <==> adds[0] > 0 || adds[|adds| - 1] <= 0
  {
    var last := |adds| - 1;
    if adds[0] > 0 || adds[last] <= 0 {
      forall dels: seq<int> | |dels| == |adds| ensures AnswerHolds(adds, dels) {
        var t := if adds[0] > 0 then 0 else last;
        assert Fulfilled(Counters(adds[t], dels[t])) == ReadFulfilled(adds, dels);
      }
    } else {
      var dels := seq(|adds|, i => if i == last then 0 else 1);
      assert ReadFulfilled(adds, dels);
      assert !AnswerHolds(adds, dels);
    }
  }

  lemma {:induction false} LoweredAllTheWay(adds: seq<int>)
    requires |adds| > 0 && forall k :: 0 <= k < |adds| - 1 ==> adds[k + 1] <= adds[k]
    ensures adds[|adds| - 1] <= adds[0]
  {
    if |adds| > 1 { LoweredAllTheWay(adds[..|adds| - 1]); }
  }

  /** In particular it was true when the counters were only lowered. */
  lemma FulfilledIsLinearizable(adds: seq<int>, dels: seq<int>)
    requires |adds| == |dels| > 0 && forall k :: 0 <= k < |adds| - 1 ==> adds[k + 1] <= adds[k]
    ensures AnswerHolds(adds, dels)
  {
    LoweredAllTheWay(adds);
    FulfilledIsLinearizableIff(adds);
  }

  /** The counters of `key` after t steps. */
  function CountersAfter(s: State, steps: seq<Step>, key: string, t: nat): Counters
    requires t <= |steps|
  {
    var r := Run(s, steps[..t]); if key in r.exps then r.exps[key] else Counters(0, 0)
  }

  /** What a reader of the counters of `key` answers that loads `add` after i steps and `del` after j. */
  predicate ReaderSays(s: State, steps: seq<Step>, key: string, i: nat, j: nat)
    requires i <= j <= |steps|
  {
    CountersAfter(s, steps, key, i).add <= 0 && CountersAfter(s, steps, key, j).del <= 0
  }

  /** In every interleaving that does not reset the counters between, the reader's answer is true of the state after
      some number of steps from its first load to its last. */
  lemma ReaderIsLinearizable(s: State, steps: seq<Step>, key: string, i: nat, j: nat)
    requires key in s.exps && NoneResets(s, steps, key) && i <= j <= |steps|
    ensures forall t :: 0 <= t <= |steps| ==> key in Run(s, steps[..t]).exps
    ensures exists t :: i <= t <= j && Fulfilled(CountersAfter(s, steps, key, t)) == ReaderSays(s, steps, key, i, j)
  {
    hide CountersAfter, Resets, Next;
    forall t | 0 <= t <= |steps| ensures key in Run(s, steps[..t]).exps {
      assert NoneResets(s, steps[..t], key) by { NoneResetsBefore(s, steps, key, t); }
      CountersGoDown(s, steps[..t], key);
    }
    var n := j - i + 1;
    var adds := seq(n, t requires 0 <= t < n => CountersAfter(s, steps, key, i + t).add);
    var dels := seq(n, t requires 0 <= t < n => CountersAfter(s, steps, key, i + t).del);
    forall k | 0 <= k < n - 1 ensures adds[k + 1] <= adds[k] {
      OneMoreStep(s, steps, key, i + k);
    }
    assert adds[0] == CountersAfter(s, steps, key, i).add && dels[n - 1] == CountersAfter(s, steps, key, j).del;
    FulfilledIsLinearizable(adds, dels);
    var t :| 0 <= t < n && Fulfilled(Counters(adds[t], dels[t])) == ReadFulfilled(adds, dels);
    assert Fulfilled(CountersAfter(s, steps, key, i + t)) == ReaderSays(s, steps, key, i, j);
  }

  lemma NoneResetsBefore(s: State, steps: seq<Step>, key: string, t: nat)
    requires t <= |steps| && NoneResets(s, steps, key)
    ensures NoneResets(s, steps[..t], key)
  {
    hide Run, Resets;
    forall i | 0 <= i < t ensures !Resets(Run(s, steps[..t][..i]), steps[..t][i], key) {
      assert steps[..t][..i] == steps[..i];
    }
  }

  lemma OneMoreStep(s: State, steps: seq<Step>, key: string, t: nat)
    requires t < |steps| && key in Run(s, steps[..t]).exps && NoneResets(s, steps, key)
    ensures CountersAfter(s, steps, key, t + 1).add <= CountersAfter(s, steps, key, t).add
  {
    hide Next, Resets;
    assert steps[..t + 1][..t] == steps[..t];
    assert Run(s, steps[..t + 1]) == Next(Run(s, steps[..t]), steps[t]);
    OneStepCountsDown(Run(s, steps[..t]), steps[t], key);
  }

  /** A rise of `add` above zero between the loads breaks it: the reader says yes, and at no instant was it so. */
  lemma RaisingBreaksTheAnswer()
    ensures ReadFulfilled([0, 1, 1], [1, 1, 0]) && !AnswerHolds([0, 1, 1], [1, 1, 0])
  {
  }
}
