/**
 The admission guard for manual DAG triggers: one advisory lock held over "look for active runs,
 then trigger". Mirrors scripts/safe_trigger_dag.py.
 */
module TriggerGuard {
  import opened Basics

  datatype Dag =
    | WeatherReferenceDataRefresh | WeatherVilageFcstBronze | WeatherVilageFcstCollectionSlotReconciliation
    | WeatherVilageFcstRecollect | WeatherVilageFcstBronzeBackfill | WeatherVilageFcstTransform | WeatherW1ContractSmoke
    | WeatherW2CanonicalTransform | WeatherW2CanonicalContractAudit | WeatherW2ObservationRecovery | WeatherServingExport
    | WeatherBronzeReliabilityReport | IcebergMaintenance
    | TrafficIncidentLanding | TrafficIncidentCollectionSlotReconciliation | TrafficIncidentBronze | TrafficIncidentRecollect
    | TrafficIncidentBronzeBackfill | TrafficFlowBronze | TrafficLinkReferenceBackfill | TrafficLinkReferenceSync
    | TrafficIncidentTransform | TrafficFlowTransform | TrafficGoldTransform | TrafficCrossDomainGoldTransform
    | TrafficCrossDomainServingExport | TrafficSnapshotRecovery | TrafficServingExport | TrafficBronzeReliabilityReport
    | CommonAdminDongBronze
    | Unknown(name: string)

  const WEATHER: set<Dag> := {
    WeatherReferenceDataRefresh, WeatherVilageFcstBronze, WeatherVilageFcstCollectionSlotReconciliation,
    WeatherVilageFcstRecollect, WeatherVilageFcstBronzeBackfill, WeatherVilageFcstTransform, WeatherW1ContractSmoke,
    WeatherW2CanonicalTransform, WeatherW2CanonicalContractAudit, WeatherW2ObservationRecovery, WeatherServingExport,
    WeatherBronzeReliabilityReport, IcebergMaintenance
  }

  const TRAFFIC: set<Dag> := {
    TrafficIncidentLanding, TrafficIncidentCollectionSlotReconciliation, TrafficIncidentBronze, TrafficIncidentRecollect,
    TrafficIncidentBronzeBackfill, TrafficFlowBronze, TrafficLinkReferenceBackfill, TrafficLinkReferenceSync,
    TrafficIncidentTransform, TrafficFlowTransform, TrafficGoldTransform, TrafficCrossDomainGoldTransform,
    TrafficCrossDomainServingExport, TrafficSnapshotRecovery, TrafficServingExport, TrafficBronzeReliabilityReport,
    IcebergMaintenance
  }

  const COMMON: set<Dag> := {CommonAdminDongBronze}

  /** None for a DAG the guard does not know. */
  function ConflictSetFor(dag: Dag): Option<set<Dag>> {
    if dag == IcebergMaintenance then Some(WEATHER + TRAFFIC + COMMON)
    else if dag in COMMON then Some(WEATHER + TRAFFIC + COMMON)
    else if dag in WEATHER then Some(WEATHER + COMMON)
    else if dag in TRAFFIC then Some(TRAFFIC + COMMON)
    else None
  }

  predicate Conflicts(x: Dag, y: Dag) { ConflictSetFor(x).Some? && y in ConflictSetFor(x).value }

  /** Every known DAG conflicts with itself, and exactly the two pure families do not conflict. */
  lemma ConflictShape(x: Dag, y: Dag)
    ensures ConflictSetFor(x).Some? ==> Conflicts(x, x)
    ensures ConflictSetFor(x).Some? && ConflictSetFor(y).Some? ==>
      (!Conflicts(x, y) <==>
        (x in WEATHER - TRAFFIC && y in TRAFFIC - WEATHER) || (x in TRAFFIC - WEATHER && y in WEATHER - TRAFFIC))
  {
    OneDagIsShared(x);
    OneDagIsShared(y);
  }

  lemma OneDagIsShared(x: Dag)
    ensures x in WEATHER && x in TRAFFIC <==> x == IcebergMaintenance
  {
  }

  lemma UnknownNeverConflicts(x: Dag, y: Dag)
    requires ConflictSetFor(y).None?
    ensures !Conflicts(x, y) && !Conflicts(y, x)
  {
  }

  lemma ConflictIsSymmetric(x: Dag, y: Dag)
    ensures Conflicts(x, y) <==> Conflicts(y, x)
  {
    if ConflictSetFor(y).None? {
      UnknownNeverConflicts(x, y);
    } else if ConflictSetFor(x).None? {
      UnknownNeverConflicts(y, x);
    } else {
      ConflictShape(x, y);
      ConflictShape(y, x);
    }
    hide Conflicts, ConflictSetFor;
  }

  /* ---------- N guards, one lock ---------- */

  datatype Pc =
    | Idle
    | Holding(dag: Dag, checkOnly: bool)
    | Clear(dag: Dag, checkOnly: bool)
    | Decided
    | Closing

  /**
   `active` maps each queued or running DAG run to its DAG; `lost` holds the guards whose database
   session has gone, and with it the lock if they held it.
   */
  datatype State = State(lock: Option<nat>, lost: set<nat>, active: map<nat, Dag>, nextRun: nat, guards: seq<Pc>)

  /** What an unlock did and said; the reply can be lost after the lock was given up. */
  datatype Reply = Released | ReplyLost | Refused

  datatype Action =
    | Lock(guard: nat, dag: Dag, checkOnly: bool)
    | Query(guard: nat, fault: bool)
    | Trigger(guard: nat, created: bool)
    | Unlock(guard: nat, reply: Reply)
    | Close(guard: nat)
    | Finish(run: nat)
    | LoseSession(guard: nat)

  predicate Busy(active: map<nat, Dag>, dag: Dag) { exists run :: run in active && Conflicts(dag, active[run]) }

  function Move(s: State, g: nat, pc: Pc): State
    requires g < |s.guards|
  {
    s.(guards := s.guards[g := pc])
  }

  function Freed(s: State, g: nat): State { if s.lock == Some(g) then s.(lock := None) else s }

  /** One atomic step; an action that is not enabled changes nothing. A lost session answers every statement with an error. */
  function Apply(s: State, a: Action): State {
    match a
    case Finish(run) => s.(active := s.active - {run})
    case Lock(g, dag, checkOnly) =>
      if g < |s.guards| && s.guards[g].Idle? && s.lock.None? && ConflictSetFor(dag).Some?
      then Move(s.(lock := Some(g), lost := s.lost - {g}), g, Holding(dag, checkOnly)) else s
    case Query(g, fault) =>
      if g < |s.guards| && s.guards[g].Holding? then
        var pc := s.guards[g];
        Move(s, g, if fault || g in s.lost || Busy(s.active, pc.dag) then Decided else Clear(pc.dag, pc.checkOnly))
      else s
    case Trigger(g, created) =>
      if g < |s.guards| && s.guards[g].Clear? && !s.guards[g].checkOnly then
        var t := if created then s.(active := s.active[s.nextRun := s.guards[g].dag], nextRun := s.nextRun + 1) else s;
        Move(t, g, Decided)
      else s
    case Unlock(g, reply) =>
      if g < |s.guards| && (s.guards[g].Decided? || s.guards[g].Clear?) then
        if reply.Refused? || g in s.lost then Move(s, g, Closing)
        else Move(Freed(s, g), g, if reply.Released? then Idle else Closing)
      else s
    case Close(g) => if g < |s.guards| && s.guards[g].Closing? then Move(Freed(s, g), g, Idle) else s
    case LoseSession(g) => if g < |s.guards| && !s.guards[g].Idle? then Freed(s, g).(lost := s.lost + {g}) else s
  }

  function Run(s: State, actions: seq<Action>): State
    decreases |actions|
  {
    if actions == [] then s else Run(Apply(s, actions[0]), actions[1..])
  }

  /** No two active runs are of DAGs that conflict. */
  ghost predicate Exclusive(active: map<nat, Dag>) {
    forall x, y :: x in active && y in active && x != y ==> !Conflicts(active[x], active[y])
  }

  /** Between a query that found nothing and the trigger that follows it. */
  predicate AboutToTrigger(s: State, g: nat) { g < |s.guards| && s.guards[g].Clear? && !s.guards[g].checkOnly }

  /** What holds whatever sessions are lost: the lock belongs to a guard at work whose session is alive. */
  ghost predicate Plain(s: State) {
    && (s.lock.Some? ==> s.lock.value < |s.guards| && !s.guards[s.lock.value].Idle? && s.lock.value !in s.lost)
    && (forall run :: run in s.active ==> run < s.nextRun)
    && (forall g :: 0 <= g < |s.guards| && (s.guards[g].Holding? || s.guards[g].Clear?) ==> ConflictSetFor(s.guards[g].dag).Some?)
    && (forall g :: 0 <= g < |s.guards| && s.guards[g].Holding? && g !in s.lost ==> s.lock == Some(g))
  }

  ghost predicate Inv(s: State) {
    && Plain(s) && Exclusive(s.active)
    && (forall g :: 0 <= g < |s.guards| && AboutToTrigger(s, g) ==> s.lock == Some(g) && !Busy(s.active, s.guards[g].dag))
  }

  lemma TriggerKeepsExclusive(s: State, g: nat)
    requires Inv(s) && AboutToTrigger(s, g)
    ensures Exclusive(s.active[s.nextRun := s.guards[g].dag])
  {
    var dag := s.guards[g].dag;
    forall run | run in s.active ensures !Conflicts(dag, s.active[run]) && !Conflicts(s.active[run], dag) {
      ConflictIsSymmetric(dag, s.active[run]);
    }
    hide Conflicts;
  }

  /** This step loses a session between a guard's clear query and its trigger. */
  predicate Critical(s: State, a: Action) { a.LoseSession? && AboutToTrigger(s, a.guard) }

  lemma StepKeepsPlain(s: State, a: Action)
    requires Plain(s)
    ensures Plain(Apply(s, a))
  {
    hide ConflictSetFor, Conflicts;
  }

  lemma StepKeepsInv(s: State, a: Action)
    requires Inv(s) && !Critical(s, a)
    ensures Inv(Apply(s, a))
  {
    StepKeepsPlain(s, a);
    hide Conflicts, ConflictSetFor;
    match a {
      case Trigger(g, created) =>
        if AboutToTrigger(s, g) && created { TriggerKeepsExclusive(s, g); }
      case Finish(run) =>
        assert forall dag :: Busy(s.active - {run}, dag) ==> Busy(s.active, dag);
      case _ =>
    }
  }

  /** No session is lost between a guard's clear query and its trigger; any other loss may happen. */
  predicate SessionsHold(s: State, actions: seq<Action>)
    decreases |actions|
  {
    actions == [] || (!Critical(s, actions[0]) && SessionsHold(Apply(s, actions[0]), actions[1..]))
  }

  lemma {:induction false} RunKeepsInv(s: State, actions: seq<Action>)
    requires Inv(s) && SessionsHold(s, actions)
    ensures Inv(Run(s, actions))
    decreases |actions|
  {
    if actions != [] {
      StepKeepsInv(s, actions[0]);
      RunKeepsInv(Apply(s, actions[0]), actions[1..]);
    }
  }

  lemma {:induction false} RunKeepsPlain(s: State, actions: seq<Action>)
    requires Plain(s)
    ensures Plain(Run(s, actions))
    decreases |actions|
  {
    if actions != [] {
      StepKeepsPlain(s, actions[0]);
      RunKeepsPlain(Apply(s, actions[0]), actions[1..]);
    }
  }

  ghost predicate Initial(s: State) {
    s.lock.None? && s.active == map[] && forall g :: 0 <= g < |s.guards| ==> s.guards[g].Idle?
  }

  /**
   Guards that create every run never leave two conflicting runs active, as long as no session is
   lost between a clear query and its trigger; and one guard at a time is about to trigger.
   */
  lemma NoConflictingRuns(s: State, actions: seq<Action>, g: nat, h: nat)
    requires Initial(s) && SessionsHold(s, actions)
    ensures Exclusive(Run(s, actions).active)
    ensures AboutToTrigger(Run(s, actions), g) && AboutToTrigger(Run(s, actions), h) ==> g == h
  {
    RunKeepsInv(s, actions);
  }

  /* ---------- and only that long ---------- */

  /**
   Whatever happened before: once a guard that is about to trigger has lost its session and there is
   another guard, some continuation makes two conflicting runs active.
   */
  lemma LostSessionBreaksExclusion(s: State, actions: seq<Action>, g: nat, h: nat)
    requires Initial(s)
    requires var t := Run(s, actions); AboutToTrigger(t, g) && g in t.lost && h < |t.guards| && h != g
    ensures exists more :: !Exclusive(Run(s, actions + more).active)
  {
    hide Apply, Exclusive;
    var t := Run(s, actions);
    RunKeepsPlain(s, actions);
    var more := Breaking(t, g, h);
    RunAppend(s, actions, more);
    assert !Exclusive(Run(s, actions + more).active);
  }

  /** Trigger at once if that already conflicts; otherwise free the lock, let the other guard through, and trigger both. */
  lemma Breaking(t: State, g: nat, h: nat) returns (more: seq<Action>)
    requires Plain(t) && AboutToTrigger(t, g) && g in t.lost && h < |t.guards| && h != g
    ensures !Exclusive(Run(t, more).active)
  {
    hide Apply, Exclusive, Conflicts, ConflictSetFor, Busy, Run, Plain;
    var dag := t.guards[g].dag;
    if Busy(t.active, dag) {
      more := [Trigger(g, true)];
      TriggerConflicts(t, g);
      RunOne(t, Trigger(g, true));
    } else {
      var u := Run(t, Retiring(h));
      Retires(t, h, g);
      var freeing := if u.lock.Some? then Retiring(u.lock.value) else [];
      var v := Run(u, freeing);
      if u.lock.Some? {
        HolderIsAlive(u);
        Retires(u, u.lock.value, g);
      } else {
        RunNone(u);
      }
      var last := [Lock(h, dag, false), Query(h, false), Trigger(h, true), Trigger(g, true)];
      more := Retiring(h) + (freeing + last);
      RunAppend(t, Retiring(h), freeing + last);
      RunAppend(u, freeing, last);
      BothTrigger(v, g, h);
    }
  }

  lemma TriggerConflicts(t: State, g: nat)
    requires Plain(t) && AboutToTrigger(t, g) && Busy(t.active, t.guards[g].dag)
    ensures !Exclusive(Apply(t, Trigger(g, true)).active)
  {
    hide Conflicts, ConflictSetFor;
    var run :| run in t.active && Conflicts(t.guards[g].dag, t.active[run]);
    var after := Apply(t, Trigger(g, true)).active;
    assert after[t.nextRun] == t.guards[g].dag && after[run] == t.active[run];
  }

  /** Whatever a guard is doing, these steps of its own end its call: they fail a query, fail an unlock, and leave the session. */
  function Retiring(k: nat): seq<Action> { [Query(k, true), Unlock(k, Refused), Close(k)] }

  /** They leave it idle and without the lock, and change nothing else. */
  lemma Retires(t: State, k: nat, g: nat)
    requires Plain(t) && k < |t.guards| && g < |t.guards| && g != k
    ensures var u := Run(t, Retiring(k));
      && Plain(u) && u.guards == t.guards[k := Idle] && u.active == t.active && u.lost == t.lost
      && u.lock == if t.lock == Some(k) then None else t.lock
  {
    hide ConflictSetFor, Conflicts, Busy, Run;
    RunKeepsPlain(t, Retiring(k));
    RunAppend(t, [Query(k, true), Unlock(k, Refused)], [Close(k)]);
    assert [Query(k, true), Unlock(k, Refused)] + [Close(k)] == Retiring(k);
    RunTwo(t, Query(k, true), Unlock(k, Refused));
    RunOne(Apply(Apply(t, Query(k, true)), Unlock(k, Refused)), Close(k));
    RetiresByStep(t, k);
  }

  lemma RetiresByStep(t: State, k: nat)
    requires Plain(t) && k < |t.guards|
    ensures Apply(Apply(Apply(t, Query(k, true)), Unlock(k, Refused)), Close(k))
         == t.(guards := t.guards[k := Idle], lock := if t.lock == Some(k) then None else t.lock)
  {
    hide ConflictSetFor, Conflicts, Busy;
    var closing := Apply(Apply(t, Query(k, true)), Unlock(k, Refused));
    if t.guards[k].Idle? {
      assert t.guards[k := Idle] == t.guards;
    } else {
      assert closing == t.(guards := t.guards[k := Closing]);
      assert t.guards[k := Closing][k := Idle] == t.guards[k := Idle];
    }
  }

  lemma HolderIsAlive(t: State)
    requires Plain(t) && t.lock.Some?
    ensures t.lock.value < |t.guards| && !t.guards[t.lock.value].Idle? && t.lock.value !in t.lost
  {
  }

  lemma BothTrigger(u: State, g: nat, h: nat)
    requires Plain(u) && u.lock.None? && AboutToTrigger(u, g) && h < |u.guards| && u.guards[h].Idle?
    requires !Busy(u.active, u.guards[g].dag)
    ensures var dag := u.guards[g].dag;
      !Exclusive(Run(u, [Lock(h, dag, false), Query(h, false), Trigger(h, true), Trigger(g, true)]).active)
  {
    var dag := u.guards[g].dag;
    assert ConflictSetFor(dag).Some?;
    hide ConflictSetFor, Conflicts, Busy, Run, Plain, Exclusive, Apply;
    RunAppend(u, [Lock(h, dag, false), Query(h, false)], [Trigger(h, true), Trigger(g, true)]);
    assert [Lock(h, dag, false), Query(h, false)] + [Trigger(h, true), Trigger(g, true)]
        == [Lock(h, dag, false), Query(h, false), Trigger(h, true), Trigger(g, true)];
    RunTwo(u, Lock(h, dag, false), Query(h, false));
    var v := Apply(Apply(u, Lock(h, dag, false)), Query(h, false));
    LetThrough(u, h, dag);
    RunTwo(v, Trigger(h, true), Trigger(g, true));
    TwoOfOneDag(v, g, h, dag);
  }

  lemma LetThrough(u: State, h: nat, dag: Dag)
    requires u.lock.None? && h < |u.guards| && u.guards[h].Idle? && ConflictSetFor(dag).Some? && !Busy(u.active, dag)
    ensures Apply(Apply(u, Lock(h, dag, false)), Query(h, false)).guards == u.guards[h := Clear(dag, false)]
  {
    hide ConflictSetFor, Conflicts, Busy;
  }

  lemma TwoOfOneDag(v: State, g: nat, h: nat, dag: Dag)
    requires g < |v.guards| && h < |v.guards| && g != h && v.guards[g] == v.guards[h] == Clear(dag, false) && ConflictSetFor(dag).Some?
    ensures !Exclusive(Apply(Apply(v, Trigger(h, true)), Trigger(g, true)).active)
  {
    ConflictShape(dag, dag);
    hide ConflictSetFor, Conflicts;
    var active := Apply(Apply(v, Trigger(h, true)), Trigger(g, true)).active;
    assert active[v.nextRun] == dag && active[v.nextRun + 1] == dag;
  }

  lemma RunNone(s: State)
    ensures Run(s, []) == s
  {
  }

  lemma RunOne(s: State, a: Action)
    ensures Run(s, [a]) == Apply(s, a)
  {
    hide Apply;
    assert Run(s, [a]) == Run(Apply(s, a), []);
  }

  lemma RunTwo(s: State, a: Action, b: Action)
    ensures Run(s, [a, b]) == Apply(Apply(s, a), b)
  {
    hide Apply;
    assert [a, b][1..] == [b];
    RunOne(Apply(s, a), b);
  }

  /** Such a state is reached by a lock, a query and a loss. */
  lemma SessionCanBeLost(dag: Dag)
    requires ConflictSetFor(dag).Some?
    ensures exists s, actions ::
      && Initial(s) && AboutToTrigger(Run(s, actions), 0) && 0 in Run(s, actions).lost
      && |Run(s, actions).guards| == 2 && Run(s, actions).guards[1].Idle?
  {
    hide ConflictSetFor, Conflicts;
    var s := State(None, {}, map[], 0, [Idle, Idle]);
    var actions := [Lock(0, dag, false), Query(0, false)] + [LoseSession(0)];
    RunAppend(s, [Lock(0, dag, false), Query(0, false)], [LoseSession(0)]);
    RunTwo(s, Lock(0, dag, false), Query(0, false));
    RunOne(Run(s, [Lock(0, dag, false), Query(0, false)]), LoseSession(0));
    hide Run;
    assert Apply(Apply(s, Lock(0, dag, false)), Query(0, false)).guards == [Clear(dag, false), Idle];
    assert Run(s, actions).guards == [Clear(dag, false), Idle];
  }

  /* ---------- the critical section as one thread of the interleaving ---------- */

  datatype Status =
    | Triggered | TriggeredUnlockFailed | TriggeredCleanupFailed
    | LockFailed | LockUnavailable | QueryFailed | ActiveRuns | NothingActive | TriggerFailed | UnlockFailed

  /** The statuses that say the trigger command came back with exit code zero. */
  predicate SaysTriggered(status: Status) { status.Triggered? || status.TriggeredUnlockFailed? || status.TriggeredCleanupFailed? }

  /** What the wrapper script exits with; None is a guard process that failed or printed nothing usable. */
  function ExitCode(known: bool, checkOnly: bool, status: Option<Status>): nat {
    if !known then 64
    else if status.None? then 2
    else match status.value
      case ActiveRuns => 3
      case NothingActive => if checkOnly then 0 else 2
      case Triggered => if checkOnly then 2 else 0
      case LockUnavailable => 4
      case TriggeredUnlockFailed => 5
      case TriggeredCleanupFailed => 5
      case _ => 2
  }

  /** Steps of the other guards, runs that finish, and sessions that are lost, this guard's own included. */
  predicate Foreign(a: Action, guard: nat) { a.Finish? || a.LoseSession? || a.guard != guard }

  lemma {:induction false} RunAppend(s: State, a: seq<Action>, b: seq<Action>)
    ensures Run(s, a + b) == Run(Run(s, a), b)
    decreases |a|
  {
    if a == [] {
      assert a + b == b;
    } else {
      assert (a + b)[1..] == a[1..] + b;
      RunAppend(Apply(s, a[0]), a[1..], b);
    }
  }

  lemma {:induction false} SessionsAppend(s: State, a: seq<Action>, b: seq<Action>)
    requires SessionsHold(s, a) && SessionsHold(Run(s, a), b)
    ensures SessionsHold(s, a + b)
    decreases |a|
  {
    if a == [] {
      assert a + b == b;
    } else {
      assert (a + b)[1..] == a[1..] + b;
      SessionsAppend(Apply(s, a[0]), a[1..], b);
    }
  }

  lemma ForeignStepLeavesAlone(s: State, a: Action, guard: nat)
    requires guard < |s.guards| && Foreign(a, guard)
    ensures guard < |Apply(s, a).guards| && Apply(s, a).guards[guard] == s.guards[guard]
  {
  }

  lemma {:induction false} ForeignLeavesAlone(s: State, actions: seq<Action>, guard: nat)
    requires guard < |s.guards| && forall i :: 0 <= i < |actions| ==> Foreign(actions[i], guard)
    ensures guard < |Run(s, actions).guards| && Run(s, actions).guards[guard] == s.guards[guard]
    decreases |actions|
  {
    if actions != [] {
      ForeignStepLeavesAlone(s, actions[0], guard);
      ForeignLeavesAlone(Apply(s, actions[0]), actions[1..], guard);
    }
  }

  lemma IdleGuardHoldsNothing(s: State, g: nat)
    requires Inv(s) && g < |s.guards| && s.guards[g].Idle?
    ensures s.lock != Some(g)
  {
  }

  /** The metadata database: its advisory lock and its DAG runs, with the history so far. */
  class Metadata {
    var s: State
    ghost var start: State
    ghost var trace: seq<Action>

    ghost predicate Valid()
      reads this
    {
      Initial(start) && SessionsHold(start, trace) && s == Run(start, trace) && Inv(s)
    }

    method Act(a: Action)
      requires Valid() && !a.LoseSession?
      modifies this
      ensures Valid() && start == old(start) && s == Apply(old(s), a) && trace == old(trace) + [a]
    {
      hide Apply, Inv;
      StepKeepsInv(s, a);
      RunAppend(start, trace, [a]);
      SessionsAppend(start, trace, [a]);
      RunOne(s, a);
      s := Apply(s, a);
      trace := trace + [a];
    }

    method Interfere(guard: nat)
      requires Valid() && guard < |s.guards|
      modifies this
      ensures Valid() && start == old(start) && old(trace) <= trace
      ensures guard < |s.guards| && s.guards[guard] == old(s).guards[guard]
      ensures forall i :: |old(trace)| <= i < |trace| ==> Foreign(trace[i], guard)
    {
      hide Apply, Inv;
      var actions: seq<Action> := *;
      if SessionsHold(s, actions) && forall i :: 0 <= i < |actions| ==> Foreign(actions[i], guard) {
        RunKeepsInv(s, actions);
        ForeignLeavesAlone(s, actions, guard);
        RunAppend(start, trace, actions);
        SessionsAppend(start, trace, actions);
        s := Run(s, actions);
        trace := trace + actions;
      }
    }
  }

  predicate Asked(trace: seq<Action>, lo: nat, guard: nat) {
    exists i :: lo <= i < |trace| && trace[i].Trigger? && trace[i].guard == guard
  }

  /** A trigger request of a whole call was made while the guard was deciding. */
  lemma AskedSplits(a: seq<Action>, b: seq<Action>, c: seq<Action>, d: seq<Action>, guard: nat)
    requires a <= b < c <= d
    requires !Asked(b, |a|, guard) && !Asked(d, |c|, guard) && !(c[|b|].Trigger? && c[|b|].guard == guard)
    ensures Asked(d, |a|, guard) <==> Asked(c, |b| + 1, guard)
  {
  }

  class Guard {
    const index: nat
    const db: Metadata

    constructor (index: nat, db: Metadata)
      ensures this.index == index && this.db == db
    {
      this.index, this.db := index, db;
    }

    ghost predicate At(pc: Pc)
      reads this, db
    {
      db.Valid() && index < |db.s.guards| && db.s.guards[index] == pc
    }

    /**
     One guarded call. `returnedZero` is whether the trigger command exited with zero. The status
     says so exactly when it did; nothing is triggered on a check, nor unless the query, made while
     holding the lock, found no conflicting run; and the lock is never kept by a guard that is done.
     */
    method CriticalSection(dag: Dag, checkOnly: bool) returns (status: Status, ghost returnedZero: bool)
      requires At(Idle) && ConflictSetFor(dag).Some?
      modifies db
      ensures At(Idle) && db.s.lock != Some(index) && db.start == old(db.start) && old(db.trace) <= db.trace
      ensures SaysTriggered(status) <==> returnedZero
      ensures checkOnly ==> !Asked(db.trace, |old(db.trace)|, index)
      ensures status.ActiveRuns? || status.NothingActive? || status.LockUnavailable? || status.QueryFailed? ==>
                !Asked(db.trace, |old(db.trace)|, index)
      ensures returnedZero ==> Asked(db.trace, |old(db.trace)|, index)
    {
      hide Inv, Initial, Run, Conflicts;
      returnedZero := false;
      IdleGuardHoldsNothing(db.s, index);
      var fault: bool := *;
      if fault { return LockFailed, false; }
      ghost var seen := db.trace;
      db.Interfere(index);
      IdleGuardHoldsNothing(db.s, index);
      var lockFault: bool := *;
      if lockFault { return LockFailed, false; }
      if db.s.lock.Some? {
        var exitFault: bool := *;
        return if exitFault then LockFailed else LockUnavailable, false;
      }
      ghost var before := db.trace;
      db.Act(Lock(index, dag, checkOnly));
      var outcome;
      outcome, returnedZero := Decide(dag, checkOnly);
      ghost var decided := db.trace;
      status := Conclude(outcome);
      IdleGuardHoldsNothing(db.s, index);
      assert decided[|before|] == Lock(index, dag, checkOnly);
      AskedSplits(seen, before, decided, db.trace, index);
    }

    /** Give the lock back, then leave the session; either may fail. */
    method Conclude(outcome: Status) returns (status: Status)
      requires db.Valid() && index < |db.s.guards| && (db.s.guards[index].Decided? || db.s.guards[index].Clear?)
      requires !outcome.TriggeredUnlockFailed? && !outcome.TriggeredCleanupFailed?
      modifies db
      ensures At(Idle) && db.start == old(db.start) && old(db.trace) <= db.trace
      ensures !Asked(db.trace, |old(db.trace)|, index)
      ensures SaysTriggered(status) <==> outcome.Triggered?
      ensures status == outcome || status in {TriggeredUnlockFailed, TriggeredCleanupFailed, UnlockFailed, LockFailed}
    {
      hide Inv, Initial, Run, Conflicts;
      db.Interfere(index);
      var reply: Reply := *;
      if index in db.s.lost { reply := Refused; }
      db.Act(Unlock(index, reply));
      status := outcome;
      if !reply.Released? {
        status := if outcome.Triggered? then TriggeredUnlockFailed else UnlockFailed;
        db.Interfere(index);
        db.Act(Close(index));
      }
      var cleanupFault: bool := *;
      if cleanupFault {
        status := if SaysTriggered(status) then TriggeredCleanupFailed else LockFailed;
      }
    }

    /** What happens between taking and giving back the lock. */
    method Decide(dag: Dag, checkOnly: bool) returns (outcome: Status, ghost returnedZero: bool)
      requires At(Holding(dag, checkOnly))
      modifies db
      ensures db.Valid() && index < |db.s.guards| && (db.s.guards[index].Decided? || db.s.guards[index].Clear?)
      ensures db.start == old(db.start) && old(db.trace) <= db.trace
      ensures outcome in {QueryFailed, ActiveRuns, NothingActive, Triggered, TriggerFailed}
      ensures outcome.Triggered? <==> returnedZero
      ensures Asked(db.trace, |old(db.trace)|, index) <==> (outcome.Triggered? || outcome.TriggerFailed?)
      ensures checkOnly ==> !(outcome.Triggered? || outcome.TriggerFailed?)
    {
      hide Inv, Initial, Run, Conflicts;
      returnedZero := false;
      db.Interfere(index);
      var fault: bool := *;
      if index in db.s.lost { fault := true; }
      var busy := Busy(db.s.active, dag);
      db.Act(Query(index, fault));
      if fault { return QueryFailed, false; }
      if busy { return ActiveRuns, false; }
      if checkOnly { return NothingActive, false; }
      db.Interfere(index);
      var zero: bool := *;
      var created: bool := *;
      db.Act(Trigger(index, zero || created));
      assert db.trace[|db.trace| - 1] == Trigger(index, zero || created);
      outcome, returnedZero := if zero then Triggered else TriggerFailed, zero;
    }

    /**
     The whole command. Success without a check means the trigger command succeeded; the codes that
     say active, busy or unknown mean nothing was asked of Airflow; 5 means a run was triggered and
     the guard could not clean up after it.
     */
    method GuardMain(dag: Dag, checkOnly: bool) returns (code: nat, ghost returnedZero: bool)
      requires At(Idle)
      modifies db
      ensures At(Idle) && db.start == old(db.start) && old(db.trace) <= db.trace
      ensures code in {0, 2, 3, 4, 5, 64} && (code == 64 <==> ConflictSetFor(dag).None?)
      ensures code == 0 && !checkOnly ==> returnedZero
      ensures code == 5 ==> returnedZero
      ensures code in {3, 4, 64} || checkOnly ==> !Asked(db.trace, |old(db.trace)|, index)
      ensures returnedZero ==> Asked(db.trace, |old(db.trace)|, index) && code in {0, 2, 5}
    {
      returnedZero := false;
      if ConflictSetFor(dag).None? { return ExitCode(false, checkOnly, None), false; }
      var status;
      status, returnedZero := CriticalSection(dag, checkOnly);
      var lost: bool := *;
      code := ExitCode(true, checkOnly, if lost then None else Some(status));
    }
  }
}
