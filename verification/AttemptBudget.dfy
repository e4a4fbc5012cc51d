/**
 The daily source-request budget shared by any number of hosted collectors.
 Mirrors AttemptBudget in tools/weather_collect_hosted.py.

 The store holds one document per KST day. A collector reads it, then sends a conditional write
 (sections 13.1.1 and 13.1.2 of RFC 9110), which may be delivered at any later time, any number of
 times, or never. It is told of success only if there was one, of a conflict or an error at any time.
 The entity tag of a document is an injective function of it, so the document stands for it.
 */
module AttemptBudget {
  import opened Basics

  const DAILY_LIMIT: nat := 2400
  const RUN_LIMIT: nat := 1280
  const MAX_TRIES: nat := 5
  const DAY_SECONDS := 86400
  const HEADROOM := 40

  function DayOf(time: int): int { time / DAY_SECONDS }

  function SecondsLeft(time: int): int { DAY_SECONDS - time % DAY_SECONDS }

  /** A time at which a request may still be charged to this day. */
  predicate Chargeable(time: int, day: int) { DayOf(time) == day && SecondsLeft(time) >= HEADROOM }

  /** One conditional write: `basis` is the count read, None when the day had no document. */
  datatype Request = Request(pid: nat, serial: nat, day: int, basis: Option<nat>)

  function Writes(r: Request): nat { if r.basis.None? then 1 else r.basis.value + 1 }

  /** Where a collector is inside reserve(). */
  datatype Pc =
    | Idle
    | Looping(tries: nat)
    | Fetching(day: int, tries: nat)
    | Sending(day: int, basis: Option<nat>, tries: nat)
    | Awaiting(sent: Request, tries: nat)
    | Settling(sent: Request)

  datatype Collector = Collector(pc: Pc, attempts: nat, serial: nat)

  datatype State = State(
    now: int,
    store: map<int, nat>,
    wire: set<Request>,
    committed: set<Request>,
    granted: map<Request, int>,
    collectors: seq<Collector>)

  datatype Reply = Acknowledged | Conflict | Failure

  datatype Action =
    | Tick(elapsed: nat)
    | Begin(pid: nat)
    | Look(pid: nat)
    | Fetch(pid: nat)
    | Send(pid: nat)
    | Deliver(request: Request)
    | Answer(pid: nat, reply: Reply)
    | Settle(pid: nat)
    | Abort(pid: nat)

  function Count(s: State, day: int): nat { if day in s.store then s.store[day] else 0 }

  function Stored(s: State, day: int): Option<nat> { if day in s.store then Some(s.store[day]) else None }

  function Move(s: State, pid: nat, pc: Pc): State
    requires pid < |s.collectors|
  {
    s.(collectors := s.collectors[pid := s.collectors[pid].(pc := pc)])
  }

  /** One atomic step; an action that is not enabled changes nothing. */
  function Apply(s: State, a: Action): State {
    match a
    case Tick(elapsed) => s.(now := s.now + elapsed)
    case Deliver(r) =>
      if r in s.wire && Stored(s, r.day) == r.basis
      then s.(store := s.store[r.day := Writes(r)], committed := s.committed + {r}) else s
    case Begin(p) =>
      if p < |s.collectors| && s.collectors[p].pc.Idle? && s.collectors[p].attempts < RUN_LIMIT then Move(s, p, Looping(0)) else s
    case Abort(p) => if p < |s.collectors| then Move(s, p, Idle) else s
    case Look(p) =>
      if p < |s.collectors| && s.collectors[p].pc.Looping? then
        if s.collectors[p].pc.tries < MAX_TRIES && SecondsLeft(s.now) >= HEADROOM
        then Move(s, p, Fetching(DayOf(s.now), s.collectors[p].pc.tries)) else Move(s, p, Idle)
      else s
    case Fetch(p) =>
      if p < |s.collectors| && s.collectors[p].pc.Fetching? then
        var pc := s.collectors[p].pc;
        if Count(s, pc.day) < DAILY_LIMIT then Move(s, p, Sending(pc.day, Stored(s, pc.day), pc.tries)) else Move(s, p, Idle)
      else s
    case Send(p) =>
      if p < |s.collectors| && s.collectors[p].pc.Sending? then
        var c := s.collectors[p];
        if DayOf(s.now) != c.pc.day then Move(s, p, Looping(c.pc.tries + 1))
        else
          var r := Request(p, c.serial, c.pc.day, c.pc.basis);
          s.(wire := s.wire + {r}, collectors := s.collectors[p := c.(pc := Awaiting(r, c.pc.tries), serial := c.serial + 1)])
      else s
    case Answer(p, reply) =>
      if p < |s.collectors| && s.collectors[p].pc.Awaiting? then
        var pc := s.collectors[p].pc;
        match reply
        case Acknowledged => if pc.sent in s.committed then Move(s, p, Settling(pc.sent)) else s
        case Conflict => Move(s, p, Looping(pc.tries + 1))
        case Failure => Move(s, p, Idle)
      else s
    case Settle(p) =>
      if p < |s.collectors| && s.collectors[p].pc.Settling? then
        var c := s.collectors[p];
        if Chargeable(s.now, c.pc.sent.day)
        then s.(granted := s.granted[c.pc.sent := s.now], collectors := s.collectors[p := c.(pc := Idle, attempts := c.attempts + 1)])
        else Move(s, p, Idle)
      else s
  }

  function Run(s: State, actions: seq<Action>): State
    decreases |actions|
  {
    if actions == [] then s else Run(Apply(s, actions[0]), actions[1..])
  }

  /* ---------- the inductive invariant ---------- */

  function CommittedOn(s: State, day: int): set<Request> { set r | r in s.committed && r.day == day }

  function GrantedOn(s: State, day: int): set<Request> { set r | r in s.granted && r.day == day }

  function GrantedTo(s: State, pid: nat): set<Request> { set r | r in s.granted && r.pid == pid }

  ghost predicate WireInv(s: State) {
    && (forall d :: d in s.store ==> s.store[d] <= DAILY_LIMIT)
    && s.committed <= s.wire && s.granted.Keys <= s.committed
    && forall r :: r in s.wire ==>
         r.pid < |s.collectors| && r.serial < s.collectors[r.pid].serial && Writes(r) <= DAILY_LIMIT
  }

  /** A committed write is already behind the store, so delivering it again changes nothing. */
  ghost predicate CommitInv(s: State) {
    && (forall r :: r in s.committed ==> Writes(r) <= Count(s, r.day))
    && forall d :: |CommittedOn(s, d)| <= Count(s, d)
  }

  ghost predicate CollectorInv(s: State, pid: nat)
    requires pid < |s.collectors|
  {
    var c := s.collectors[pid];
    && c.attempts == |GrantedTo(s, pid)| <= RUN_LIMIT
    && (!c.pc.Idle? ==> c.attempts < RUN_LIMIT)
    && (c.pc.Sending? ==> (c.pc.basis.Some? ==> c.pc.basis.value < DAILY_LIMIT))
    && (c.pc.Awaiting? || c.pc.Settling? ==>
          c.pc.sent in s.wire && c.pc.sent.pid == pid && c.pc.sent.serial + 1 == c.serial && c.pc.sent !in s.granted)
    && (c.pc.Settling? ==> c.pc.sent in s.committed)
  }

  ghost predicate GrantInv(s: State) {
    forall r :: r in s.granted ==> Chargeable(s.granted[r], r.day) && s.granted[r] <= s.now
  }

  ghost predicate Inv(s: State) {
    && WireInv(s) && CommitInv(s) && GrantInv(s)
    && forall p :: 0 <= p < |s.collectors| ==> CollectorInv(s, p)
  }

  /** Any valid documents, and collectors that have not started. */
  ghost predicate Initial(s: State) {
    && (forall d :: d in s.store ==> s.store[d] <= DAILY_LIMIT)
    && s.wire == {} && s.committed == {} && s.granted == map[]
    && forall p :: 0 <= p < |s.collectors| ==> s.collectors[p] == Collector(Idle, 0, 0)
  }

  lemma InitialInv(s: State)
    requires Initial(s)
    ensures Inv(s)
  {
  }

  /** A collector's invariant survives steps that leave it and the grants alone. */
  lemma CollectorUnaffected(s: State, t: State, p: nat)
    requires p < |s.collectors| && p < |t.collectors| && s.collectors[p] == t.collectors[p] && CollectorInv(s, p)
    requires GrantedTo(s, p) == GrantedTo(t, p) && s.wire <= t.wire && s.committed <= t.committed
    ensures CollectorInv(t, p)
  {
    assert forall r :: r in t.granted && r.pid == p ==> r in GrantedTo(t, p);
  }

  lemma DeliverCounts(s: State, r: Request)
    requires WireInv(s) && CommitInv(s)
    ensures CommitInv(Apply(s, Deliver(r)))
  {
    hide CommittedOn;
    var t := Apply(s, Deliver(r));
    if t != s {
      CommittedGrows(s, t, r);
    }
  }

  lemma CommittedGrows(s: State, t: State, r: Request)
    requires r !in s.committed && t.committed == s.committed + {r}
    ensures |CommittedOn(t, r.day)| == |CommittedOn(s, r.day)| + 1
    ensures forall d :: d != r.day ==> CommittedOn(t, d) == CommittedOn(s, d)
  {
    assert CommittedOn(t, r.day) == CommittedOn(s, r.day) + {r};
  }

  lemma DeliverKeepsInv(s: State, r: Request)
    requires Inv(s)
    ensures Inv(Apply(s, Deliver(r)))
  {
    hide CollectorInv, CommitInv;
    var t := Apply(s, Deliver(r));
    DeliverCounts(s, r);
    if t != s {
      forall p | 0 <= p < |t.collectors| ensures CollectorInv(t, p) {
        assert CollectorInv(s, p);
        CollectorUnaffected(s, t, p);
      }
    }
  }

  /** Steps that only move one collector, without touching store, wire or grants. */
  lemma MoveKeepsInv(s: State, p: nat, pc: Pc)
    requires Inv(s) && p < |s.collectors|
    requires CollectorInv(Move(s, p, pc), p)
    ensures Inv(Move(s, p, pc))
  {
    var t := Move(s, p, pc);
    forall d ensures CommittedOn(t, d) == CommittedOn(s, d) {}
    forall q | 0 <= q < |t.collectors| ensures CollectorInv(t, q) {
      assert CollectorInv(s, q) && GrantedTo(t, q) == GrantedTo(s, q);
    }
  }

  lemma SendKeepsInv(s: State, p: nat)
    requires Inv(s)
    ensures Inv(Apply(s, Send(p)))
  {
    var t := Apply(s, Send(p));
    if p < |s.collectors| && s.collectors[p].pc.Sending? {
      var c := s.collectors[p];
      assert CollectorInv(s, p);
      if DayOf(s.now) != c.pc.day {
        assert GrantedTo(t, p) == GrantedTo(s, p);
        MoveKeepsInv(s, p, Looping(c.pc.tries + 1));
      } else {
        forall d ensures CommittedOn(t, d) == CommittedOn(s, d) {}
        forall q | 0 <= q < |t.collectors| ensures CollectorInv(t, q) {
          assert CollectorInv(s, q) && GrantedTo(t, q) == GrantedTo(s, q);
        }
      }
    }
  }

  /** Other collectors do not notice what one collector is granted. */
  lemma GrantKeepsCollectors(s: State, t: State, p: nat)
    requires Inv(s) && p < |s.collectors| && s.collectors[p].pc.Settling?
    requires t == s.(granted := s.granted[s.collectors[p].pc.sent := s.now],
                     collectors := s.collectors[p := s.collectors[p].(pc := Idle, attempts := s.collectors[p].attempts + 1)])
    ensures forall q :: 0 <= q < |t.collectors| ==> CollectorInv(t, q)
  {
    hide CollectorInv;
    GrantKeepsGrantee(s, t, p);
    forall q | 0 <= q < |t.collectors| ensures CollectorInv(t, q) {
      assert CollectorInv(s, q);
      if q != p {
        assert GrantedTo(t, q) == GrantedTo(s, q);
        CollectorUnaffected(s, t, q);
      }
    }
  }

  lemma GrantKeepsGrantee(s: State, t: State, p: nat)
    requires Inv(s) && p < |s.collectors| && s.collectors[p].pc.Settling?
    requires t == s.(granted := s.granted[s.collectors[p].pc.sent := s.now],
                     collectors := s.collectors[p := s.collectors[p].(pc := Idle, attempts := s.collectors[p].attempts + 1)])
    ensures CollectorInv(t, p) && s.collectors[p].pc.sent.pid == p
  {
    assert CollectorInv(s, p);
    assert GrantedTo(t, p) == GrantedTo(s, p) + {s.collectors[p].pc.sent};
  }

  lemma SettleKeepsInv(s: State, p: nat)
    requires Inv(s)
    ensures Inv(Apply(s, Settle(p)))
  {
    if p < |s.collectors| && s.collectors[p].pc.Settling? {
      var c := s.collectors[p];
      assert CollectorInv(s, p);
      if Chargeable(s.now, c.pc.sent.day) {
        var t := Apply(s, Settle(p));
        GrantKeepsCollectors(s, t, p);
        forall d ensures CommittedOn(t, d) == CommittedOn(s, d) {}
        hide CollectorInv;
      } else {
        assert GrantedTo(Move(s, p, Idle), p) == GrantedTo(s, p);
        MoveKeepsInv(s, p, Idle);
      }
    }
  }

  lemma TickKeepsInv(s: State, elapsed: nat)
    requires Inv(s)
    ensures Inv(Apply(s, Tick(elapsed)))
  {
    var t := Apply(s, Tick(elapsed));
    forall d ensures CommittedOn(t, d) == CommittedOn(s, d) {}
    forall q | 0 <= q < |t.collectors| ensures CollectorInv(t, q) {
      assert CollectorInv(s, q) && GrantedTo(t, q) == GrantedTo(s, q);
    }
  }

  predicate Plain(pc: Pc) { pc.Looping? || pc.Fetching? || (pc.Sending? && (pc.basis.Some? ==> pc.basis.value < DAILY_LIMIT)) }

  /** Moving to a program point that holds no request keeps the invariant. */
  lemma PlainMove(s: State, p: nat, pc: Pc)
    requires Inv(s) && p < |s.collectors|
    requires pc.Idle? || (Plain(pc) && s.collectors[p].attempts < RUN_LIMIT)
    ensures Inv(Move(s, p, pc))
  {
    assert CollectorInv(s, p) && GrantedTo(Move(s, p, pc), p) == GrantedTo(s, p);
    MoveKeepsInv(s, p, pc);
  }

  lemma AnswerKeepsInv(s: State, p: nat, reply: Reply)
    requires Inv(s)
    ensures Inv(Apply(s, Answer(p, reply)))
  {
    if p < |s.collectors| && s.collectors[p].pc.Awaiting? {
      var pc := s.collectors[p].pc;
      assert CollectorInv(s, p);
      match reply {
        case Acknowledged =>
          if pc.sent in s.committed {
            assert GrantedTo(Move(s, p, Settling(pc.sent)), p) == GrantedTo(s, p);
            MoveKeepsInv(s, p, Settling(pc.sent));
          }
        case Conflict => PlainMove(s, p, Looping(pc.tries + 1));
        case Failure => PlainMove(s, p, Idle);
      }
    }
  }

  /** The steps by which a collector moves without sending, settling or hearing anything. */
  lemma LocalKeepsInv(s: State, a: Action)
    requires Inv(s) && (a.Begin? || a.Look? || a.Fetch? || a.Abort?)
    ensures Inv(Apply(s, a))
  {
    if Apply(s, a) != s {
      assert CollectorInv(s, a.pid);
      PlainMove(s, a.pid, Apply(s, a).collectors[a.pid].pc);
    }
  }

  lemma StepKeepsInv(s: State, a: Action)
    requires Inv(s)
    ensures Inv(Apply(s, a))
  {
    hide Inv, Apply;
    match a {
      case Deliver(r) => DeliverKeepsInv(s, r);
      case Send(p) => SendKeepsInv(s, p);
      case Settle(p) => SettleKeepsInv(s, p);
      case Tick(elapsed) => TickKeepsInv(s, elapsed);
      case Answer(p, reply) => AnswerKeepsInv(s, p, reply);
      case Begin(_) => LocalKeepsInv(s, a);
      case Look(_) => LocalKeepsInv(s, a);
      case Fetch(_) => LocalKeepsInv(s, a);
      case Abort(_) => LocalKeepsInv(s, a);
    }
  }

  /* ---------- the theorems, over every interleaving ---------- */

  lemma {:induction false} RunKeepsInv(s: State, actions: seq<Action>)
    requires Inv(s)
    ensures Inv(Run(s, actions))
    decreases |actions|
  {
    if actions != [] {
      StepKeepsInv(s, actions[0]);
      RunKeepsInv(Apply(s, actions[0]), actions[1..]);
    }
  }

  /** The stored count of a day never goes down. */
  lemma {:induction false} CountNeverFalls(s: State, actions: seq<Action>, day: int)
    ensures Count(s, day) <= Count(Run(s, actions), day)
    decreases |actions|
  {
    if actions != [] {
      CountNeverFalls(Apply(s, actions[0]), actions[1..], day);
    }
  }

  /**
   Whatever the interleaving, lost acknowledgements and late or repeated deliveries: the stored
   count of a day stays within its limit and covers every reservation granted for it, no run is
   granted more than its own limit, and each grant was made inside its day with headroom to spare.
   */
  lemma BudgetHolds(s: State, actions: seq<Action>, day: int, pid: nat)
    requires Initial(s)
    ensures var t := Run(s, actions);
      && |GrantedOn(t, day)| <= Count(t, day) <= DAILY_LIMIT
      && |GrantedTo(t, pid)| <= RUN_LIMIT
      && (pid < |t.collectors| ==> t.collectors[pid].attempts == |GrantedTo(t, pid)|)
      && forall r :: r in t.granted ==> Chargeable(t.granted[r], r.day)
  {
    InitialInv(s);
    RunKeepsInv(s, actions);
    var t := Run(s, actions);
    assert GrantedOn(t, day) <= CommittedOn(t, day);
    SubsetSize(GrantedOn(t, day), CommittedOn(t, day));
    if pid < |t.collectors| {
      assert CollectorInv(t, pid);
    } else {
      assert GrantedTo(t, pid) == {};
    }
  }

  /* ---------- reserve() itself, as one thread of the interleaving ---------- */

  /** Actions of the clock, the network and the other collectors. */
  predicate Foreign(a: Action, pid: nat) { a.Tick? || a.Deliver? || a.pid != pid }

  predicate AllForeign(actions: seq<Action>, pid: nat) { forall i :: 0 <= i < |actions| ==> Foreign(actions[i], pid) }

  lemma {:induction false} RunAppend(s: State, a: seq<Action>, b: seq<Action>)
    ensures Run(s, a + b) == Run(Run(s, a), b)
    decreases |a|
  {
    if a == [] {
      assert a + b == b;
    } else {
      assert (a + b)[1..] == a[1..] + b;
      RunAppend(Apply(s, a[0]), a[1..], b);
    }
  }

  lemma ForeignStepLeavesAlone(s: State, a: Action, pid: nat)
    requires pid < |s.collectors| && Foreign(a, pid)
    ensures pid < |Apply(s, a).collectors| && Apply(s, a).collectors[pid] == s.collectors[pid]
    ensures s.committed <= Apply(s, a).committed
  {
  }

  lemma {:induction false} ForeignLeavesAlone(s: State, actions: seq<Action>, pid: nat)
    requires pid < |s.collectors| && AllForeign(actions, pid)
    ensures pid < |Run(s, actions).collectors| && Run(s, actions).collectors[pid] == s.collectors[pid]
    decreases |actions|
  {
    if actions != [] {
      ForeignStepLeavesAlone(s, actions[0], pid);
      ForeignLeavesAlone(Apply(s, actions[0]), actions[1..], pid);
    }
  }

  /** The shared world, with the history that led to it. */
  class Cloud {
    var s: State
    ghost var start: State
    ghost var trace: seq<Action>

    constructor (s: State)
      requires Initial(s)
      ensures Valid() && this.s == s == start && trace == []
    {
      this.s, start, trace := s, s, [];
      InitialInv(s);
    }

    ghost predicate Valid()
      reads this
    {
      Initial(start) && s == Run(start, trace) && Inv(s)
    }

    method Act(a: Action)
      requires Valid()
      modifies this
      ensures Valid() && start == old(start) && s == Apply(old(s), a) && trace == old(trace) + [a]
    {
      hide Apply, Inv;
      StepKeepsInv(s, a);
      RunAppend(start, trace, [a]);
      assert Run(s, [a]) == Run(Apply(s, a), []);
      s := Apply(s, a);
      trace := trace + [a];
    }

    /** Any steps of anyone else may happen between two steps of one collector. */
    method Interfere(pid: nat)
      requires Valid() && pid < |s.collectors|
      modifies this
      ensures Valid() && start == old(start) && old(trace) <= trace
      ensures pid < |s.collectors| && s.collectors[pid] == old(s).collectors[pid]
    {
      hide Apply, Inv;
      var actions: seq<Action> := *;
      if AllForeign(actions, pid) {
        RunKeepsInv(s, actions);
        ForeignLeavesAlone(s, actions, pid);
        RunAppend(start, trace, actions);
        s := Run(s, actions);
        trace := trace + actions;
      }
    }
  }

  const BUDGET_CODES := {
    "run_deadline", "run_budget_exhausted", "budget_day_boundary", "daily_budget_exhausted", "budget_conflict_exhausted", "storage_failure"
  }

  class AttemptBudget {
    const pid: nat
    const cloud: Cloud
    var attempts: nat

    constructor (pid: nat, cloud: Cloud)
      requires cloud.Valid() && pid < |cloud.s.collectors| && cloud.s.collectors[pid] == Collector(Idle, 0, 0)
      ensures Valid() && this.pid == pid && this.cloud == cloud && attempts == 0
    {
      this.pid, this.cloud, attempts := pid, cloud, 0;
    }

    ghost predicate Valid()
      reads this, cloud
    {
      && cloud.Valid() && pid < |cloud.s.collectors|
      && cloud.s.collectors[pid].pc.Idle? && cloud.s.collectors[pid].attempts == attempts
    }

    ghost predicate At(pc: Pc)
      reads this, cloud
    {
      cloud.Valid() && pid < |cloud.s.collectors| && cloud.s.collectors[pid].pc == pc && cloud.s.collectors[pid].attempts == attempts
    }

    /**
     Every statement is a step of the protocol with arbitrary interference in between, so the
     theorems above hold of it. A normal return is exactly one more granted reservation.
     */
    method Reserve() returns (code: Option<string>)
      requires Valid()
      modifies this`attempts, cloud
      ensures Valid() && cloud.start == old(cloud.start) && old(cloud.trace) <= cloud.trace
      ensures code.None? ==> attempts == old(attempts) + 1 <= RUN_LIMIT
      ensures code.Some? ==> code.value in BUDGET_CODES && attempts == old(attempts)
      ensures attempts == |GrantedTo(cloud.s, pid)|
    {
      hide Inv, Initial, Run;
      AttemptsAreGrants(cloud.s, pid);
      var late: bool := *;
      if late { return Some("run_deadline"); }
      if attempts >= RUN_LIMIT { return Some("run_budget_exhausted"); }
      cloud.Act(Begin(pid));
      var tries := 0;
      while tries < MAX_TRIES
        invariant tries <= MAX_TRIES && At(Looping(tries)) && attempts == old(attempts) < RUN_LIMIT
        invariant cloud.start == old(cloud.start) && old(cloud.trace) <= cloud.trace
      {
        var outcome, again := TryOnce(tries);
        if !again {
          AttemptsAreGrants(cloud.s, pid);
          return outcome;
        }
        tries := tries + 1;
      }
      cloud.Act(Look(pid));
      AttemptsAreGrants(cloud.s, pid);
      code := Some("budget_conflict_exhausted");
    }

    /** One pass of the retry loop: read, write conditionally, and settle; `again` after a conflict. */
    method TryOnce(tries: nat) returns (code: Option<string>, again: bool)
      requires At(Looping(tries)) && tries < MAX_TRIES && attempts < RUN_LIMIT
      modifies this`attempts, cloud
      ensures cloud.start == old(cloud.start) && old(cloud.trace) <= cloud.trace
      ensures again ==> At(Looping(tries + 1)) && attempts == old(attempts)
      ensures !again ==> Valid() && (if code.None? then attempts == old(attempts) + 1 else attempts == old(attempts) && code.value in BUDGET_CODES)
    {
      hide Inv, Initial, Run;
      cloud.Interfere(pid);
      var late: bool := *;
      if late { cloud.Act(Abort(pid)); return Some("run_deadline"), false; }
      var now := cloud.s.now;
      var day := DayOf(now);
      cloud.Act(Look(pid));
      if SecondsLeft(now) < HEADROOM { return Some("budget_day_boundary"), false; }
      cloud.Interfere(pid);
      var fault: bool := *;
      if fault { cloud.Act(Abort(pid)); return Some("storage_failure"), false; }
      var count := Count(cloud.s, day);
      ghost var basis := Stored(cloud.s, day);
      cloud.Act(Fetch(pid));
      if count >= DAILY_LIMIT { return Some("daily_budget_exhausted"), false; }
      cloud.Interfere(pid);
      late := *;
      if late { cloud.Act(Abort(pid)); return Some("run_deadline"), false; }
      assert At(Sending(day, basis, tries));
      var today := DayOf(cloud.s.now);
      cloud.Act(Send(pid));
      if today != day { return None, true; }
      code, again := Finish(day, tries);
    }

    /** What follows a sent write: the answer, and on success the second look at the clock. */
    method Finish(day: int, tries: nat) returns (code: Option<string>, again: bool)
      requires cloud.Valid() && pid < |cloud.s.collectors| && cloud.s.collectors[pid].pc.Awaiting?
      requires cloud.s.collectors[pid].pc.tries == tries && cloud.s.collectors[pid].pc.sent.day == day && cloud.s.collectors[pid].attempts == attempts
      modifies this`attempts, cloud
      ensures cloud.start == old(cloud.start) && old(cloud.trace) <= cloud.trace
      ensures again ==> At(Looping(tries + 1)) && attempts == old(attempts)
      ensures !again ==> Valid() && (if code.None? then attempts == old(attempts) + 1 else attempts == old(attempts) && code.value in BUDGET_CODES)
    {
      hide Inv, Initial, Run;
      cloud.Interfere(pid);
      var reply: Reply := *;
      if reply == Acknowledged && cloud.s.collectors[pid].pc.sent !in cloud.s.committed { reply := Failure; }
      cloud.Act(Answer(pid, reply));
      if reply.Conflict? { return None, true; }
      if reply.Failure? { return Some("storage_failure"), false; }
      cloud.Interfere(pid);
      var now := cloud.s.now;
      cloud.Act(Settle(pid));
      if !Chargeable(now, day) { return Some("budget_day_boundary"), false; }
      attempts := attempts + 1;
      code, again := None, false;
    }
  }

  lemma AttemptsAreGrants(s: State, pid: nat)
    requires Inv(s) && pid < |s.collectors|
    ensures s.collectors[pid].attempts == |GrantedTo(s, pid)| <= RUN_LIMIT
  {
    assert CollectorInv(s, pid);
  }
}
