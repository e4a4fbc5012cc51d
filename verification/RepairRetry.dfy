/**
 The three-hour cooldown of a failed repair, one stored document per source issue.
 Mirrors RepairRetry in tools/weather_collect_hosted.py.

 Any number of repair runs share the object store and a clock that does not go backwards. As in
 AttemptBudget, a conditional write may be delivered late, repeatedly or never, and the entity tag
 of a document stands for the document.
 */
module RepairRetry {
  import opened Basics

  const DELAY := 3 * 3600
  const REASONS := {"source_page_contract", "source_http_failure", "source_pagination_changed"}

  datatype Doc = Doc(failedAt: int, retryAfter: int, reason: string)

  datatype Write = Write(basis: Option<Doc>, doc: Doc)

  /** What a run knows: nothing yet, what it fetched, or that the cooldown of what it fetched is over. */
  datatype Pc = Idle | Fetched(found: Doc) | Cleared(basis: Option<Doc>) | Waiting(sent: Write)

  /** `history` is every document ever stored, the last one being the current one. */
  datatype State = State(issue: int, now: int, history: seq<Doc>, wire: set<Write>, runs: seq<Pc>)

  datatype Reply = Acknowledged | Conflict | Failure

  datatype Action =
    | Tick(elapsed: nat)
    | Fetch(run: nat)
    | Judge(run: nat)
    | SendFailure(run: nat, reason: string)
    | Deliver(write: Write)
    | Answer(run: nat, reply: Reply)
    | Abandon(run: nat)

  function Current(s: State): Option<Doc> { if s.history == [] then None else Some(s.history[|s.history| - 1]) }

  /** deferred() accepts this document at this time. */
  predicate Accepted(s: State, doc: Doc) {
    s.issue <= doc.failedAt <= s.now && doc.retryAfter == doc.failedAt + DELAY && doc.reason in REASONS
  }

  function Move(s: State, run: nat, pc: Pc): State
    requires run < |s.runs|
  {
    s.(runs := s.runs[run := pc])
  }

  /** An issue is only repaired once it is old enough to be eligible. */
  function Apply(s: State, a: Action): State {
    match a
    case Tick(elapsed) => s.(now := s.now + elapsed)
    case Deliver(w) => if w in s.wire && Current(s) == w.basis then s.(history := s.history + [w.doc]) else s
    case Fetch(r) =>
      if r < |s.runs| && s.runs[r].Idle? && s.issue <= s.now
      then Move(s, r, if Current(s).None? then Cleared(None) else Fetched(Current(s).value)) else s
    case Judge(r) =>
      if r < |s.runs| && s.runs[r].Fetched? then
        var doc := s.runs[r].found;
        Move(s, r, if Accepted(s, doc) && doc.retryAfter <= s.now then Cleared(Some(doc)) else Idle)
      else s
    case SendFailure(r, reason) =>
      if r < |s.runs| && s.runs[r].Cleared? && reason in REASONS then
        var w := Write(s.runs[r].basis, Doc(s.now, s.now + DELAY, reason));
        Move(s.(wire := s.wire + {w}), r, Waiting(w))
      else s
    case Answer(r, reply) =>
      if r < |s.runs| && s.runs[r].Waiting? && (reply.Acknowledged? ==> s.runs[r].sent.doc in s.history) then Move(s, r, Idle) else s
    case Abandon(r) => if r < |s.runs| then Move(s, r, Idle) else s
  }

  function Run(s: State, actions: seq<Action>): State
    decreases |actions|
  {
    if actions == [] then s else Run(Apply(s, actions[0]), actions[1..])
  }

  ghost predicate Spaced(history: seq<Doc>) {
    forall i :: 0 <= i && i + 1 < |history| ==> history[i].failedAt + DELAY <= history[i + 1].failedAt
  }

  ghost predicate RunInv(s: State, pc: Pc) {
    match pc
    case Idle => true
    case Fetched(doc) => s.issue <= s.now
    case Cleared(basis) => s.issue <= s.now && (basis.Some? ==> basis.value.failedAt + DELAY <= s.now)
    case Waiting(w) => w in s.wire
  }

  ghost predicate WriteInv(s: State, w: Write) {
    Accepted(s, w.doc) && (w.basis.Some? ==> w.basis.value.failedAt + DELAY <= w.doc.failedAt)
  }

  ghost predicate Inv(s: State) {
    && (forall i :: 0 <= i < |s.history| ==> Accepted(s, s.history[i]))
    && Spaced(s.history)
    && (forall w :: w in s.wire ==> WriteInv(s, w))
    && forall r :: 0 <= r < |s.runs| ==> RunInv(s, s.runs[r])
  }

  ghost predicate Initial(s: State) {
    s.history == [] && s.wire == {} && forall r :: 0 <= r < |s.runs| ==> s.runs[r].Idle?
  }

  lemma StepKeepsInv(s: State, a: Action)
    requires Inv(s)
    ensures Inv(Apply(s, a))
  {
    var t := Apply(s, a);
    match a {
      case Deliver(w) =>
        if t != s {
          assert WriteInv(s, w);
        }
      case SendFailure(r, reason) =>
        if t != s {
          assert RunInv(s, s.runs[r]);
        }
      case Tick(_) =>
        forall w | w in t.wire ensures WriteInv(t, w) { assert WriteInv(s, w); }
        forall r | 0 <= r < |t.runs| ensures RunInv(t, t.runs[r]) { assert RunInv(s, s.runs[r]); }
      case _ =>
        forall r | 0 <= r < |t.runs| && r != a.run ensures RunInv(t, t.runs[r]) { assert RunInv(s, s.runs[r]); }
    }
  }

  lemma {:induction false} RunKeepsInv(s: State, actions: seq<Action>)
    requires Inv(s)
    ensures Inv(Run(s, actions))
    decreases |actions|
  {
    if actions != [] {
      StepKeepsInv(s, actions[0]);
      RunKeepsInv(Apply(s, actions[0]), actions[1..]);
    }
  }

  lemma {:induction false} SpacedApart(history: seq<Doc>, i: nat, j: nat)
    requires Spaced(history) && i <= j < |history|
    ensures history[i].failedAt + (j - i) * DELAY <= history[j].failedAt
    decreases j
  {
    if i < j {
      SpacedApart(history, i, j - 1);
    }
  }

  /**
   Under every interleaving of repair runs, stored failures are at least three hours apart, every
   stored document passes the check the next reader makes, and n failures take 3(n - 1) hours.
   */
  lemma CooldownHolds(s: State, actions: seq<Action>, i: nat, j: nat)
    requires Initial(s) && i <= j < |Run(s, actions).history|
    ensures var t := Run(s, actions);
      && Accepted(t, t.history[i])
      && t.history[i].failedAt + (j - i) * DELAY <= t.history[j].failedAt <= t.now
  {
    RunKeepsInv(s, actions);
    SpacedApart(Run(s, actions).history, i, j);
  }

  /** A document once stored is only ever followed by others, so no write is applied twice. */
  lemma {:induction false} HistoryGrows(s: State, actions: seq<Action>)
    ensures s.history <= Run(s, actions).history
    decreases |actions|
  {
    if actions != [] {
      HistoryGrows(Apply(s, actions[0]), actions[1..]);
    }
  }

  lemma StoredOnce(s: State, actions: seq<Action>, i: nat, j: nat)
    requires Initial(s) && i < j < |Run(s, actions).history|
    ensures Run(s, actions).history[i] != Run(s, actions).history[j]
  {
    CooldownHolds(s, actions, i, j);
  }

  /** Two runs that cleared the same document cannot both have their failure stored over it. */
  lemma OneWinner(s: State, w1: Write, w2: Write)
    requires Inv(s) && w1 in s.wire && w2 in s.wire && w1.basis == w2.basis && w1.doc != w2.doc
    requires Current(s) == w1.basis
    ensures var t := Apply(s, Deliver(w1)); t.history == s.history + [w1.doc] && Apply(t, Deliver(w2)) == t
  {
  }

  /* ---------- deferred() and defer() as one thread of the interleaving ---------- */

  predicate Foreign(a: Action, run: nat) { a.Tick? || a.Deliver? || a.run != run }

  lemma {:induction false} RunAppend(s: State, a: seq<Action>, b: seq<Action>)
    ensures Run(s, a + b) == Run(Run(s, a), b)
    decreases |a|
  {
    if a == [] {
      assert a + b == b;
    } else {
      assert (a + b)[1..] == a[1..] + b;
      RunAppend(Apply(s, a[0]), a[1..], b);
    }
  }

  lemma {:induction false} ForeignLeavesAlone(s: State, actions: seq<Action>, run: nat)
    requires run < |s.runs| && forall i :: 0 <= i < |actions| ==> Foreign(actions[i], run)
    ensures run < |Run(s, actions).runs| && Run(s, actions).runs[run] == s.runs[run]
    ensures s.now <= Run(s, actions).now
    decreases |actions|
  {
    if actions != [] {
      ForeignLeavesAlone(Apply(s, actions[0]), actions[1..], run);
    }
  }

  class Cloud {
    var s: State
    ghost var start: State
    ghost var trace: seq<Action>

    constructor (s: State)
      requires Initial(s)
      ensures Valid() && this.s == s == start && trace == []
    {
      this.s, start, trace := s, s, [];
    }

    ghost predicate Valid()
      reads this
    {
      Initial(start) && s == Run(start, trace) && Inv(s)
    }

    method Act(a: Action)
      requires Valid()
      modifies this
      ensures Valid() && start == old(start) && s == Apply(old(s), a) && trace == old(trace) + [a]
    {
      hide Apply, Inv;
      StepKeepsInv(s, a);
      RunAppend(start, trace, [a]);
      assert Run(s, [a]) == Run(Apply(s, a), []);
      s := Apply(s, a);
      trace := trace + [a];
    }

    method Interfere(run: nat)
      requires Valid() && run < |s.runs|
      modifies this
      ensures Valid() && start == old(start) && old(trace) <= trace
      ensures run < |s.runs| && s.runs[run] == old(s).runs[run] && old(s).now <= s.now
    {
      hide Apply, Inv;
      var actions: seq<Action> := *;
      if forall i :: 0 <= i < |actions| ==> Foreign(actions[i], run) {
        RunKeepsInv(s, actions);
        ForeignLeavesAlone(s, actions, run);
        RunAppend(start, trace, actions);
        s := Run(s, actions);
        trace := trace + actions;
      }
    }
  }

  /** What deferred() returned or raised. */
  datatype Verdict = Deferred | Due | Broken

  class RepairRetry {
    const run: nat
    const cloud: Cloud
    var etag: Option<Doc>

    constructor (run: nat, cloud: Cloud)
      requires cloud.Valid() && run < |cloud.s.runs| && cloud.s.runs[run].Idle?
      ensures this.run == run && this.cloud == cloud && etag == None && At(Idle)
    {
      this.run, this.cloud, etag := run, cloud, None;
    }

    ghost predicate At(pc: Pc)
      reads this, cloud
    {
      cloud.Valid() && run < |cloud.s.runs| && cloud.s.runs[run] == pc
    }

    /** Due means: at the moment of reading there was no failure stored, or its cooldown was over. */
    method CheckDeferred() returns (verdict: Verdict)
      requires At(Idle)
      modifies this`etag, cloud
      ensures cloud.start == old(cloud.start) && old(cloud.trace) <= cloud.trace
      ensures verdict.Due? ==> At(Cleared(etag)) && (etag.Some? ==> etag.value.failedAt + DELAY <= cloud.s.now)
      ensures verdict.Deferred? ==> At(Idle) && etag.Some? && cloud.s.now < etag.value.retryAfter
      ensures verdict.Broken? ==> At(Idle)
    {
      hide Inv, Initial, Run;
      cloud.Interfere(run);
      var fault: bool := *;
      if fault || cloud.s.now < cloud.s.issue { return Broken; }
      var found := Current(cloud.s);
      cloud.Act(Fetch(run));
      if found.None? {
        etag := None;
        return Due;
      }
      cloud.Interfere(run);
      var now := cloud.s.now;
      var fine := Accepted(cloud.s, found.value);
      cloud.Act(Judge(run));
      if !fine { return Broken; }
      etag := found;
      verdict := if now < found.value.retryAfter then Deferred else Due;
    }

    /** Sends the new failure over what was read; true only if it is stored. */
    method Defer(reason: string) returns (stored: bool)
      requires At(Cleared(etag)) && reason in REASONS
      modifies cloud
      ensures At(Idle) && cloud.start == old(cloud.start) && old(cloud.trace) <= cloud.trace
      ensures stored ==> exists doc :: doc in cloud.s.history && doc.reason == reason && old(cloud.s).now <= doc.failedAt
    {
      hide Inv, Initial, Run;
      cloud.Interfere(run);
      var late: bool := *;
      if late { cloud.Act(Abandon(run)); return false; }
      ghost var doc := Doc(cloud.s.now, cloud.s.now + DELAY, reason);
      cloud.Act(SendFailure(run, reason));
      assert cloud.s.runs[run] == Waiting(Write(etag, doc));
      cloud.Interfere(run);
      var reply: Reply := *;
      if reply == Acknowledged && cloud.s.runs[run].sent.doc !in cloud.s.history { reply := Failure; }
      cloud.Act(Answer(run, reply));
      assert reply == Acknowledged ==> doc in cloud.s.history;
      stored := reply == Acknowledged;
    }
  }
}
