/**
 The outside world of a deployment: Airflow's pause flags and run counts, and the clock.
 Every call may raise; a mutating call that raises may or may not have taken effect.
 Mirrors the protocols in deployment/adapters.py.
 */
module Adapters {
  import opened Basics
  import opened Overlay
  import opened Ledger

  datatype PauseReply = PauseRaised | PauseMalformed | Flags(flags: map<string, bool>)

  datatype CountsReply = CountsRaised | CountsMalformed | Counts(running: nat, queued: nat)

  class Airflow {
    var paused: map<string, bool>

    constructor (paused: map<string, bool>)
      ensures this.paused == paused
    {
      this.paused := paused;
    }

    /** A well-formed reply reports the flags as they are, for exactly the DAGs asked about. */
    method CapturePauseState(dags: set<string>) returns (reply: PauseReply)
      ensures reply.Flags? ==> dags <= paused.Keys && reply.flags == map d | d in dags :: paused[d]
    {
      var fault: bool := *;
      var malformed: bool := *;
      if fault || !(dags <= paused.Keys) { return PauseRaised; }
      reply := if malformed then PauseMalformed else Flags(map d | d in dags :: paused[d]);
    }

    method WriterRunCounts(writers: set<string>) returns (reply: CountsReply)
    {
      reply := *;
    }

    method SetPaused(dag: string, flag: bool) returns (ok: bool)
      modifies this
      ensures ok ==> dag in old(paused) && paused == old(paused)[dag := flag]
      ensures paused == old(paused) || (dag in old(paused) && paused == old(paused)[dag := flag])
    {
      if dag !in paused { return false; }
      var early: bool := *;
      if early { return false; }
      paused := paused[dag := flag];
      ok := *;
    }
  }

  /** A monotonic clock that a sleep advances by at least what was asked. */
  class Clock {
    var now: real

    constructor ()
    {
      now := 0.0;
    }

    method Tick()
      modifies this
      ensures now >= old(now)
    {
      var step: real := *;
      if step > 0.0 { now := now + step; }
    }

    method Monotonic() returns (reading: Option<real>)
      modifies this
      ensures now >= old(now)
      ensures reading.Some? ==> reading.value == now
    {
      Tick();
      var fault: bool := *;
      reading := if fault then None else Some(now);
    }

    method Sleep(seconds: real) returns (ok: bool)
      modifies this
      ensures now >= old(now)
      ensures ok ==> now >= old(now) + seconds
    {
      Tick();
      ok := *;
      if ok && seconds > 0.0 { now := now + seconds; }
    }

    /** The wall clock; its text may be anything and it may go backwards. */
    method UtcNow() returns (stamp: Option<Stamp>)
    {
      stamp := *;
    }
  }

  /** docker compose config, docker compose up and the health probe: they return or they raise. */
  method ForeignCall() returns (ok: bool)
  {
    ok := *;
  }

  /** git worktree add --detach: whatever path it reports, or a raise. */
  method DetachedCheckout(repository: string, candidateSha: string, root: string) returns (path: Option<string>)
  {
    path := *;
  }
}
