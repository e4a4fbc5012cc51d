/**
 One deployment run: drain, pause, check out, stage, validate, install, verify, restore, record,
 and the three failure tails. Mirrors deployment/main_orchestrator.py.

 Every adapter call may fail; a method that always raises returns the public category it raises.
 The contracts say, for every fault pattern, which record (RecordShape), which overlay (OverlayShape)
 and which pause flags (OnlyFlagsOf) a run leaves, and in which order it acted (Guarded): an install
 only after the writers were drained, everything was paused, and the exact checkout was staged and
 validated; a rollback's restore only after everything was paused and the writers were drained.
 Whole histories of runs are in DeployHistory.
 */
module Orchestrator {
  import opened Basics
  import opened Overlay
  import opened Ledger
  import opened OverlayStore
  import opened Adapters

  datatype Event =
    | Polled(at: real, reply: CountsReply)
    | Readback(flags: map<string, bool>)
    | ReadbackFailed
    | PauseRequested(dag: string)
    | UnpauseRequested(dag: string)
    | CheckedOut(path: string)
    | CandidateValidated(content: Content)
    | InstallRequested(content: Content)
    | RestoreRequested(content: Content)
    | InstallVerified(content: Content)
    | ServicesDeployed
    | HealthPassed(content: Content)

  const LOCK_FAILED := "main-deploy-lock-failed"
  const LEDGER_FAILED := "main-deploy-ledger-failed"
  const ROLLBACK_UNAVAILABLE := "main-deploy-rollback-unavailable"
  const CANDIDATE_INVALID := "main-deploy-rollback-candidate-invalid"
  const SNAPSHOT_INVALID := "main-deploy-snapshot-invalid"
  const PAUSE_UNVERIFIED := "main-deploy-pause-verification-failed"
  const COUNTS_INVALID := "main-deploy-writer-counts-invalid"
  const DRAIN_TIMEOUT := "main-deploy-drain-timeout"
  const DRAIN_FAILED := "main-deploy-drain-failed"
  const CHECKOUT_FAILED := "main-deploy-checkout-failed"
  const STAGE_FAILED := "main-deploy-candidate-stage-failed"
  const VALIDATION_FAILED := "main-deploy-candidate-validation-failed"
  const DEPLOY_FAILED := "main-deploy-failed"
  const ROLLED_BACK := "main-deploy-rolled-back"
  const ROLLBACK_FAILED := "main-deploy-rollback-failed"
  const STATE_UNVERIFIED := "main-deploy-pause-state-unverified"

  const REFUSALS := {LOCK_FAILED, LEDGER_FAILED, ROLLBACK_UNAVAILABLE, CANDIDATE_INVALID, SNAPSHOT_INVALID, DEPLOY_FAILED}
  const EARLY_STOPS := {
    PAUSE_UNVERIFIED, COUNTS_INVALID, DRAIN_TIMEOUT, DRAIN_FAILED, CHECKOUT_FAILED, STAGE_FAILED, VALIDATION_FAILED,
    DEPLOY_FAILED, LEDGER_FAILED
  }
  const SAFE_CATEGORIES := REFUSALS + EARLY_STOPS + {ROLLED_BACK, ROLLBACK_FAILED, STATE_UNVERIFIED}
  const DRAIN_STOPS := {COUNTS_INVALID, DRAIN_TIMEOUT, DRAIN_FAILED}

  /** The ranges the target loader enforces on its timeouts. */
  predicate WellFormed(target: Target) {
    60 <= target.drainTimeout <= 3600 && 5 <= target.pollInterval <= 60
  }

  function AllPaused(dags: set<string>): map<string, bool> { map d | d in dags :: true }

  /* ---------- what must come before what ---------- */

  predicate IsZeroPoll(e: Event) { e.Polled? && e.reply == Counts(0, 0) }

  /** From `from` to the end nothing was asked to unpause. */
  predicate NoUnpause(events: seq<Event>, from: nat) {
    forall k :: from <= k < |events| ==> !events[k].UnpauseRequested?
  }

  /** Zero writers, then all paused, then the exact checkout, then the validated candidate. */
  ghost predicate ReadyToInstall(events: seq<Event>, lo: nat, dags: set<string>, checkout: string, content: Content) {
    exists a, b, c, d :: InstallSteps(events, lo, dags, checkout, content, a, b, c, d)
  }

  ghost predicate InstallSteps(events: seq<Event>, lo: nat, dags: set<string>, checkout: string, content: Content,
                               a: nat, b: nat, c: nat, d: nat) {
    && lo <= a < b < c < d < |events|
    && IsZeroPoll(events[a]) && events[b] == Readback(AllPaused(dags))
    && events[c] == CheckedOut(checkout) && events[d] == CandidateValidated(content)
    && NoUnpause(events, a)
  }

  /** All paused, then zero writers. */
  ghost predicate ReadyToRestore(events: seq<Event>, lo: nat, dags: set<string>) {
    exists a, b :: RestoreSteps(events, lo, dags, a, b)
  }

  ghost predicate RestoreSteps(events: seq<Event>, lo: nat, dags: set<string>, a: nat, b: nat) {
    lo <= a < b < |events| && events[a] == Readback(AllPaused(dags)) && IsZeroPoll(events[b]) && NoUnpause(events, a)
  }

  /** Every install and restore request from `lo` on was reached in order. */
  ghost predicate Guarded(events: seq<Event>, lo: nat, dags: set<string>, checkout: string) {
    forall i :: lo <= i < |events| ==>
      && (events[i].InstallRequested? ==> ReadyToInstall(events[..i], lo, dags, checkout, events[i].content))
      && (events[i].RestoreRequested? ==> ReadyToRestore(events[..i], lo, dags))
  }

  predicate ChangesOverlay(e: Event) { e.InstallRequested? || e.RestoreRequested? }

  /** Appending events that are neither install nor restore keeps a log guarded. */
  lemma GuardedExtends(before: seq<Event>, after: seq<Event>, lo: nat, dags: set<string>, checkout: string)
    requires Guarded(before, lo, dags, checkout) && before <= after
    requires forall i :: |before| <= i < |after| ==> !ChangesOverlay(after[i])
    ensures Guarded(after, lo, dags, checkout)
  {
    forall i | lo <= i < |after| && ChangesOverlay(after[i])
      ensures (after[i].InstallRequested? ==> ReadyToInstall(after[..i], lo, dags, checkout, after[i].content))
      ensures (after[i].RestoreRequested? ==> ReadyToRestore(after[..i], lo, dags))
    {
      assert after[..i] == before[..i] && after[i] == before[i];
    }
  }

  lemma GuardedPush(before: seq<Event>, e: Event, lo: nat, dags: set<string>, checkout: string)
    requires Guarded(before, lo, dags, checkout)
    requires e.InstallRequested? ==> ReadyToInstall(before, lo, dags, checkout, e.content)
    requires e.RestoreRequested? ==> ReadyToRestore(before, lo, dags)
    ensures Guarded(before + [e], lo, dags, checkout)
  {
    var after := before + [e];
    forall i | lo <= i < |after| && ChangesOverlay(after[i])
      ensures (after[i].InstallRequested? ==> ReadyToInstall(after[..i], lo, dags, checkout, after[i].content))
      ensures (after[i].RestoreRequested? ==> ReadyToRestore(after[..i], lo, dags))
    {
      if i < |before| {
        assert after[..i] == before[..i];
      } else {
        assert after[..i] == before;
      }
    }
  }

  /* ---------- the run as a change of plant ---------- */

  /** The parts of the world a run is about. */
  datatype Plant = Plant(
    paused: map<string, bool>,
    installed: Option<Content>,
    records: map<DeploymentId, Record>,
    baselines: set<BaselineRecord>)

  datatype Ending =
    | AlreadyDone
    | Refused(category: string)
    | Deployed(candidate: Content, at: Stamp)
    | StoppedEarly(category: string)
    | BackedOut(restored: Content)
    | Closed(category: string, installing: bool)

  /** What the passes over the ledger saw: the idempotence check, then the rollback choice and its baselines. */
  datatype Sight = Sight(first: map<DeploymentId, Record>, second: map<DeploymentId, Record>, baselines: set<BaselineRecord>)

  /** The overlay a failed install goes back to: of the latest success seen, or the newest baseline seen when none is. */
  ghost predicate IsRollbackPoint(target: Target, id: DeploymentId, sight: Sight, content: Content) {
    || (exists r :: IsPreviousSuccess(sight.second, id.fingerprint, r) && IsEarlierRelease(target, id, r, content))
    || (NoSuccess(sight.second, id.fingerprint) && exists b ::
          IsNewestBaseline(sight.baselines, id.fingerprint, b) && b.overlay == Base64(content) && Acceptable(target, Baseline, content))
  }

  /** The overlay a success record holds, of another commit of the same repository. */
  ghost predicate IsEarlierRelease(target: Target, id: DeploymentId, r: Record, content: Content) {
    && r.overlay == Some(Base64(content)) && Acceptable(target, Release(r.candidateSha), content)
    && r.repository == id.repository && r.candidateSha != id.candidateSha
  }

  /** A record of this run that is not a success. */
  predicate Unsuccessful(r: Record, id: DeploymentId) { ValidRecord(r) && r.id == id && r.outcome != Success }

  /** The record a run that did not succeed leaves behind; a lost last write leaves STARTED. */
  predicate RecordFor(r: Record, ending: Ending) {
    match ending
    case StoppedEarly(category) => r.outcome == Failed || (category == LEDGER_FAILED && r.outcome == Started)
    case BackedOut(restored) => r.outcome == RolledBack && r.overlay == Some(Base64(restored))
    case Closed(category, _) => r.outcome == Started || (r.outcome == RollbackFailed && (r.terminal.Some? <==> category == STATE_UNVERIFIED))
    case _ => false
  }

  ghost predicate Marked(before: map<DeploymentId, Record>, after: map<DeploymentId, Record>, id: DeploymentId, ending: Ending) {
    exists r :: Unsuccessful(r, id) && RecordFor(r, ending) && after == before[id := r]
  }

  ghost predicate SuccessMarked(before: map<DeploymentId, Record>, after: map<DeploymentId, Record>, id: DeploymentId, candidate: Content, at: Stamp) {
    exists r :: IsSuccessRecord(r, id, candidate, at) && after == before[id := r]
  }

  predicate IsSuccessRecord(r: Record, id: DeploymentId, candidate: Content, at: Stamp) {
    EligibleSuccess(r, id.fingerprint) && ValidRecord(r) && r.id == id && r.overlay == Some(Base64(candidate)) && r.completedAt == Some(at)
  }

  predicate Admitted(ending: Ending) { !ending.AlreadyDone? && !ending.Refused? }

  /** What a run has established before it writes its STARTED record. */
  ghost predicate CanStart(target: Target, id: DeploymentId, pre: Plant, sight: Sight) {
    && !HasSuccess(sight.first, id)
    && (exists content :: IsRollbackPoint(target, id, sight, content))
    && target.dagAllowlist <= pre.paused.Keys
  }

  ghost predicate SightOf(sight: Sight, plant: Plant) {
    Sees(sight.first, plant.records) && Sees(sight.second, plant.records) && sight.baselines <= plant.baselines
  }

  /** Everything a run may do to the plant, by how it ends. */
  ghost predicate Effect(target: Target, id: DeploymentId, pre: Plant, post: Plant, ending: Ending, sight: Sight) {
    && SightOf(sight, pre) && post.baselines == pre.baselines
    && (Admitted(ending) ==> CanStart(target, id, pre, sight))
    && (ending.StoppedEarly? || ending.BackedOut? || ending.Closed? ==> Marked(pre.records, post.records, id, ending))
    && match ending
       case AlreadyDone => post == pre && HasSuccess(sight.first, id)
       case Refused(category) => post == pre && category in REFUSALS
       case Deployed(candidate, at) =>
         && post.paused == pre.paused && post.installed == Some(candidate)
         && candidate == Rendered(target, Release(id.candidateSha)) && SuccessMarked(pre.records, post.records, id, candidate, at)
       case StoppedEarly(category) =>
         && post.paused == pre.paused && post.installed == pre.installed && category in EARLY_STOPS
       case BackedOut(restored) =>
         && post.paused == pre.paused && post.installed == Some(restored)
         && IsRollbackPoint(target, id, sight, restored)
       case Closed(category, installing) =>
         && category in {ROLLBACK_FAILED, STATE_UNVERIFIED}
         && (!installing ==> post.installed == pre.installed)
         && (post.installed == pre.installed
             || post.installed == Some(Rendered(target, Release(id.candidateSha)))
             || (post.installed.Some? && IsRollbackPoint(target, id, sight, post.installed.value)))
         && (category == ROLLBACK_FAILED ==> forall d :: d in target.dagAllowlist ==> d in post.paused && post.paused[d])
         && (forall d :: d in pre.paused.Keys + post.paused.Keys && d !in target.dagAllowlist ==>
               d in pre.paused && d in post.paused && post.paused[d] == pre.paused[d])
  }

  datatype RunResult = Succeeded(id: DeploymentId, idempotent: bool) | Raised(category: string)

  function ResultOf(id: DeploymentId, ending: Ending): RunResult {
    match ending
    case AlreadyDone => Succeeded(id, true)
    case Refused(category) => Raised(category)
    case Deployed(_, _) => Succeeded(id, false)
    case StoppedEarly(category) => Raised(category)
    case BackedOut(_) => Raised(ROLLED_BACK)
    case Closed(category, _) => Raised(category)
  }

  function MakeRecord(id: DeploymentId, startedAt: Stamp, completedAt: Option<Stamp>, outcome: Outcome, health: Option<string>,
                      artifact: Option<Artifact>, terminal: Option<Terminal>): Record {
    Record(SCHEMA_V2, id, id.repository, id.candidateSha, id.fingerprint, startedAt, completedAt, outcome, health,
      if artifact.Some? then Some(Base64(artifact.value.content)) else None,
      if artifact.Some? then Some(artifact.value.sha256) else None, terminal)
  }

  class MainDeploymentOrchestrator {
    const target: Target
    const airflow: Airflow
    const clock: Clock
    const store: AtomicOverlayStore
    const ledger: DeploymentLedger
    var events: seq<Event>

    constructor (target: Target, airflow: Airflow, clock: Clock, store: AtomicOverlayStore, ledger: DeploymentLedger)
      requires WellFormed(target) && store.target == target && ledger.Valid()
      ensures Ready() && events == []
      ensures this.target == target && this.airflow == airflow && this.clock == clock && this.store == store && this.ledger == ledger
    {
      this.target, this.airflow, this.clock, this.store, this.ledger := target, airflow, clock, store, ledger;
      events := [];
    }

    ghost predicate Ready()
      reads this, ledger
    {
      WellFormed(target) && store.target == target && ledger.Valid()
    }

    ghost function CurrentPlant(): Plant
      reads airflow, store, ledger
    {
      Plant(airflow.paused, store.installed, Records(ledger.files), ledger.baselines)
    }

    /* ----- reading and setting pause flags ----- */

    method PauseStateMatches(dags: set<string>, expected: map<string, bool>) returns (matches: bool)
      requires expected.Keys == dags
      modifies this`events
      ensures |events| == |old(events)| + 1 && old(events) <= events
      ensures matches <==> events[|events| - 1] == Readback(expected)
      ensures !matches ==> var e := events[|events| - 1]; e.ReadbackFailed? || e.Readback?
      ensures matches ==> forall d :: d in dags ==> d in airflow.paused && airflow.paused[d] == expected[d]
    {
      var reply := airflow.CapturePauseState(dags);
      if !reply.Flags? {
        events := events + [ReadbackFailed];
        return false;
      }
      events := events + [Readback(reply.flags)];
      matches := reply.flags == expected;
    }

    /** Asks for every DAG to be paused; with `tolerant` a refusal does not stop the walk. */
    method RequestPauses(dags: set<string>, tolerant: bool) returns (ok: bool)
      modifies this`events, airflow
      ensures old(events) <= events
      ensures forall i :: |old(events)| <= i < |events| ==> events[i].PauseRequested?
      ensures OnlyFlagsOf(dags, old(airflow.paused), airflow.paused)
      ensures tolerant ==> ok
    {
      var todo := dags;
      ok := true;
      while todo != {}
        invariant todo <= dags && ok
        invariant old(events) <= events
        invariant forall i :: |old(events)| <= i < |events| ==> events[i].PauseRequested?
        invariant OnlyFlagsOf(dags, old(airflow.paused), airflow.paused)
        decreases |todo|
      {
        var dag :| dag in todo;
        var done := airflow.SetPaused(dag, true);
        events := events + [PauseRequested(dag)];
        if !done && !tolerant { return false; }
        todo := todo - {dag};
      }
    }

    method PauseAll(dags: set<string>) returns (failure: Option<string>)
      modifies this`events, airflow
      ensures old(events) <= events
      ensures forall i :: |old(events)| <= i < |events| ==> var e := events[i]; e.PauseRequested? || e.Readback? || e.ReadbackFailed?
      ensures OnlyFlagsOf(dags, old(airflow.paused), airflow.paused)
      ensures failure.Some? ==> failure.value in {DEPLOY_FAILED, PAUSE_UNVERIFIED}
      ensures failure.None? ==> |old(events)| < |events| && events[|events| - 1] == Readback(AllPaused(dags))
    {
      var ok := RequestPauses(dags, false);
      if !ok { return Some(DEPLOY_FAILED); }
      var matches := PauseStateMatches(dags, AllPaused(dags));
      failure := if matches then None else Some(PAUSE_UNVERIFIED);
    }

    /** Unpauses what the snapshot had running, then insists on reading the snapshot back. */
    method RestoreSnapshot(snapshot: map<string, bool>) returns (ok: bool)
      modifies this`events, airflow
      ensures old(events) <= events
      ensures forall i :: |old(events)| <= i < |events| ==> var e := events[i]; e.UnpauseRequested? || e.Readback? || e.ReadbackFailed?
      ensures OnlyFlagsOf(snapshot.Keys, old(airflow.paused), airflow.paused)
      ensures ok ==> |old(events)| < |events| && events[|events| - 1] == Readback(snapshot)
      ensures ok ==> forall d :: d in snapshot ==> d in airflow.paused && airflow.paused[d] == snapshot[d]
    {
      var todo := snapshot.Keys;
      while todo != {}
        invariant todo <= snapshot.Keys
        invariant old(events) <= events
        invariant forall i :: |old(events)| <= i < |events| ==> events[i].UnpauseRequested?
        invariant OnlyFlagsOf(snapshot.Keys, old(airflow.paused), airflow.paused)
        decreases |todo|
      {
        var dag :| dag in todo;
        if !snapshot[dag] {
          var done := airflow.SetPaused(dag, false);
          events := events + [UnpauseRequested(dag)];
          if !done { return false; }
        }
        todo := todo - {dag};
      }
      ok := PauseStateMatches(snapshot.Keys, snapshot);
    }

    /* ----- waiting for the writers ----- */

    /**
     Polls until a poll shows nothing running and nothing queued. Makes at most
     ceil(timeout / interval) polls, and none but the first at or past the deadline.
     */
    method Drain() returns (failure: Option<string>)
      requires WellFormed(target)
      modifies this`events, clock
      ensures old(events) <= events
      ensures forall i :: |old(events)| <= i < |events| ==> events[i].Polled?
      ensures failure.None? ==> |old(events)| < |events| && IsZeroPoll(events[|events| - 1])
      ensures failure.Some? ==> failure.value in DRAIN_STOPS
      ensures |events| > |old(events)| ==> (|events| - |old(events)| - 1) * target.pollInterval < target.drainTimeout
      ensures forall i :: |old(events)| < i < |events| ==>
                events[i].at < events[|old(events)|].at + target.drainTimeout as real
      ensures forall i :: |old(events)| <= i < |events| - 1 ==> !IsZeroPoll(events[i])
    {
      var start := clock.Monotonic();
      if start.None? { return Some(DRAIN_FAILED); }
      var deadline := start.value + target.drainTimeout as real;
      var first := true;
      var at := start.value;
      ghost var polls: nat := 0;
      while true
        invariant old(events) <= events && |events| == |old(events)| + polls
        invariant forall i :: |old(events)| <= i < |events| ==> events[i].Polled? && !IsZeroPoll(events[i])
        invariant first <==> polls == 0
        invariant polls == 0 ==> at == start.value
        invariant polls > 0 ==> events[|old(events)|].at == start.value && (polls - 1) * target.pollInterval < target.drainTimeout
        invariant forall i :: |old(events)| < i < |events| ==> events[i].at < deadline
        invariant clock.now >= start.value
        invariant clock.now >= deadline || clock.now >= start.value + (polls * target.pollInterval) as real
        decreases target.drainTimeout + target.pollInterval - polls * target.pollInterval
      {
        if !first {
          var reading := clock.Monotonic();
          if reading.None? { return Some(DRAIN_FAILED); }
          if reading.value >= deadline { return Some(DRAIN_TIMEOUT); }
          at := reading.value;
        }
        var reply := airflow.WriterRunCounts(target.writerAllowlist);
        events := events + [Polled(at, reply)];
        assert polls * target.pollInterval < target.drainTimeout;
        ghost var before := polls;
        polls := polls + 1;
        assert polls * target.pollInterval == before * target.pollInterval + target.pollInterval;
        if reply.CountsRaised? { return Some(DRAIN_FAILED); }
        if reply.CountsMalformed? { return Some(COUNTS_INVALID); }
        if reply == Counts(0, 0) { return None; }
        var second := clock.Monotonic();
        if second.None? { return Some(DRAIN_FAILED); }
        var remaining := deadline - second.value;
        if remaining <= 0.0 { return Some(DRAIN_TIMEOUT); }
        var interval := target.pollInterval as real;
        var slept := clock.Sleep(if interval <= remaining then interval else remaining);
        if !slept { return Some(DRAIN_FAILED); }
        first := false;
      }
    }

    /* ----- choosing what to go back to ----- */

    method ValidatePrevious(record: Record, id: DeploymentId) returns (artifact: Option<Artifact>)
      ensures artifact.Some? ==>
        IsEarlierRelease(target, id, record, artifact.value.content) && Genuine(artifact.value)
    {
      if record.schema !in {SCHEMA_V1, SCHEMA_V2} || record.repository != id.repository || record.fingerprint != id.fingerprint
        || record.candidateSha == id.candidateSha || record.outcome != Success || record.health != Some("passed")
        || record.completedAt.None? || record.overlay.None? || record.overlaySha.None? {
        return None;
      }
      if !record.startedAt.Utc? || !record.completedAt.value.Utc?
        || record.id != DeploymentId(record.repository, record.candidateSha, id.fingerprint) || record.overlay.value.NotBase64? {
        return None;
      }
      artifact := ValidateOverlayContent(target, record.overlay.value.content, record.overlaySha.value);
      if artifact.Some? && artifact.value.kind != Release(record.candidateSha) { artifact := None; }
    }

    method ValidateBaseline(record: BaselineRecord, id: DeploymentId) returns (artifact: Option<Artifact>)
      ensures artifact.Some? ==> record.overlay == Base64(artifact.value.content) && Acceptable(target, Baseline, artifact.value.content)
      ensures artifact.Some? ==> Genuine(artifact.value)
    {
      if record.schema != BASELINE_SCHEMA || record.baselineId != BASELINE_ID || record.fingerprint != id.fingerprint
        || record.rehearsal != "passed" || !record.capturedAt.Utc? || record.overlay.NotBase64? {
        return None;
      }
      artifact := ValidateOverlayContent(target, record.overlay.content, record.overlaySha);
      if artifact.Some? && artifact.value.kind != Baseline { artifact := None; }
    }

    /** The latest success of the target when it has one, its baseline otherwise. */
    method ChooseRollback(id: DeploymentId, ghost first: map<DeploymentId, Record>)
      returns (refusal: string, artifact: Option<Artifact>, ghost sight: Sight)
      requires Ready()
      ensures sight.first == first && Sees(sight.second, Records(ledger.files)) && sight.baselines <= ledger.baselines
      ensures artifact.Some? ==> IsRollbackPoint(target, id, sight, artifact.value.content) && Genuine(artifact.value)
      ensures artifact.None? ==> refusal in REFUSALS
    {
      hide IsPreviousSuccess, EligibleSuccess, Records, ValidRecord, Acceptable, IsNewestBaseline, NoSuccess;
      refusal, artifact := LEDGER_FAILED, None;
      var ok, previous, seen := ledger.PreviousSuccess(id.fingerprint);
      sight := Sight(first, seen, {});
      if !ok { return; }
      if previous.Some? {
        artifact := ValidatePrevious(previous.value, id);
        refusal := CANDIDATE_INVALID;
        return;
      }
      var fine, baseline, found := ledger.BaselineFor(id.fingerprint);
      sight := Sight(first, seen, found);
      if !fine { return; }
      if baseline.None? { refusal := ROLLBACK_UNAVAILABLE; return; }
      artifact := ValidateBaseline(baseline.value, id);
      refusal := CANDIDATE_INVALID;
    }

    /* ----- recording how the run ended ----- */

    /** Stamps the end of the run and writes the record; nothing changes when it reports failure. */
    method Complete(id: DeploymentId, startedAt: Stamp, outcome: Outcome, health: Option<string>, artifact: Option<Artifact>, terminal: Option<Terminal>)
      returns (ok: bool, ghost record: Record)
      requires Ready()
      modifies ledger`files
      ensures Ready()
      ensures ok ==> ValidRecord(record) && Records(ledger.files) == Records(old(ledger.files))[id := record]
      ensures ok ==> record.completedAt.Some? && record == MakeRecord(id, startedAt, record.completedAt, outcome, health, artifact, terminal)
      ensures !ok ==> ledger.files == old(ledger.files)
    {
      hide ValidRecord, Records;
      var now := clock.UtcNow();
      record := MakeRecord(id, startedAt, now, outcome, health, artifact, terminal);
      if now.None? || !now.value.Utc? { return false, record; }
      ok := ledger.Write(MakeRecord(id, startedAt, now, outcome, health, artifact, terminal));
    }

    /* ----- the three failure tails: the category each one raises ----- */

    /** Pauses everything it can and says whether a readback proved it. */
    method FailClosed(id: DeploymentId, startedAt: Stamp) returns (category: string)
      requires Ready() && StartedIn(Records(ledger.files), id)
      modifies this`events, airflow, ledger`files
      ensures Ready() && old(events) <= events && |old(events)| < |events|
      ensures forall i :: |old(events)| <= i < |events| ==> !ChangesOverlay(events[i])
      ensures category in {ROLLBACK_FAILED, STATE_UNVERIFIED}
      ensures category == ROLLBACK_FAILED <==> events[|events| - 1] == Readback(AllPaused(target.dagAllowlist))
      ensures category == ROLLBACK_FAILED ==> forall d :: d in target.dagAllowlist ==> d in airflow.paused && airflow.paused[d]
      ensures OnlyFlagsOf(target.dagAllowlist, old(airflow.paused), airflow.paused)
      ensures Marked(Records(old(ledger.files)), Records(ledger.files), id, Closed(category, true))
    {
      hide ValidRecord, Records;
      var dags := target.dagAllowlist;
      var asked := RequestPauses(dags, true);
      var proven := PauseStateMatches(dags, AllPaused(dags));
      var written, record := Complete(id, startedAt, RollbackFailed, Some("failed"), None, if proven then None else Some(PauseStateUnverified));
      category := if proven then ROLLBACK_FAILED else STATE_UNVERIFIED;
      MarkIntro(Records(old(ledger.files)), Records(ledger.files), id, written, record, Closed(category, true));
    }

    method FailBeforeInstall(id: DeploymentId, startedAt: Stamp, snapshot: map<string, bool>, staged: Option<nat>, category: string)
      returns (raised: string, ghost closed: bool)
      requires Ready() && StartedIn(Records(ledger.files), id) && snapshot.Keys == target.dagAllowlist && category in EARLY_STOPS
      modifies this`events, airflow, ledger`files, store`staged
      ensures Ready() && old(events) <= events && |old(events)| < |events|
      ensures forall i :: |old(events)| <= i < |events| ==> !ChangesOverlay(events[i])
      ensures OnlyFlagsOf(target.dagAllowlist, old(airflow.paused), airflow.paused)
      ensures Marked(Records(old(ledger.files)), Records(ledger.files), id, if closed then Closed(raised, false) else StoppedEarly(raised))
      ensures closed <==> raised in {ROLLBACK_FAILED, STATE_UNVERIFIED}
      ensures !closed ==> raised in EARLY_STOPS && events[|events| - 1] == Readback(snapshot)
      ensures !closed ==> forall d :: d in snapshot ==> d in airflow.paused && airflow.paused[d] == snapshot[d]
      ensures closed ==> ClosedProperly(target.dagAllowlist, raised, events, airflow.paused)
    {
      hide ValidRecord, Records;
      if staged.Some? {
        var discarded := store.Discard(staged.value);
      }
      var restored := RestoreSnapshot(snapshot);
      if !restored {
        raised := FailClosed(id, startedAt);
        MarkClosed(Records(old(ledger.files)), Records(ledger.files), id, raised, true, false);
        return raised, true;
      }
      var written, record := Complete(id, startedAt, Failed, None, None, None);
      raised := if written then category else LEDGER_FAILED;
      MarkIntro(Records(old(ledger.files)), Records(ledger.files), id, written, record, StoppedEarly(raised));
      closed := false;
    }

    /** Pause everything, prove it, wait for the writers. */
    method Quiesce(ghost lo: nat, ghost checkout: string) returns (ok: bool)
      requires WellFormed(target)
      requires lo <= |events| && Guarded(events, lo, target.dagAllowlist, checkout)
      modifies this`events, airflow, clock
      ensures old(events) <= events && Guarded(events, lo, target.dagAllowlist, checkout)
      ensures OnlyFlagsOf(target.dagAllowlist, old(airflow.paused), airflow.paused)
      ensures ok ==> ReadyToRestore(events, lo, target.dagAllowlist)
    {
      hide InstallSteps, ReadyToInstall, Guarded, ReadyToRestore, OnlyFlagsOf;
      var failure := PauseAll(target.dagAllowlist);
      GuardedExtends(old(events), events, lo, target.dagAllowlist, checkout);
      if failure.Some? { return false; }
      ghost var paused := events;
      failure := Drain();
      GuardedExtends(paused, events, lo, target.dagAllowlist, checkout);
      if failure.Some? { return false; }
      ReadyToRestoreIntro(events, lo, target.dagAllowlist, |paused| - 1, |events| - 1);
      ok := true;
    }

    /** Put the rollback overlay back, serve it, and give the flags back. */
    method RestoreAndServe(snapshot: map<string, bool>, rollback: Artifact, ghost lo: nat, ghost checkout: string) returns (ok: bool)
      requires store.target == target && lo <= |events| && Guarded(events, lo, target.dagAllowlist, checkout)
      requires ReadyToRestore(events, lo, target.dagAllowlist)
      modifies this`events, airflow, store
      ensures old(events) <= events && Guarded(events, lo, target.dagAllowlist, checkout)
      ensures OnlyFlagsOf(snapshot.Keys, old(airflow.paused), airflow.paused)
      ensures store.installed == old(store.installed) || store.installed == Some(rollback.content)
      ensures ok ==> store.installed == Some(rollback.content) && |events| > 0 && events[|events| - 1] == Readback(snapshot)
      ensures ok ==> old(events) + RestoredSteps(rollback.content) <= events
      ensures ok ==> forall d :: d in snapshot ==> d in airflow.paused && airflow.paused[d] == snapshot[d]
    {
      hide InstallSteps, ReadyToInstall, Guarded, ReadyToRestore, OnlyFlagsOf;
      GuardedPush(events, RestoreRequested(rollback.content), lo, target.dagAllowlist, checkout);
      events := events + [RestoreRequested(rollback.content)];
      ghost var requested := events;
      var done := store.Restore(rollback.content, rollback.sha256);
      if !done { ReflexiveFlags(snapshot.Keys, airflow.paused); return false; }
      done := Serve(rollback, snapshot);
      GuardedExtends(requested, events, lo, target.dagAllowlist, checkout);
      ok := done;
    }

    /** Verify what is installed, recreate the services, probe health, give the flags back. */
    method Serve(artifact: Artifact, snapshot: map<string, bool>) returns (ok: bool)
      modifies this`events, airflow
      ensures old(events) <= events && OnlyFlagsOf(snapshot.Keys, old(airflow.paused), airflow.paused)
      ensures forall i :: |old(events)| <= i < |events| ==> !ChangesOverlay(events[i])
      ensures ok ==> store.installed == Some(artifact.content) && |events| > 0 && events[|events| - 1] == Readback(snapshot)
      ensures ok ==> old(events) + [InstallVerified(artifact.content), ServicesDeployed, HealthPassed(artifact.content)] <= events
      ensures ok ==> forall d :: d in snapshot ==> d in airflow.paused && airflow.paused[d] == snapshot[d]
    {
      var done := store.VerifyInstalled(artifact);
      if !done { return false; }
      events := events + [InstallVerified(artifact.content)];
      done := ForeignCall();
      if !done { return false; }
      events := events + [ServicesDeployed];
      done := ForeignCall();
      if !done { return false; }
      events := events + [HealthPassed(artifact.content)];
      ok := RestoreSnapshot(snapshot);
    }

    /** The guarded part of the rollback: quiesce, restore, serve, record. */
    method TryRollback(id: DeploymentId, startedAt: Stamp, snapshot: map<string, bool>, rollback: Artifact, ghost lo: nat, ghost checkout: string)
      returns (ok: bool)
      requires Ready() && StartedIn(Records(ledger.files), id) && snapshot.Keys == target.dagAllowlist && Genuine(rollback)
      requires lo <= |events| && Guarded(events, lo, target.dagAllowlist, checkout)
      modifies this`events, airflow, clock, store, ledger`files
      ensures Ready() && old(events) <= events && Guarded(events, lo, target.dagAllowlist, checkout)
      ensures OnlyFlagsOf(target.dagAllowlist, old(airflow.paused), airflow.paused)
      ensures store.installed == old(store.installed) || store.installed == Some(rollback.content)
      ensures ok ==> store.installed == Some(rollback.content) && |events| > 0 && events[|events| - 1] == Readback(snapshot)
      ensures ok ==> forall d :: d in snapshot ==> d in airflow.paused && airflow.paused[d] == snapshot[d]
      ensures ok ==> Restored(events, |old(events)|, rollback.content)
      ensures ok ==> Marked(Records(old(ledger.files)), Records(ledger.files), id, BackedOut(rollback.content))
      ensures !ok ==> ledger.files == old(ledger.files)
    {
      hide ValidRecord, Records, ReadyToRestore, Guarded;
      var done := Quiesce(lo, checkout);
      if !done { return false; }
      ghost var quiet := events;
      done := RestoreAndServe(snapshot, rollback, lo, checkout);
      if !done { return false; }
      assert StepsAt(events, |quiet|, RestoredSteps(rollback.content));
      ghost var record;
      ok, record := Complete(id, startedAt, RolledBack, Some("failed"), Some(rollback), None);
      if ok {
        MarkIntro(Records(old(ledger.files)), Records(ledger.files), id, true, record, BackedOut(rollback.content));
      }
    }

    /** The rollback tail: the category it raises and how the run ended. */
    method Rollback(id: DeploymentId, startedAt: Stamp, snapshot: map<string, bool>, rollback: Artifact, ghost lo: nat, ghost checkout: string)
      returns (raised: string, ghost ending: Ending)
      requires Ready() && StartedIn(Records(ledger.files), id) && snapshot.Keys == target.dagAllowlist && Genuine(rollback)
      requires lo <= |events| && Guarded(events, lo, target.dagAllowlist, checkout)
      modifies this`events, airflow, clock, store, ledger`files
      ensures Ready() && old(events) <= events && |events| > 0 && Guarded(events, lo, target.dagAllowlist, checkout)
      ensures OnlyFlagsOf(target.dagAllowlist, old(airflow.paused), airflow.paused)
      ensures store.installed == old(store.installed) || store.installed == Some(rollback.content)
      ensures Marked(Records(old(ledger.files)), Records(ledger.files), id, ending) && Raised(raised) == ResultOf(id, ending)
      ensures ending == BackedOut(rollback.content) || ending == Closed(raised, true)
      ensures ending.BackedOut? ==> store.installed == Some(rollback.content) && events[|events| - 1] == Readback(snapshot)
      ensures ending.BackedOut? ==> Restored(events, |old(events)|, rollback.content)
      ensures ending.BackedOut? ==> forall d :: d in snapshot ==> d in airflow.paused && airflow.paused[d] == snapshot[d]
      ensures ending.Closed? ==> ClosedProperly(target.dagAllowlist, raised, events, airflow.paused)
    {
      hide ValidRecord, Records, Guarded, OnlyFlagsOf, Marked, StartedIn;
      var ok := TryRollback(id, startedAt, snapshot, rollback, lo, checkout);
      if ok { return ROLLED_BACK, BackedOut(rollback.content); }
      ghost var flags, seen := airflow.paused, events;
      raised := FailClosed(id, startedAt);
      FlagsCompose(target.dagAllowlist, old(airflow.paused), flags, airflow.paused);
      GuardedExtends(seen, events, lo, target.dagAllowlist, checkout);
      ending := Closed(raised, true);
    }

    /* ----- the forward path ----- */

    /** Drain, pause, check out, stage, validate: everything before the overlay changes. */
    method Prepare(id: DeploymentId, ghost lo: nat) returns (failure: Option<string>, staged: Option<nat>, candidate: Option<Artifact>)
      requires WellFormed(target) && store.target == target && lo <= |events|
      modifies this`events, airflow, clock, store`staged
      ensures old(events) <= events
      ensures forall i :: |old(events)| <= i < |events| ==> !ChangesOverlay(events[i])
      ensures OnlyFlagsOf(target.dagAllowlist, old(airflow.paused), airflow.paused)
      ensures failure.Some? ==> failure.value in EARLY_STOPS
      ensures failure.None? ==> staged.Some? && candidate.Some? && Genuine(candidate.value)
      ensures failure.None? ==> candidate.value.content == Rendered(target, Release(id.candidateSha))
      ensures failure.None? ==> ReadyToInstall(events, lo, target.dagAllowlist, CheckoutPath(target, id), candidate.value.content)
    {
      hide ReadyToInstall, Rendered;
      staged, candidate := None, None;
      failure := Drain();
      if failure.Some? { return; }
      ghost var a := |events| - 1;
      failure := PauseAll(target.dagAllowlist);
      if failure.Some? { return; }
      ghost var b := |events| - 1;
      var expected := target.runtimeRoot + "/releases/" + id.candidateSha;
      failure, staged, candidate := StageCandidate(id, expected);
      if failure.None? {
        ReadyToInstallIntro(events, lo, target.dagAllowlist, expected, candidate.value.content, a, b, |events| - 2, |events| - 1);
      }
    }

    /** The exact checkout, the rendered and staged overlay, and its validation, in that order. */
    method StageCandidate(id: DeploymentId, expected: string)
        returns (failure: Option<string>, staged: Option<nat>, candidate: Option<Artifact>)
      requires store.target == target
      modifies this`events, store`staged
      ensures old(events) <= events
      ensures forall i :: |old(events)| <= i < |events| ==> !ChangesOverlay(events[i])
      ensures failure.Some? ==> failure.value in EARLY_STOPS
      ensures failure.None? ==> staged.Some? && candidate.Some? && Genuine(candidate.value)
      ensures failure.None? ==> candidate.value.content == Rendered(target, Release(id.candidateSha))
      ensures failure.None? ==> events == old(events) + [CheckedOut(expected), CandidateValidated(candidate.value.content)]
    {
      staged, candidate := None, None;
      var checkout := DetachedCheckout(id.repository, id.candidateSha, expected);
      if checkout != Some(expected) { return Some(CHECKOUT_FAILED), staged, candidate; }
      events := events + [CheckedOut(expected)];
      candidate := RenderRelease(target, expected, id.candidateSha);
      if candidate.None? { return Some(STAGE_FAILED), staged, candidate; }
      staged := store.Stage(candidate.value);
      if staged.None? { return Some(STAGE_FAILED), staged, candidate; }
      var valid := ForeignCall();
      if !valid { return Some(VALIDATION_FAILED), staged, candidate; }
      events := events + [CandidateValidated(candidate.value.content)];
      failure := None;
    }

    /** Install, verify, serve, probe, give the flags back, record the success. */
    method InstallAndRecord(id: DeploymentId, startedAt: Stamp, snapshot: map<string, bool>, staged: nat, candidate: Artifact, ghost lo: nat, ghost checkout: string)
      returns (ok: bool, ghost at: Stamp)
      requires Ready() && StartedIn(Records(ledger.files), id) && snapshot.Keys == target.dagAllowlist && Genuine(candidate)
      requires lo <= |events| && Guarded(events, lo, target.dagAllowlist, checkout)
      requires ReadyToInstall(events, lo, target.dagAllowlist, checkout, candidate.content)
      modifies this`events, airflow, store, ledger`files
      ensures Ready() && old(events) <= events && Guarded(events, lo, target.dagAllowlist, checkout)
      ensures OnlyFlagsOf(target.dagAllowlist, old(airflow.paused), airflow.paused)
      ensures store.installed == old(store.installed) || store.installed == Some(candidate.content)
      ensures !ok ==> ledger.files == old(ledger.files)
      ensures ok ==> store.installed == Some(candidate.content) && |events| > 0 && events[|events| - 1] == Readback(snapshot)
      ensures old(events) + [InstallRequested(candidate.content)] <= events
      ensures ok ==> Served(events, |old(events)|, candidate.content)
      ensures ok ==> forall d :: d in snapshot ==> d in airflow.paused && airflow.paused[d] == snapshot[d]
      ensures ok ==> SuccessMarked(Records(old(ledger.files)), Records(ledger.files), id, candidate.content, at)
    {
      hide ValidRecord, Records, ReadyToInstall, Guarded;
      GuardedPush(events, InstallRequested(candidate.content), lo, target.dagAllowlist, checkout);
      events := events + [InstallRequested(candidate.content)];
      ghost var requested := events;
      ok, at := false, BadStamp;
      var done := store.Install(staged, candidate);
      if !done { return; }
      done := Serve(candidate, snapshot);
      GuardedExtends(requested, events, lo, target.dagAllowlist, checkout);
      if !done { return; }
      assert StepsAt(events, |old(events)|, ServedSteps(candidate.content));
      ghost var record;
      ok, record := Complete(id, startedAt, Success, Some("passed"), Some(candidate), None);
      if ok {
        at := record.completedAt.value;
        SuccessIntro(Records(old(ledger.files)), Records(ledger.files), id, candidate.content, at, record);
      }
    }

    /* ----- a whole run ----- */

    /** Everything up to and including the STARTED record; nothing has been asked of Airflow yet. */
    method Admit(id: DeploymentId)
      returns (stop: Option<Ending>, rollback: Option<Artifact>, snapshot: map<string, bool>, startedAt: Stamp, ghost sight: Sight)
      requires Ready()
      modifies ledger`files
      ensures Ready()
      ensures Sees(sight.first, Records(old(ledger.files))) && Sees(sight.second, Records(old(ledger.files))) && sight.baselines <= ledger.baselines
      ensures stop.Some? ==> ledger.files == old(ledger.files)
      ensures stop.Some? ==> (stop == Some(AlreadyDone) && HasSuccess(sight.first, id)) || (stop.value.Refused? && stop.value.category in REFUSALS)
      ensures stop.None? ==> !HasSuccess(sight.first, id)
      ensures stop.None? ==> rollback.Some? && Genuine(rollback.value) && IsRollbackPoint(target, id, sight, rollback.value.content)
      ensures stop.None? ==> target.dagAllowlist <= airflow.paused.Keys && snapshot == map d | d in target.dagAllowlist :: airflow.paused[d]
      ensures stop.None? ==> StartedIn(Records(ledger.files), id) && OnlyRecordOf(id, Records(old(ledger.files)), Records(ledger.files))
    {
      hide ValidRecord, Records, HasSuccess, Sees, IsRollbackPoint;
      rollback, snapshot, startedAt := None, map[], BadStamp;
      var found, first := ledger.AlreadySuccessful(id);
      sight := Sight(first, first, {});
      if found.None? { stop := Some(Refused(LEDGER_FAILED)); return; }
      if found.value { stop := Some(AlreadyDone); return; }
      var refusal, chosen, seen := ChooseRollback(id, first);
      sight := seen;
      if chosen.None? { stop := Some(Refused(refusal)); return; }
      rollback := chosen;
      var reply := airflow.CapturePauseState(target.dagAllowlist);
      if !reply.Flags? { stop := Some(Refused(SNAPSHOT_INVALID)); return; }
      snapshot := reply.flags;
      var now := clock.UtcNow();
      if now.None? || !now.value.Utc? { stop := Some(Refused(LEDGER_FAILED)); return; }
      startedAt := now.value;
      var record := MakeRecord(id, startedAt, None, Started, None, None, None);
      var begun := ledger.Write(record);
      if !begun { stop := Some(Refused(LEDGER_FAILED)); return; }
      stop := None;
    }

    /** What a run that got past admission does: forward, or one of the tails. */
    method Perform(id: DeploymentId, rollback: Artifact, snapshot: map<string, bool>, startedAt: Stamp)
      returns (ghost ending: Ending, r: RunResult)
      requires Ready() && StartedIn(Records(ledger.files), id) && Genuine(rollback)
      requires target.dagAllowlist <= airflow.paused.Keys && snapshot == map d | d in target.dagAllowlist :: airflow.paused[d]
      modifies this`events, airflow, clock, store, ledger`files
      ensures Ready() && Admitted(ending) && r == ResultOf(id, ending)
      ensures old(events) <= events && |old(events)| < |events| && Guarded(events, |old(events)|, target.dagAllowlist, CheckoutPath(target, id))
      ensures RunShape(target, id, ending, events, |old(events)|, snapshot, airflow.paused)
      ensures OnlyFlagsOf(target.dagAllowlist, old(airflow.paused), airflow.paused)
      ensures ending.Deployed? || ending.StoppedEarly? || ending.BackedOut? ==> airflow.paused == old(airflow.paused)
      ensures RecordShape(id, ending, Records(old(ledger.files)), Records(ledger.files))
      ensures OverlayShape(target, id, ending, old(store.installed), store.installed, rollback.content)
    {
      hide ValidRecord, Records, Guarded, ReadyToInstall, Rendered, Marked, SuccessMarked, StartedIn, OnlyFlagsOf;
      hide Served, Restored, RestoredAfterInstall, ClosedProperly, Genuine, CheckoutPath;
      ghost var lo, dags, checkout := |events|, target.dagAllowlist, CheckoutPath(target, id);
      GuardedEmpty(events, dags, checkout);
      var failure, staged, candidate := Prepare(id, lo);
      GuardedExtends(old(events), events, lo, dags, checkout);
      ghost var flags, seen := airflow.paused, events;
      ghost var asked := |seen|;
      if failure.Some? {
        var raised, closed := FailBeforeInstall(id, startedAt, snapshot, staged, failure.value);
        FlagsCompose(dags, old(airflow.paused), flags, airflow.paused);
        GuardedExtends(seen, events, lo, dags, checkout);
        ending := if closed then Closed(raised, false) else StoppedEarly(raised);
        if !closed { FlagsRestored(dags, old(airflow.paused), airflow.paused, snapshot); }
        r := Raised(raised);
        return;
      }
      var ok, at := InstallAndRecord(id, startedAt, snapshot, staged.value, candidate.value, lo, checkout);
      FlagsCompose(dags, old(airflow.paused), flags, airflow.paused);
      assert events[|seen|].InstallRequested?;
      if ok {
        ending, r := Deployed(candidate.value.content, at), Succeeded(id, false);
        FlagsRestored(dags, old(airflow.paused), airflow.paused, snapshot);
        ServedIsAfter(events, lo, |seen|, candidate.value.content);
        return;
      }
      flags, seen := airflow.paused, events;
      var raised, how := Rollback(id, startedAt, snapshot, rollback, lo, checkout);
      FlagsCompose(dags, old(airflow.paused), flags, airflow.paused);
      if how.BackedOut? {
        FlagsRestored(dags, old(airflow.paused), airflow.paused, snapshot);
        RestoredIsAfter(events, lo, asked, |seen|, rollback.content);
      }
      ending, r := how, Raised(raised);
    }

    /**
     One run. It returns success or raises a listed category; the lock is given back; and what
     it did to the plant is `Effect` of how it ended.
     */
    method Deploy(repository: string, workflowSha: string) returns (r: RunResult, ghost ending: Ending, ghost sight: Sight)
      requires Ready()
      modifies this`events, airflow, clock, store, ledger`files, ledger`lockHeld
      ensures Ready() && ledger.lockHeld == old(ledger.lockHeld)
      ensures r == ResultOf(DeploymentId(repository, workflowSha, target.fingerprint), ending)
      ensures r.Raised? ==> r.category in SAFE_CATEGORIES
      ensures Effect(target, DeploymentId(repository, workflowSha, target.fingerprint), old(CurrentPlant()), CurrentPlant(), ending, sight)
      ensures old(events) <= events
      ensures Guarded(events, |old(events)|, target.dagAllowlist, CheckoutPath(target, DeploymentId(repository, workflowSha, target.fingerprint)))
      ensures ending.AlreadyDone? || ending.Refused? ==> events == old(events)
      ensures Admitted(ending) ==>
        && target.dagAllowlist <= old(airflow.paused).Keys && |events| > 0
        && RunShape(target, DeploymentId(repository, workflowSha, target.fingerprint), ending, events, |old(events)|,
                    map d | d in target.dagAllowlist :: old(airflow.paused)[d], airflow.paused)
      ensures old(ledger.lockHeld) ==> ending.Refused?
    {
      hide ValidRecord, Records, Guarded, Rendered, Marked, SuccessMarked, StartedIn, HasSuccess, IsRollbackPoint;
      hide RunShape, RecordShape, OverlayShape;
      var id := DeploymentId(repository, workflowSha, target.fingerprint);
      ghost var pre := CurrentPlant();
      GuardedEmpty(events, target.dagAllowlist, CheckoutPath(target, id));
      sight := Sight(map[], map[], {});
      if !IsSha40(workflowSha) || !IsSha64(target.fingerprint) || repository == "" {
        r, ending := Raised(DEPLOY_FAILED), Refused(DEPLOY_FAILED);
        return;
      }
      var locked := ledger.AcquireLock();
      if !locked {
        r, ending := Raised(LOCK_FAILED), Refused(LOCK_FAILED);
        return;
      }
      var stop, rollback, snapshot, startedAt, seen := Admit(id);
      sight := seen;
      if stop.Some? {
        ledger.ReleaseLock();
        r, ending := ResultOf(id, stop.value), stop.value;
        return;
      }
      ghost var begun := Records(ledger.files);
      ghost var how;
      how, r := Perform(id, rollback.value, snapshot, startedAt);
      ledger.ReleaseLock();
      ending := how;
      ComposeRecords(id, ending, pre.records, begun, Records(ledger.files));
      EffectIntro(target, id, pre, CurrentPlant(), ending, sight, rollback.value.content, events, |old(events)|, snapshot);
    }
  }

  /** Two states of the flags differ at most on these DAGs. */
  ghost predicate OnlyFlagsOf(dags: set<string>, before: map<string, bool>, after: map<string, bool>) {
    before.Keys == after.Keys && forall d :: d in before && d !in dags ==> after[d] == before[d]
  }

  /** The run's own STARTED record is in place. */
  ghost predicate StartedIn(records: map<DeploymentId, Record>, id: DeploymentId) {
    id in records && Unsuccessful(records[id], id) && records[id].outcome == Started
  }

  lemma MarkIntro(before: map<DeploymentId, Record>, after: map<DeploymentId, Record>, id: DeploymentId, written: bool, r: Record, ending: Ending)
    requires StartedIn(before, id)
    requires if written then Unsuccessful(r, id) && RecordFor(r, ending) && after == before[id := r]
             else RecordFor(before[id], ending) && after == before
    ensures Marked(before, after, id, ending)
  {
  }

  lemma SuccessIntro(before: map<DeploymentId, Record>, after: map<DeploymentId, Record>, id: DeploymentId, candidate: Content, at: Stamp, r: Record)
    requires IsSuccessRecord(r, id, candidate, at) && after == before[id := r]
    ensures SuccessMarked(before, after, id, candidate, at)
  {
  }

  lemma MarkClosed(before: map<DeploymentId, Record>, after: map<DeploymentId, Record>, id: DeploymentId, category: string, was: bool, installing: bool)
    requires Marked(before, after, id, Closed(category, was))
    ensures Marked(before, after, id, Closed(category, installing))
  {
  }

  /** The digest is the content's own. */
  ghost predicate Genuine(artifact: Artifact) { artifact.sha256 == Sha256(artifact.content) }

  /** Rollback-failed is said exactly when the last readback showed everything paused, and then it is. */
  ghost predicate ClosedProperly(dags: set<string>, category: string, events: seq<Event>, paused: map<string, bool>)
    requires |events| > 0
  {
    && category in {ROLLBACK_FAILED, STATE_UNVERIFIED}
    && (category == ROLLBACK_FAILED <==> events[|events| - 1] == Readback(AllPaused(dags)))
    && (category == ROLLBACK_FAILED ==> forall d :: d in dags ==> d in paused && paused[d])
  }

  function ServedSteps(content: Content): seq<Event> {
    [InstallRequested(content), InstallVerified(content), ServicesDeployed, HealthPassed(content)]
  }

  ghost predicate OnlyRecordOf(id: DeploymentId, before: map<DeploymentId, Record>, after: map<DeploymentId, Record>) {
    id in after && after == before[id := after[id]]
  }

  /** Rewriting the run's own record twice is rewriting it once. */
  lemma ComposeRecords(id: DeploymentId, ending: Ending, before: map<DeploymentId, Record>, middle: map<DeploymentId, Record>, after: map<DeploymentId, Record>)
    requires OnlyRecordOf(id, before, middle) && RecordShape(id, ending, middle, after)
    ensures RecordShape(id, ending, before, after)
  {
  }

  lemma EffectIntro(target: Target, id: DeploymentId, pre: Plant, post: Plant, ending: Ending, sight: Sight, rollback: Content,
                    events: seq<Event>, lo: nat, snapshot: map<string, bool>)
    requires SightOf(sight, pre) && post.baselines == pre.baselines && |events| > 0
    requires !HasSuccess(sight.first, id) && IsRollbackPoint(target, id, sight, rollback) && target.dagAllowlist <= pre.paused.Keys
    requires RecordShape(id, ending, pre.records, post.records) && Admitted(ending)
    requires OverlayShape(target, id, ending, pre.installed, post.installed, rollback)
    requires OnlyFlagsOf(target.dagAllowlist, pre.paused, post.paused)
    requires ending.Deployed? || ending.StoppedEarly? || ending.BackedOut? ==> post.paused == pre.paused
    requires RunShape(target, id, ending, events, lo, snapshot, post.paused)
    ensures Effect(target, id, pre, post, ending, sight)
    ensures ResultOf(id, ending).Raised? ==> ResultOf(id, ending).category in SAFE_CATEGORIES
  {
  }

  lemma GuardedEmpty(events: seq<Event>, dags: set<string>, checkout: string)
    ensures Guarded(events, |events|, dags, checkout)
  {
  }

  /** Whether the run got as far as asking for an install. */
  predicate AsksInstall(events: seq<Event>, lo: nat) {
    exists i :: lo <= i < |events| && events[i].InstallRequested?
  }

  function RestoredSteps(content: Content): seq<Event> {
    [RestoreRequested(content), InstallVerified(content), ServicesDeployed, HealthPassed(content)]
  }

  ghost predicate StepsAt(events: seq<Event>, j: nat, steps: seq<Event>) {
    j + |steps| <= |events| && events[j..j + |steps|] == steps
  }

  /** From `lo` on the overlay was installed, verified, served and found healthy, in that order. */
  ghost predicate Served(events: seq<Event>, lo: nat, content: Content) {
    exists j: nat :: lo <= j && StepsAt(events, j, ServedSteps(content))
  }

  /** From `lo` on the overlay was put back, verified, served and found healthy, in that order. */
  ghost predicate Restored(events: seq<Event>, lo: nat, content: Content) {
    exists j: nat :: lo <= j && StepsAt(events, j, RestoredSteps(content))
  }

  /** The overlay was put back after an install had been asked for. */
  ghost predicate RestoredAfterInstall(events: seq<Event>, lo: nat, content: Content) {
    exists i :: lo <= i < |events| && events[i].InstallRequested? && Restored(events, i + 1, content)
  }

  /** What the log of a run says about its ending. */
  ghost predicate RunShape(target: Target, id: DeploymentId, ending: Ending, events: seq<Event>, lo: nat, snapshot: map<string, bool>, paused: map<string, bool>)
    requires |events| > 0
  {
    match ending
    case Deployed(candidate, _) => events[|events| - 1] == Readback(snapshot) && Served(events, lo, candidate) && AsksInstall(events, lo)
    case StoppedEarly(category) => events[|events| - 1] == Readback(snapshot) && !AsksInstall(events, lo)
    case BackedOut(restored) => events[|events| - 1] == Readback(snapshot) && RestoredAfterInstall(events, lo, restored)
    case Closed(category, installing) => ClosedProperly(target.dagAllowlist, category, events, paused) && (installing <==> AsksInstall(events, lo))
    case _ => false
  }

  lemma ServedIsAfter(events: seq<Event>, lo: nat, from: nat, content: Content)
    requires lo <= from && Served(events, from, content)
    ensures Served(events, lo, content) && AsksInstall(events, lo)
  {
    var j: nat :| from <= j && StepsAt(events, j, ServedSteps(content));
    assert events[j] == ServedSteps(content)[0];
  }

  lemma RestoredIsAfter(events: seq<Event>, lo: nat, i: nat, from: nat, content: Content)
    requires lo <= i < |events| && events[i].InstallRequested? && i < from && Restored(events, from, content)
    ensures RestoredAfterInstall(events, lo, content)
  {
    var j: nat :| from <= j && StepsAt(events, j, RestoredSteps(content));
    assert Restored(events, i + 1, content);
  }

  ghost predicate RecordShape(id: DeploymentId, ending: Ending, before: map<DeploymentId, Record>, after: map<DeploymentId, Record>) {
    match ending
    case Deployed(candidate, at) => SuccessMarked(before, after, id, candidate, at)
    case _ => Marked(before, after, id, ending)
  }

  ghost predicate OverlayShape(target: Target, id: DeploymentId, ending: Ending, before: Option<Content>, after: Option<Content>, rollback: Content) {
    match ending
    case Deployed(candidate, _) => after == Some(candidate) && candidate == Rendered(target, Release(id.candidateSha))
    case StoppedEarly(category) => after == before && category in EARLY_STOPS
    case BackedOut(restored) => after == Some(restored) && restored == rollback
    case Closed(_, installing) =>
      after == before || (installing && (after == Some(rollback) || after == Some(Rendered(target, Release(id.candidateSha)))))
    case _ => after == before
  }

  /** Where the candidate has to be checked out. */
  function CheckoutPath(target: Target, id: DeploymentId): string {
    target.runtimeRoot + "/releases/" + id.candidateSha
  }

  lemma ReflexiveFlags(dags: set<string>, flags: map<string, bool>)
    ensures OnlyFlagsOf(dags, flags, flags)
  {
  }

  lemma FlagsCompose(dags: set<string>, a: map<string, bool>, b: map<string, bool>, c: map<string, bool>)
    requires OnlyFlagsOf(dags, a, b) && OnlyFlagsOf(dags, b, c)
    ensures OnlyFlagsOf(dags, a, c)
  {
  }

  /** Flags that only moved on the snapshot's DAGs and are back at the snapshot are back everywhere. */
  lemma FlagsRestored(dags: set<string>, before: map<string, bool>, after: map<string, bool>, snapshot: map<string, bool>)
    requires OnlyFlagsOf(dags, before, after) && dags <= before.Keys && snapshot == map d | d in dags :: before[d]
    requires forall d :: d in snapshot ==> d in after && after[d] == snapshot[d]
    ensures after == before
  {
  }

  lemma ReadyToRestoreIntro(events: seq<Event>, lo: nat, dags: set<string>, a: nat, b: nat)
    requires RestoreSteps(events, lo, dags, a, b)
    ensures ReadyToRestore(events, lo, dags)
  {
  }

  lemma ReadyToInstallIntro(events: seq<Event>, lo: nat, dags: set<string>, checkout: string, content: Content, a: nat, b: nat, c: nat, d: nat)
    requires InstallSteps(events, lo, dags, checkout, content, a, b, c, d)
    ensures ReadyToInstall(events, lo, dags, checkout, content)
  {
  }
}
