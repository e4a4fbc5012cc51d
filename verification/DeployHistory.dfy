/**
 Whole histories of deployment runs on one deployment. Each run is one `Effect` of
 Orchestrator.Deploy; the lock makes runs follow one another.
 */
module DeployHistory {
  import opened Basics
  import opened Overlay
  import opened Ledger
  import opened Orchestrator

  datatype Run = Run(target: Target, id: DeploymentId, ending: Ending, sight: Sight)

  /** The fingerprint covers everything but the DAG allowlists: runs that share a ledger may differ in those. */
  predicate SameDeployment(x: Target, y: Target) {
    x.(dagAllowlist := y.dagAllowlist, writerAllowlist := y.writerAllowlist) == y
  }

  ghost predicate Step(target: Target, pre: Plant, post: Plant, run: Run) {
    && SameDeployment(run.target, target) && run.id.fingerprint == target.fingerprint
    && Effect(run.target, run.id, pre, post, run.ending, run.sight)
  }

  /** plants[i] is the world before run i. */
  ghost predicate History(target: Target, plants: seq<Plant>, runs: seq<Run>) {
    |plants| == |runs| + 1 && forall i :: 0 <= i < |runs| ==> Step(target, plants[i], plants[i + 1], runs[i])
  }

  predicate Installing(ending: Ending) { ending.Deployed? || ending.BackedOut? || (ending.Closed? && ending.installing) }

  /**
   Success records sit in their own file and hold the overlay of their own commit, and the baselines
   of the deployment hold baseline overlays, one for each capture time.
   */
  ghost predicate Sound(target: Target, plant: Plant) {
    && target.codeServices != {}
    && (forall k :: k in plant.records && EligibleSuccess(plant.records[k], target.fingerprint) ==> HoldsOwnOverlay(target, k, plant.records[k]))
    && (forall b :: b in plant.baselines && b.fingerprint == target.fingerprint ==> b.overlay.Base64? && Denotes(target, Baseline, b.overlay.content))
    && (forall b, c :: b in plant.baselines && c in plant.baselines && CapturedAt(b) == CapturedAt(c) ==> b == c)
  }

  predicate HoldsOwnOverlay(target: Target, k: DeploymentId, r: Record) {
    && k == r.id == DeploymentId(r.repository, r.candidateSha, r.fingerprint)
    && r.overlay == Some(Base64(Rendered(target, Release(r.candidateSha))))
  }

  /** No two successes of the deployment completed in the same second. */
  ghost predicate DistinctStamps(records: map<DeploymentId, Record>, fingerprint: string) {
    forall j, k :: j in records && k in records && EligibleSuccess(records[j], fingerprint) && EligibleSuccess(records[k], fingerprint) ==>
      (CompletedAt(records[j]) == CompletedAt(records[k]) ==> j == k)
  }

  /** The overlay of the latest success, or of the newest baseline when nothing has succeeded. */
  ghost predicate IsCurrent(records: map<DeploymentId, Record>, baselines: set<BaselineRecord>, fingerprint: string, content: Content) {
    || (exists r :: IsPreviousSuccess(records, fingerprint, r) && r.overlay == Some(Base64(content)))
    || (NoSuccess(records, fingerprint) && exists b :: IsNewestBaseline(baselines, fingerprint, b) && b.overlay == Base64(content))
  }

  ghost predicate InstalledIsCurrent(plant: Plant, fingerprint: string) {
    plant.installed.Some? && IsCurrent(plant.records, plant.baselines, fingerprint, plant.installed.value)
  }

  /* ---------- when a run leaves the current overlay installed ---------- */

  /** Neither has a success, or the latest successes are of one commit. */
  ghost predicate SameLatest(x: map<DeploymentId, Record>, y: map<DeploymentId, Record>, fingerprint: string) {
    || (NoSuccess(x, fingerprint) && NoSuccess(y, fingerprint))
    || (exists r, s :: IsPreviousSuccess(x, fingerprint, r) && IsPreviousSuccess(y, fingerprint, s) && r.candidateSha == s.candidateSha)
  }

  /** The newest baseline seen holds the overlay of the newest baseline. */
  ghost predicate SameBaseline(seen: set<BaselineRecord>, all: set<BaselineRecord>, fingerprint: string) {
    exists b, c :: IsNewestBaseline(seen, fingerprint, b) && IsNewestBaseline(all, fingerprint, c) && b.overlay == c.overlay
  }

  /** No other success is stamped later than this one. */
  ghost predicate StampedLast(others: map<DeploymentId, Record>, fingerprint: string, at: Stamp) {
    at.Utc? && forall k :: k in others && EligibleSuccess(others[k], fingerprint) ==> CompletedAt(others[k]) <= at.seconds
  }

  /**
   What has to hold before and during a run for the overlay it leaves to be the current one. The
   others are the records a run does not write.
   */
  ghost predicate KeepsCurrent(pre: Plant, run: Run) {
    var fingerprint, others := run.id.fingerprint, pre.records - {run.id};
    match run.ending
    case AlreadyDone => true
    case Refused(_) => true
    case Deployed(_, at) =>
      StampedLast(others, fingerprint, at) || exists s :: IsPreviousSuccess(others, fingerprint, s) && s.candidateSha == run.id.candidateSha
    case BackedOut(_) =>
      && SameLatest(run.sight.second, others, fingerprint)
      && (NoSuccess(run.sight.second, fingerprint) ==> SameBaseline(run.sight.baselines, pre.baselines, fingerprint))
    case _ => SameLatest(pre.records, others, fingerprint)
  }

  /**
   One run leaves the current overlay installed exactly under its condition: a success when it is
   stamped last, a rollback when the pass saw what it should go back to, and a run that installs
   nothing when it does not overwrite the latest success.
   */
  lemma RunKeepsCurrent(target: Target, pre: Plant, post: Plant, run: Run)
    requires Step(target, pre, post, run) && Sound(target, pre) && DistinctStamps(pre.records, target.fingerprint)
    requires Installing(run.ending) || InstalledIsCurrent(pre, target.fingerprint)
    requires !(Installing(run.ending) && run.ending.Closed?)
    ensures InstalledIsCurrent(post, target.fingerprint) <==> KeepsCurrent(pre, run)
  {
    hide Marked, SuccessMarked, HasSuccess, IsPreviousSuccess, EligibleSuccess, IsRollbackPoint, Sound, DistinctStamps;
    hide Rendered, IsCurrent, SameLatest, NoSuccess, StampedLast;
    match run.ending {
      case AlreadyDone =>
      case Refused(_) =>
      case Deployed(candidate, at) =>
        RenderingIgnoresAllowlists(run.target, target, Release(run.id.candidateSha));
        DeployedIsCurrent(target, pre, post, run.id, at);
      case BackedOut(restored) =>
        OthersDecide(target, pre, post, run.id, run.ending, restored);
        RestoredIsCurrent(target, pre, run, restored);
      case StoppedEarly(_) =>
        OthersDecide(target, pre, post, run.id, run.ending, pre.installed.value);
        KeptIsCurrent(target, pre, run.id, pre.installed.value);
      case Closed(_, _) =>
        OthersDecide(target, pre, post, run.id, run.ending, pre.installed.value);
        KeptIsCurrent(target, pre, run.id, pre.installed.value);
    }
  }

  /** A record that is no success does not count: what is current is decided by the others. */
  lemma OthersDecide(target: Target, pre: Plant, post: Plant, id: DeploymentId, ending: Ending, content: Content)
    requires Marked(pre.records, post.records, id, ending) && post.baselines == pre.baselines
    ensures IsCurrent(post.records, post.baselines, target.fingerprint, content)
        <==> IsCurrent(pre.records - {id}, pre.baselines, target.fingerprint, content)
  {
    hide ValidRecord, RecordFor, CompletedAt, IsNewestBaseline;
    var others, fp := pre.records - {id}, target.fingerprint;
    var written :| Unsuccessful(written, id) && RecordFor(written, ending) && post.records == pre.records[id := written];
    assert forall k :: k in others ==> k in post.records && post.records[k] == others[k];
    assert forall k :: k in post.records && k != id ==> k in others;
    assert !EligibleSuccess(written, fp);
    hide EligibleSuccess;
    assert NoSuccess(post.records, fp) <==> NoSuccess(others, fp);
    forall r ensures IsPreviousSuccess(post.records, fp, r) <==> IsPreviousSuccess(others, fp, r) {}
  }

  /** With distinct stamps the latest success is one record. */
  lemma LatestIsUnique(records: map<DeploymentId, Record>, fingerprint: string, r: Record, s: Record)
    requires DistinctStamps(records, fingerprint) && IsPreviousSuccess(records, fingerprint, r) && IsPreviousSuccess(records, fingerprint, s)
    ensures r == s
  {
    hide EligibleSuccess, CompletedAt;
    var j :| j in records && records[j] == r;
    var k :| k in records && records[k] == s;
    assert CompletedAt(r) == CompletedAt(s);
  }

  /** The document of a success tells its commit, so a document that is current tells the latest commit. */
  lemma CurrentMeansLatest(target: Target, records: map<DeploymentId, Record>, pre: Plant, sha: string)
    requires Sound(target, pre) && Sees(records, pre.records)
    ensures IsCurrent(records, pre.baselines, target.fingerprint, Rendered(target, Release(sha)))
        <==> exists s :: IsPreviousSuccess(records, target.fingerprint, s) && s.candidateSha == sha
  {
    hide Rendered, Denotes, EligibleSuccess, CompletedAt, NoSuccess;
    forall x ensures Rendered(target, Release(sha)) == Rendered(target, Release(x)) <==> sha == x { ReleasesDiffer(target, sha, x); }
    ReleasesDiffer(target, sha, sha);
    forall s | IsPreviousSuccess(records, target.fingerprint, s)
      ensures s.overlay == Some(Base64(Rendered(target, Release(s.candidateSha))))
    {
      var k :| k in records && records[k] == s;
      assert pre.records[k] == s;
    }
  }

  lemma KeptIsCurrent(target: Target, pre: Plant, id: DeploymentId, content: Content)
    requires Sound(target, pre) && DistinctStamps(pre.records, target.fingerprint)
    requires IsCurrent(pre.records, pre.baselines, target.fingerprint, content)
    ensures IsCurrent(pre.records - {id}, pre.baselines, target.fingerprint, content)
        <==> SameLatest(pre.records, pre.records - {id}, target.fingerprint)
  {
    hide Rendered, EligibleSuccess, CompletedAt, Denotes, IsNewestBaseline;
    var others, fp := pre.records - {id}, target.fingerprint;
    if NoSuccess(pre.records, fp) {
      assert NoSuccess(others, fp);
    } else {
      var r :| IsPreviousSuccess(pre.records, fp, r) && r.overlay == Some(Base64(content));
      CurrentMeansLatest(target, others, pre, r.candidateSha);
      forall s | IsPreviousSuccess(pre.records, fp, s) ensures s == r { LatestIsUnique(pre.records, fp, r, s); }
      assert content == Rendered(target, Release(r.candidateSha));
      hide IsCurrent, IsPreviousSuccess;
    }
  }

  lemma RestoredIsCurrent(target: Target, pre: Plant, run: Run, restored: Content)
    requires Sound(target, pre) && DistinctStamps(pre.records, target.fingerprint) && run.id.fingerprint == target.fingerprint
    requires SameDeployment(run.target, target) && SightOf(run.sight, pre) && IsRollbackPoint(run.target, run.id, run.sight, restored)
    ensures IsCurrent(pre.records - {run.id}, pre.baselines, target.fingerprint, restored)
        <==> SameLatest(run.sight.second, pre.records - {run.id}, target.fingerprint)
             && (NoSuccess(run.sight.second, target.fingerprint) ==> SameBaseline(run.sight.baselines, pre.baselines, target.fingerprint))
  {
    var fp := target.fingerprint;
    if NoSuccess(run.sight.second, fp) {
      RestoredBaseline(target, pre, run, restored);
    } else {
      RestoredSuccess(target, pre, run, restored);
    }
  }

  lemma RestoredSuccess(target: Target, pre: Plant, run: Run, restored: Content)
    requires Sound(target, pre) && DistinctStamps(pre.records, target.fingerprint) && run.id.fingerprint == target.fingerprint
    requires SightOf(run.sight, pre) && IsRollbackPoint(run.target, run.id, run.sight, restored)
    requires !NoSuccess(run.sight.second, target.fingerprint)
    ensures IsCurrent(pre.records - {run.id}, pre.baselines, target.fingerprint, restored)
        <==> SameLatest(run.sight.second, pre.records - {run.id}, target.fingerprint)
  {
    hide Rendered, EligibleSuccess, CompletedAt, Acceptable, IsNewestBaseline;
    var view, others, fp := run.sight.second, pre.records - {run.id}, target.fingerprint;
    var r :| IsPreviousSuccess(view, fp, r) && IsEarlierRelease(run.target, run.id, r, restored);
    var k :| k in view && view[k] == r;
    assert pre.records[k] == r && HoldsOwnOverlay(target, k, r);
    assert restored == Rendered(target, Release(r.candidateSha));
    CurrentMeansLatest(target, others, pre, r.candidateSha);
    assert DistinctStamps(view, fp);
    forall s | IsPreviousSuccess(view, fp, s) ensures s == r { LatestIsUnique(view, fp, r, s); }
    hide IsCurrent, IsPreviousSuccess, DistinctStamps, NoSuccess;
  }

  lemma RestoredBaseline(target: Target, pre: Plant, run: Run, restored: Content)
    requires Sound(target, pre) && run.id.fingerprint == target.fingerprint && SameDeployment(run.target, target)
    requires SightOf(run.sight, pre) && IsRollbackPoint(run.target, run.id, run.sight, restored)
    requires NoSuccess(run.sight.second, target.fingerprint)
    ensures IsCurrent(pre.records - {run.id}, pre.baselines, target.fingerprint, restored)
        <==> SameLatest(run.sight.second, pre.records - {run.id}, target.fingerprint)
             && SameBaseline(run.sight.baselines, pre.baselines, target.fingerprint)
  {
    hide Rendered, EligibleSuccess, CompletedAt;
    var view, others, fp := run.sight.second, pre.records - {run.id}, target.fingerprint;
    var b :| IsNewestBaseline(run.sight.baselines, fp, b) && b.overlay == Base64(restored);
    assert b in pre.baselines;
    forall s | IsPreviousSuccess(others, fp, s) ensures s.overlay != Some(Base64(restored)) {
      var k :| k in others && others[k] == s;
      assert HoldsOwnOverlay(target, k, pre.records[k]);
      ReleasesDiffer(target, s.candidateSha, s.candidateSha);
    }
    forall c | IsNewestBaseline(run.sight.baselines, fp, c) ensures c == b {
      assert c in pre.baselines && CapturedAt(c) == CapturedAt(b);
    }
  }

  lemma DeployedIsCurrent(target: Target, pre: Plant, post: Plant, id: DeploymentId, at: Stamp)
    requires Sound(target, pre) && id.fingerprint == target.fingerprint && post.baselines == pre.baselines
    requires SuccessMarked(pre.records, post.records, id, Rendered(target, Release(id.candidateSha)), at)
    ensures var others := pre.records - {id};
      IsCurrent(post.records, post.baselines, target.fingerprint, Rendered(target, Release(id.candidateSha))) <==>
        StampedLast(others, target.fingerprint, at)
        || exists s :: IsPreviousSuccess(others, target.fingerprint, s) && s.candidateSha == id.candidateSha
  {
    hide Rendered;
    var others, fp, candidate := pre.records - {id}, target.fingerprint, Rendered(target, Release(id.candidateSha));
    var r :| IsSuccessRecord(r, id, candidate, at) && post.records == pre.records[id := r];
    assert ValidRecord(r) && at.Utc? && CompletedAt(r) == at.seconds && r.candidateSha == id.candidateSha;
    RunIsSound(target, pre, post, id, at);
    CurrentMeansLatest(target, post.records, post, id.candidateSha);
    hide ValidRecord, EligibleSuccess, CompletedAt, IsCurrent, Sound, IsPreviousSuccess, StampedLast;
    assert post.records == others[id := r];
    LatestWithNew(others, post.records, fp, id, r, at);
  }

  /** The latest success after one is added is the new one if it is stamped last, and otherwise the latest of the others. */
  lemma LatestWithNew(others: map<DeploymentId, Record>, all: map<DeploymentId, Record>, fp: string, id: DeploymentId, r: Record, at: Stamp)
    requires id !in others && all == others[id := r] && EligibleSuccess(r, fp) && at.Utc? && CompletedAt(r) == at.seconds
    ensures StampedLast(others, fp, at) <==> IsPreviousSuccess(all, fp, r)
    ensures forall s :: IsPreviousSuccess(all, fp, s) ==> s == r || IsPreviousSuccess(others, fp, s)
    ensures forall s :: IsPreviousSuccess(others, fp, s) && !StampedLast(others, fp, at) ==> IsPreviousSuccess(all, fp, s)
  {
    hide EligibleSuccess, CompletedAt;
    assert all[id] == r && forall k :: k in others ==> k in all && all[k] == others[k];
    forall s | IsPreviousSuccess(others, fp, s) && !StampedLast(others, fp, at) ensures IsPreviousSuccess(all, fp, s) {
      var k :| k in others && others[k] == s;
      assert all[k] == s;
    }
  }

  /** A new success record holds the overlay of its own commit. */
  lemma RunIsSound(target: Target, pre: Plant, post: Plant, id: DeploymentId, at: Stamp)
    requires Sound(target, pre) && post.baselines == pre.baselines && id.fingerprint == target.fingerprint
    requires SuccessMarked(pre.records, post.records, id, Rendered(target, Release(id.candidateSha)), at)
    ensures Sound(target, post)
  {
    hide Rendered, EligibleSuccess, Denotes;
  }

  lemma StepIsSound(target: Target, pre: Plant, post: Plant, run: Run)
    requires Step(target, pre, post, run) && Sound(target, pre)
    ensures Sound(target, post) && post.baselines == pre.baselines
  {
    hide Rendered, EligibleSuccess, Denotes, IsRollbackPoint, RecordFor;
    if run.ending.Deployed? {
      RenderingIgnoresAllowlists(run.target, target, Release(run.id.candidateSha));
      RunIsSound(target, pre, post, run.id, run.ending.at);
    } else if Admitted(run.ending) {
      UnsuccessfulIsNoSuccess(target, pre, post, run.id, run.ending);
    }
  }

  lemma UnsuccessfulIsNoSuccess(target: Target, pre: Plant, post: Plant, id: DeploymentId, ending: Ending)
    requires Marked(pre.records, post.records, id, ending)
    ensures forall k :: k in post.records && EligibleSuccess(post.records[k], target.fingerprint) ==>
      k in pre.records && post.records[k] == pre.records[k]
  {
  }

  /**
   The last run that asked for an install ended with a verified overlay under its condition, and no
   run since has overwritten the latest success.
   */
  ghost predicate Settled(target: Target, plants: seq<Plant>, runs: seq<Run>)
    requires |plants| == |runs| + 1
  {
    if runs == [] then InstalledIsCurrent(plants[0], target.fingerprint)
    else
      var n := |runs| - 1;
      && KeepsCurrent(plants[n], runs[n])
      && if Installing(runs[n].ending) then !runs[n].ending.Closed? else Settled(target, plants[..|runs|], runs[..n])
  }

  /** After a settled history the installed overlay is that of the latest success, or the newest baseline when there is none. */
  lemma {:induction false} InstalledFollowsLedger(target: Target, plants: seq<Plant>, runs: seq<Run>)
    requires History(target, plants, runs) && Sound(target, plants[0])
    requires forall i :: 0 <= i < |plants| ==> DistinctStamps(plants[i].records, target.fingerprint)
    ensures Sound(target, plants[|runs|])
    ensures Settled(target, plants, runs) ==> InstalledIsCurrent(plants[|runs|], target.fingerprint)
    decreases |runs|
  {
    hide Step, InstalledIsCurrent, Sound, KeepsCurrent, DistinctStamps;
    if |runs| > 0 {
      var n := |runs| - 1;
      InstalledFollowsLedger(target, plants[..|runs|], runs[..n]);
      assert Step(target, plants[n], plants[n + 1], runs[n]);
      StepIsSound(target, plants[n], plants[n + 1], runs[n]);
      if Settled(target, plants, runs) {
        RunKeepsCurrent(target, plants[n], plants[n + 1], runs[n]);
      }
    }
  }

  /** What is current is one document. */
  lemma CurrentIsUnique(target: Target, plant: Plant, x: Content, y: Content)
    requires Sound(target, plant) && DistinctStamps(plant.records, target.fingerprint)
    requires IsCurrent(plant.records, plant.baselines, target.fingerprint, x)
    requires IsCurrent(plant.records, plant.baselines, target.fingerprint, y)
    ensures x == y
  {
    hide EligibleSuccess, CompletedAt, Rendered, Denotes;
    var fp := target.fingerprint;
    if NoSuccess(plant.records, fp) {
      var b :| IsNewestBaseline(plant.baselines, fp, b) && b.overlay == Base64(x);
      var c :| IsNewestBaseline(plant.baselines, fp, c) && c.overlay == Base64(y);
      assert CapturedAt(b) == CapturedAt(c);
    } else {
      var r :| IsPreviousSuccess(plant.records, fp, r) && r.overlay == Some(Base64(x));
      var s :| IsPreviousSuccess(plant.records, fp, s) && s.overlay == Some(Base64(y));
      LatestIsUnique(plant.records, fp, r, s);
    }
  }

  /* ---------- the conditions when all successes are of one repository ---------- */

  ghost predicate OneRepository(records: map<DeploymentId, Record>, id: DeploymentId) {
    forall k :: k in records && EligibleSuccess(records[k], id.fingerprint) ==> records[k].repository == id.repository
  }

  /** A rollback goes back to the right release exactly when the pass read the latest other success, if there is one. */
  lemma RollbackNeedsLatestRead(target: Target, pre: Plant, run: Run, restored: Content)
    requires Sound(target, pre) && DistinctStamps(pre.records, target.fingerprint) && OneRepository(pre.records, run.id)
    requires SightOf(run.sight, pre) && IsRollbackPoint(run.target, run.id, run.sight, restored) && run.id.fingerprint == target.fingerprint
    ensures var others := pre.records - {run.id};
      SameLatest(run.sight.second, others, target.fingerprint) <==>
        NoSuccess(others, target.fingerprint)
        || exists k :: k in run.sight.second && k in others && IsPreviousSuccess(others, target.fingerprint, others[k])
  {
    hide Rendered, CompletedAt, Acceptable, IsNewestBaseline;
    var view, others, fp := run.sight.second, pre.records - {run.id}, target.fingerprint;
    assert forall k :: k in view && EligibleSuccess(view[k], fp) ==> HoldsOwnOverlay(target, k, view[k]);
    if !NoSuccess(view, fp) {
      var r :| IsPreviousSuccess(view, fp, r) && IsEarlierRelease(run.target, run.id, r, restored);
      var k :| k in view && view[k] == r;
      assert k in others && others[k] == r;
      hide EligibleSuccess;
      forall s | IsPreviousSuccess(view, fp, s) ensures s == r { LatestIsUnique(view, fp, r, s); }
      forall s | IsPreviousSuccess(others, fp, s) && s.candidateSha == r.candidateSha ensures s == r {
        var j :| j in others && others[j] == s;
        assert HoldsOwnOverlay(target, j, pre.records[j]);
      }
      forall j | j in view && j in others && IsPreviousSuccess(others, fp, others[j]) ensures others[j] == r {
        assert CompletedAt(others[j]) == CompletedAt(r);
      }
    }
  }

  /** A run that installs nothing leaves what is current alone exactly when its id does not hold the latest success. */
  lemma OverwritingTheLatest(target: Target, pre: Plant, id: DeploymentId)
    requires Sound(target, pre) && DistinctStamps(pre.records, target.fingerprint) && OneRepository(pre.records, id)
    requires id.fingerprint == target.fingerprint && InstalledIsCurrent(pre, target.fingerprint)
    ensures SameLatest(pre.records, pre.records - {id}, target.fingerprint) <==>
      !(id in pre.records && IsPreviousSuccess(pre.records, target.fingerprint, pre.records[id]))
  {
    hide Rendered, CompletedAt, Denotes, IsNewestBaseline;
    var others, fp := pre.records - {id}, target.fingerprint;
    if !NoSuccess(pre.records, fp) {
      var r :| IsPreviousSuccess(pre.records, fp, r);
      var k :| k in pre.records && pre.records[k] == r;
      hide EligibleSuccess;
      assert HoldsOwnOverlay(target, k, r);
      forall s | IsPreviousSuccess(pre.records, fp, s) ensures s == r { LatestIsUnique(pre.records, fp, r, s); }
      if k != id {
        assert others[k] == r;
        assert IsPreviousSuccess(others, fp, r);
      } else {
        forall s | IsPreviousSuccess(others, fp, s) ensures s.candidateSha != id.candidateSha {
          var j :| j in others && others[j] == s;
          assert HoldsOwnOverlay(target, j, pre.records[j]);
        }
      }
    }
  }

  /** When the passes read everything, only a success stamped too early leaves something else than the current overlay. */
  lemma FullSightKeepsCurrent(target: Target, pre: Plant, post: Plant, run: Run)
    requires Step(target, pre, post, run) && Sound(target, pre)
    requires run.sight == Sight(pre.records, pre.records, pre.baselines)
    requires Installing(run.ending) || InstalledIsCurrent(pre, target.fingerprint)
    requires run.ending.Deployed? ==> StampedLast(pre.records - {run.id}, target.fingerprint, run.ending.at)
    ensures KeepsCurrent(pre, run)
  {
    hide Rendered, Marked, SuccessMarked, CompletedAt, Sound;
    var others, fp := pre.records - {run.id}, target.fingerprint;
    if Admitted(run.ending) && !run.ending.Deployed? {
      assert forall k :: k in pre.records && EligibleSuccess(pre.records[k], fp) ==> k != run.id;
      assert forall k :: k in others ==> k in pre.records && pre.records[k] == others[k];
      hide EligibleSuccess;
      forall r | IsPreviousSuccess(pre.records, fp, r) ensures IsPreviousSuccess(others, fp, r) {
        var k :| k in pre.records && pre.records[k] == r;
        assert others[k] == r;
      }
    }
  }

  /* ---------- success records are permanent, and mean what they say ---------- */

  /**
   Some run with this sight of the ledger can change a success record exactly when the record is its
   own, the first pass did not read it, and the run has something to go back to and DAGs to pause.
   */
  lemma SuccessLostExactlyWhenUnread(target: Target, id: DeploymentId, pre: Plant, sight: Sight, k: DeploymentId)
    requires HasSuccess(pre.records, k) && ValidRecord(pre.records[k]) && pre.records[k].id == k && SightOf(sight, pre)
    ensures (exists post, ending :: Effect(target, id, pre, post, ending, sight) && !(k in post.records && post.records[k] == pre.records[k]))
        <==> k == id && k !in sight.first && CanStart(target, id, pre, sight)
  {
    hide IsRollbackPoint;
    if k == id && CanStart(target, id, pre, sight) {
      var failed := MakeRecord(id, pre.records[k].startedAt, pre.records[k].completedAt, Failed, None, None, None);
      var post := pre.(records := pre.records[id := failed]);
      assert Unsuccessful(failed, id) && RecordFor(failed, StoppedEarly(DRAIN_TIMEOUT));
      assert Effect(target, id, pre, post, StoppedEarly(DRAIN_TIMEOUT), sight);
    }
  }

  /** The idempotence pass of a run for this id reads its success record when there is one. */
  ghost predicate ReadsOwnSuccess(pre: Plant, run: Run, k: DeploymentId) {
    run.id == k && HasSuccess(pre.records, k) ==> k in run.sight.first
  }

  lemma RunKeepsSuccess(target: Target, pre: Plant, post: Plant, run: Run, k: DeploymentId)
    requires Step(target, pre, post, run) && ReadsOwnSuccess(pre, run, k)
    ensures HasSuccess(pre.records, k) ==> k in post.records && post.records[k] == pre.records[k]
    ensures HasSuccess(post.records, k) <==> HasSuccess(pre.records, k) || (run.id == k && run.ending.Deployed?)
  {
    hide IsRollbackPoint, Rendered;
  }

  ghost predicate Returned(runs: seq<Run>, k: DeploymentId) {
    exists i :: 0 <= i < |runs| && runs[i].id == k && runs[i].ending.Deployed?
  }

  /** A success record exists exactly when it was there at the start or a run returned that success. */
  lemma {:induction false} SuccessMeansReturned(target: Target, plants: seq<Plant>, runs: seq<Run>, k: DeploymentId)
    requires History(target, plants, runs)
    requires forall i :: 0 <= i < |runs| ==> ReadsOwnSuccess(plants[i], runs[i], k)
    ensures HasSuccess(plants[|runs|].records, k) <==> HasSuccess(plants[0].records, k) || Returned(runs, k)
    decreases |runs|
  {
    hide Step, HasSuccess, ReadsOwnSuccess;
    if |runs| > 0 {
      var n := |runs| - 1;
      SuccessMeansReturned(target, plants[..|runs|], runs[..n], k);
      RunKeepsSuccess(target, plants[n], plants[n + 1], runs[n], k);
      assert Returned(runs[..n], k) ==> Returned(runs, k);
      if Returned(runs, k) {
        var i :| 0 <= i < |runs| && runs[i].id == k && runs[i].ending.Deployed?;
        assert i < n ==> runs[..n][i] == runs[i];
      }
    }
  }

  /** No later run changes a success record, however many there are and however they end. */
  lemma {:induction false} SuccessIsPermanent(target: Target, plants: seq<Plant>, runs: seq<Run>, k: DeploymentId)
    requires History(target, plants, runs)
    requires forall i :: 0 <= i < |runs| ==> ReadsOwnSuccess(plants[i], runs[i], k)
    requires HasSuccess(plants[0].records, k)
    ensures k in plants[|runs|].records && plants[|runs|].records[k] == plants[0].records[k]
    ensures forall i :: 0 <= i < |runs| && runs[i].id == k ==> !runs[i].ending.Deployed?
    decreases |runs|
  {
    hide IsRollbackPoint, Rendered;
    if |runs| > 0 {
      var n := |runs| - 1;
      SuccessIsPermanent(target, plants[..|runs|], runs[..n], k);
      RunKeepsSuccess(target, plants[n], plants[n + 1], runs[n], k);
      forall i | 0 <= i < |runs| && runs[i].id == k ensures !runs[i].ending.Deployed? {
        if i < n {
          assert runs[..n][i] == runs[i];
        } else {
          assert Step(target, plants[n], plants[n + 1], runs[n]);
        }
      }
    }
  }

  /** Pause flags: as long as no run ends closed, every flag is where it was before the first run. */
  lemma {:induction false} FlagsComeBack(target: Target, plants: seq<Plant>, runs: seq<Run>)
    requires History(target, plants, runs)
    requires forall i :: 0 <= i < |runs| ==> !runs[i].ending.Closed?
    ensures plants[|runs|].paused == plants[0].paused
    decreases |runs|
  {
    hide Rendered, Marked, SuccessMarked, HasSuccess, IsRollbackPoint, Sees;
    if |runs| > 0 {
      var n := |runs| - 1;
      FlagsComeBack(target, plants[..|runs|], runs[..n]);
      assert Step(target, plants[n], plants[n + 1], runs[n]);
    }
  }

  /* ---------- ledger files that cannot be read ---------- */

  predicate ValidId(target: Target, id: DeploymentId) {
    id.repository != "" && IsSha40(id.candidateSha) && IsSha64(id.fingerprint) && id.fingerprint == target.fingerprint
  }

  /** The success record a run for this id writes. */
  function SuccessOf(target: Target, id: DeploymentId): Record {
    var content := Rendered(target, Release(id.candidateSha));
    MakeRecord(id, Utc(1), Some(Utc(2)), Success, Some("passed"), Some(Artifact(Release(id.candidateSha), content, Sha256(content))), None)
  }

  function CapturedBaseline(target: Target): BaselineRecord {
    var content := Rendered(target, Baseline);
    BaselineRecord(BASELINE_SCHEMA, BASELINE_ID, target.fingerprint, Utc(0), "passed", Base64(content), Sha256(content))
  }

  /** One success, its overlay installed, one baseline, and every DAG running. */
  function AfterOneSuccess(target: Target, id: DeploymentId): Plant {
    Plant(map d | d in target.dagAllowlist :: false, Some(Rendered(target, Release(id.candidateSha))), map[id := SuccessOf(target, id)], {CapturedBaseline(target)})
  }

  lemma AfterOneSuccessIsSound(target: Target, id: DeploymentId)
    requires ValidId(target, id) && target.codeServices != {}
    ensures var plant := AfterOneSuccess(target, id);
      Sound(target, plant) && DistinctStamps(plant.records, target.fingerprint) && InstalledIsCurrent(plant, target.fingerprint)
  {
    var plant := AfterOneSuccess(target, id);
    SuccessOfIsValid(target, id);
    assert Denotes(target, Baseline, Rendered(target, Baseline));
    hide Rendered, Denotes, SuccessOf, ValidRecord, EligibleSuccess;
    assert plant.records[id] == SuccessOf(target, id);
    assert IsPreviousSuccess(plant.records, target.fingerprint, SuccessOf(target, id));
  }

  lemma SuccessOfIsValid(target: Target, id: DeploymentId)
    requires ValidId(target, id)
    ensures var r := SuccessOf(target, id);
      ValidRecord(r) && EligibleSuccess(r, target.fingerprint) && HoldsOwnOverlay(target, id, r) && r.candidateSha == id.candidateSha
  {
    hide Rendered;
  }

  /** With no ledger file read, the baseline is what a run goes back to. */
  lemma UnreadLedgerGoesToBaseline(target: Target, id: DeploymentId, done: DeploymentId)
    requires ValidId(target, id) && Admissible(target, Baseline) && !MarksPaths(target, Baseline)
    ensures var sight := Sight(map[], map[], {CapturedBaseline(target)});
      IsRollbackPoint(target, id, sight, Rendered(target, Baseline)) && SightOf(sight, AfterOneSuccess(target, done))
  {
    RenderedIsAcceptable(target, Baseline);
    hide Rendered, Acceptable;
    assert IsNewestBaseline({CapturedBaseline(target)}, target.fingerprint, CapturedBaseline(target));
  }

  /**
   A pass skips a file it cannot open. Here a run for a deployment that has already succeeded is
   admitted because its file was not read, stops at the drain, and overwrites the success: the
   record is lost, and the overlay that stays installed is no longer the current one.
   */
  lemma UnreadableFileLosesSuccess(target: Target, id: DeploymentId)
    requires ValidId(target, id) && Admissible(target, Baseline) && !MarksPaths(target, Baseline)
    ensures exists post, ending, sight ::
      && Effect(target, id, AfterOneSuccess(target, id), post, ending, sight) && ending.StoppedEarly?
      && !HasSuccess(post.records, id) && !InstalledIsCurrent(post, target.fingerprint)
  {
    var sight, ending := Sight(map[], map[], {CapturedBaseline(target)}), StoppedEarly(DRAIN_TIMEOUT);
    assert target.codeServices != {};
    var post := OverwrittenSuccess(target, id, sight);
    AfterOneSuccessIsSound(target, id);
    hide Rendered, Admissible, Effect, Sound, IsCurrent, MarksPaths, AfterOneSuccess;
    RunKeepsCurrent(target, AfterOneSuccess(target, id), post, Run(target, id, ending, sight));
  }

  lemma OverwrittenSuccess(target: Target, id: DeploymentId, sight: Sight) returns (post: Plant)
    requires ValidId(target, id) && Admissible(target, Baseline) && !MarksPaths(target, Baseline)
    requires sight == Sight(map[], map[], {CapturedBaseline(target)})
    ensures Effect(target, id, AfterOneSuccess(target, id), post, StoppedEarly(DRAIN_TIMEOUT), sight) && !HasSuccess(post.records, id)
    ensures !SameLatest(AfterOneSuccess(target, id).records, AfterOneSuccess(target, id).records - {id}, target.fingerprint)
  {
    hide Rendered, Admissible, IsRollbackPoint, MarksPaths;
    var pre := AfterOneSuccess(target, id);
    UnreadLedgerGoesToBaseline(target, id, id);
    var failed := MakeRecord(id, Utc(1), Some(Utc(3)), Failed, None, None, None);
    post := pre.(records := pre.records[id := failed]);
    assert Unsuccessful(failed, id) && RecordFor(failed, StoppedEarly(DRAIN_TIMEOUT));
  }

  /**
   Here a rollback after a failed install goes to the baseline because the file of the latest
   success was not read: what it installs is not the current overlay.
   */
  lemma UnreadableFileMisleadsRollback(target: Target, id: DeploymentId, done: DeploymentId)
    requires ValidId(target, id) && ValidId(target, done) && id != done && Admissible(target, Baseline) && !MarksPaths(target, Baseline)
    ensures exists post, ending, sight ::
      && Effect(target, id, AfterOneSuccess(target, done), post, ending, sight) && ending.BackedOut?
      && !InstalledIsCurrent(post, target.fingerprint)
  {
    var sight, restored := Sight(map[], map[], {CapturedBaseline(target)}), Rendered(target, Baseline);
    assert target.codeServices != {};
    var post := MisledRollback(target, id, done, sight);
    AfterOneSuccessIsSound(target, done);
    hide Rendered, Admissible, Effect, Sound, IsCurrent, MarksPaths, AfterOneSuccess;
    RunKeepsCurrent(target, AfterOneSuccess(target, done), post, Run(target, id, BackedOut(restored), sight));
  }

  lemma MisledRollback(target: Target, id: DeploymentId, done: DeploymentId, sight: Sight) returns (post: Plant)
    requires ValidId(target, id) && ValidId(target, done) && id != done && Admissible(target, Baseline) && !MarksPaths(target, Baseline)
    requires sight == Sight(map[], map[], {CapturedBaseline(target)})
    ensures Effect(target, id, AfterOneSuccess(target, done), post, BackedOut(Rendered(target, Baseline)), sight)
    ensures !SameLatest(map[], AfterOneSuccess(target, done).records - {id}, target.fingerprint)
  {
    var pre, restored := AfterOneSuccess(target, done), Rendered(target, Baseline);
    hide Rendered, Admissible, IsRollbackPoint, MarksPaths;
    UnreadLedgerGoesToBaseline(target, id, done);
    var back := MakeRecord(id, Utc(3), Some(Utc(4)), RolledBack, Some("failed"), Some(Artifact(Baseline, restored, Sha256(restored))), None);
    post := pre.(records := pre.records[id := back], installed := Some(restored));
    assert Unsuccessful(back, id) && RecordFor(back, BackedOut(restored));
    assert pre.records - {id} == pre.records;
    assert pre.records[done] == SuccessOf(target, done) && EligibleSuccess(pre.records[done], target.fingerprint);
  }
}
