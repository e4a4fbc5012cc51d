/**
 Deployment records, their stored form, and the ledger directory with its lock file.
 Mirrors deployment/ledger.py and deployment/models.py.

 JSON text is the structured value it parses to. The canonical-JSON SHA-256 of a payload is the
 injective constructor `JChecksum`, and a deployment id is the triple it hashes.
 */
module Ledger {
  import opened Basics
  import opened Overlay

  /** A UTC timestamp in the canonical form, or a text that is not one. */
  datatype Stamp = Utc(seconds: nat) | BadStamp

  datatype Outcome = Started | Success | Failed | RolledBack | RollbackFailed

  datatype Terminal = PauseStateUnverified

  datatype DeploymentId = DeploymentId(repository: string, candidateSha: string, fingerprint: string)

  datatype Encoded = Base64(content: Content) | NotBase64

  datatype Record = Record(
    schema: string,
    id: DeploymentId,
    repository: string,
    candidateSha: string,
    fingerprint: string,
    startedAt: Stamp,
    completedAt: Option<Stamp>,
    outcome: Outcome,
    health: Option<string>,
    overlay: Option<Encoded>,
    overlaySha: Option<Digest>,
    terminal: Option<Terminal>)

  datatype BaselineRecord = BaselineRecord(
    schema: string,
    baselineId: string,
    fingerprint: string,
    capturedAt: Stamp,
    rehearsal: string,
    overlay: Encoded,
    overlaySha: Digest)

  datatype Json =
    | JNull
    | JNumber(n: int)
    | JText(text: string)
    | JStamp(stamp: Stamp)
    | JId(id: DeploymentId)
    | JBase64(encoded: Encoded)
    | JDigest(digest: Digest)
    | JChecksum(of: map<Key, Json>)

  /** The member names of a stored record; any other name is `Foreign`. */
  datatype Key =
    | SchemaVersion | IdField | RepositoryField | CandidateSha | TargetFingerprint | StartedAt | CompletedField
    | OutcomeField | HealthField | OverlayContent | OverlaySha | TerminalCategory | RecordSha | Foreign(name: string)

  type Payload = map<Key, Json>

  const SCHEMA_V1 := "weather-local-deployment-record/v1"
  const SCHEMA_V2 := "weather-local-deployment-record/v2"
  const BASELINE_SCHEMA := "weather-local-baseline-record/v1"
  const BASELINE_ID := "baseline://existing-local"
  const V1_KEYS := {
    SchemaVersion, IdField, RepositoryField, CandidateSha, TargetFingerprint, StartedAt,
    CompletedField, OutcomeField, HealthField, OverlayContent, OverlaySha
  }

  predicate IsSha64(s: string) { |s| == 64 && forall i :: 0 <= i < |s| ==> IsHex(s[i]) }

  /* ---------- record validation ---------- */

  predicate ValidOverlayFields(overlay: Option<Encoded>, overlaySha: Option<Digest>) {
    overlay.Some? && overlaySha.Some? && overlay.value.Base64? && overlaySha.value == Sha256(overlay.value.content)
  }

  predicate ValidRecord(r: Record) {
    && r.schema in {SCHEMA_V1, SCHEMA_V2}
    && (r.schema == SCHEMA_V1 ==> r.terminal.None?)
    && r.repository != "" && IsSha40(r.candidateSha) && IsSha64(r.fingerprint)
    && r.id == DeploymentId(r.repository, r.candidateSha, r.fingerprint)
    && r.startedAt.Utc?
    && match r.outcome
       case Started => r.completedAt.None? && r.health.None? && r.overlay.None? && r.overlaySha.None? && r.terminal.None?
       case Success =>
         && r.completedAt.Some? && r.completedAt.value.Utc?
         && r.health == Some("passed") && ValidOverlayFields(r.overlay, r.overlaySha) && r.terminal.None?
       case _ =>
         && r.completedAt.Some? && r.completedAt.value.Utc?
         && r.health in {None, Some("failed")}
         && (r.overlay.None? <==> r.overlaySha.None?)
         && (r.overlay.Some? ==> ValidOverlayFields(r.overlay, r.overlaySha))
         && (r.terminal.Some? ==> r.outcome == RollbackFailed)
  }

  /** What makes a stored record a rollback point for its target. */
  predicate EligibleSuccess(r: Record, fingerprint: string) {
    && r.fingerprint == fingerprint && r.outcome == Success && r.health == Some("passed")
    && r.completedAt.Some? && r.overlay.Some? && r.overlaySha.Some?
  }

  predicate ValidBaseline(r: BaselineRecord) {
    && r.schema == BASELINE_SCHEMA && r.baselineId == BASELINE_ID && IsSha64(r.fingerprint) && r.capturedAt.Utc?
    && r.rehearsal == "passed" && ValidOverlayFields(Some(r.overlay), Some(r.overlaySha))
  }

  /* ---------- stored form ---------- */

  function OutcomeText(o: Outcome): string {
    match o
    case Started => "started" case Success => "success" case Failed => "failed"
    case RolledBack => "rolled_back" case RollbackFailed => "rollback_failed"
  }

  function OutcomeOf(j: Json): Option<Outcome> {
    if j == JText("started") then Some(Started) else if j == JText("success") then Some(Success)
    else if j == JText("failed") then Some(Failed) else if j == JText("rolled_back") then Some(RolledBack)
    else if j == JText("rollback_failed") then Some(RollbackFailed) else None
  }

  function RecordPayload(r: Record): Payload {
    var common: Payload := map[
      SchemaVersion := JText(r.schema),
      IdField := JId(r.id),
      RepositoryField := JText(r.repository),
      CandidateSha := JText(r.candidateSha),
      TargetFingerprint := JText(r.fingerprint),
      StartedAt := JStamp(r.startedAt),
      CompletedField := if r.completedAt.Some? then JStamp(r.completedAt.value) else JNull,
      OutcomeField := JText(OutcomeText(r.outcome)),
      HealthField := if r.health.Some? then JText(r.health.value) else JNull,
      OverlayContent := if r.overlay.Some? then JBase64(r.overlay.value) else JNull,
      OverlaySha := if r.overlaySha.Some? then JDigest(r.overlaySha.value) else JNull
    ];
    if r.schema == SCHEMA_V1 then common
    else common[TerminalCategory := if r.terminal.Some? then JText("pause_state_unverified") else JNull]
  }

  /** What _write_atomic puts in the file. */
  function Sealed(p: Payload): Payload { p[RecordSha := JChecksum(p)] }

  /** What _read_record gives back for a file it could open: nothing unless the checksum matches. */
  function Unsealed(file: Payload): Option<Payload> {
    if RecordSha in file && file[RecordSha] == JChecksum(file - {RecordSha}) then Some(file) else None
  }

  predicate IsString(j: Json) { !j.JNull? && !j.JNumber? }

  /** Some text where a timestamp is expected; anything but the canonical form is malformed. */
  function StampOf(j: Json): Stamp { if j.JStamp? then j.stamp else BadStamp }

  function TextOf(j: Json): string { if j.JText? then j.text else "" }

  /** The exact key set of the schema version the payload names. */
  predicate KeysMatchSchema(p: Payload) {
    && SchemaVersion in p
    && ((p[SchemaVersion] == JText(SCHEMA_V1) && p.Keys == V1_KEYS + {RecordSha})
        || (p[SchemaVersion] == JText(SCHEMA_V2) && p.Keys == V1_KEYS + {TerminalCategory, RecordSha}))
  }

  function TerminalOf(p: Payload): (bool, Option<Terminal>) {
    if TerminalCategory !in p || p[TerminalCategory] == JNull then (true, None)
    else (p[TerminalCategory] == JText("pause_state_unverified"), Some(PauseStateUnverified))
  }

  function OptionalText(j: Json): Option<string> { if IsString(j) then Some(TextOf(j)) else None }

  function OptionalStamp(j: Json): Option<Stamp> { if IsString(j) then Some(StampOf(j)) else None }

  function OptionalOverlay(j: Json): Option<Encoded> {
    if j.JBase64? then Some(j.encoded) else if IsString(j) then Some(NotBase64) else None
  }

  /** The fields as read, before they are validated. */
  function RawRecord(p: Payload): Option<Record>
    requires KeysMatchSchema(p)
  {
    var digest := p[OverlaySha];
    if !TerminalOf(p).0 || OutcomeOf(p[OutcomeField]).None? || !p[IdField].JId? || (IsString(digest) && !digest.JDigest?) then None
    else Some(Record(
      p[SchemaVersion].text, p[IdField].id, TextOf(p[RepositoryField]), TextOf(p[CandidateSha]),
      TextOf(p[TargetFingerprint]), StampOf(p[StartedAt]), OptionalStamp(p[CompletedField]),
      OutcomeOf(p[OutcomeField]).value, OptionalText(p[HealthField]), OptionalOverlay(p[OverlayContent]),
      if digest.JDigest? then Some(digest.digest) else None, TerminalOf(p).1))
  }

  function RecordOfPayload(p: Payload): (r: Option<Record>)
    ensures r.Some? ==> ValidRecord(r.value)
  {
    if !KeysMatchSchema(p) then None
    else
      var raw := RawRecord(p);
      if raw.Some? && ValidRecord(raw.value) then raw else None
  }

  function Decoded(file: Payload): (r: Option<Record>)
    ensures r.Some? ==> ValidRecord(r.value)
  {
    var p := Unsealed(file);
    if p.None? then None else RecordOfPayload(p.value)
  }

  const OPTIONAL_KEYS := {CompletedField, HealthField, OverlayContent, OverlaySha}

  /** A stored member reads as the written one: it is that, or stands for nothing where nothing was written. */
  predicate SameMember(key: Key, stored: Json, written: Json) {
    stored == written || (key in OPTIONAL_KEYS && written == JNull && !IsString(stored))
  }

  /** The members of a file are those a record is written with. */
  ghost predicate StoredAs(file: Payload, r: Record) {
    && file.Keys == Sealed(RecordPayload(r)).Keys
    && forall key :: key in RecordPayload(r) ==> SameMember(key, file[key], RecordPayload(r)[key])
  }

  /** The same, member by member. */
  ghost predicate FieldsAre(p: Payload, r: Record)
    requires V1_KEYS <= p.Keys
  {
    && p[SchemaVersion] == JText(r.schema) && p[IdField] == JId(r.id)
    && p[RepositoryField] == JText(r.repository) && p[CandidateSha] == JText(r.candidateSha)
    && p[TargetFingerprint] == JText(r.fingerprint) && p[StartedAt] == JStamp(r.startedAt)
    && SameMember(CompletedField, p[CompletedField], if r.completedAt.Some? then JStamp(r.completedAt.value) else JNull)
    && p[OutcomeField] == JText(OutcomeText(r.outcome))
    && SameMember(HealthField, p[HealthField], if r.health.Some? then JText(r.health.value) else JNull)
    && SameMember(OverlayContent, p[OverlayContent], if r.overlay.Some? then JBase64(r.overlay.value) else JNull)
    && SameMember(OverlaySha, p[OverlaySha], if r.overlaySha.Some? then JDigest(r.overlaySha.value) else JNull)
    && (if TerminalCategory in p then p[TerminalCategory] == (if r.terminal.Some? then JText("pause_state_unverified") else JNull) else r.terminal.None?)
  }

  lemma MembersAreFields(file: Payload, r: Record)
    requires WellTyped(r)
    ensures StoredAs(file, r) <==> KeysMatchSchema(file) && FieldsAre(file, r)
  {
    PayloadKeys(r);
    PayloadFields(r);
    PayloadOptional(r);
    hide OutcomeText, SameMember, RecordPayload;
    if StoredAs(file, r) {
      MembersToFields(file, r);
    } else if KeysMatchSchema(file) && FieldsAre(file, r) {
      FieldsToMembers(file, r);
    }
  }

  predicate WellTyped(r: Record) { r.schema in {SCHEMA_V1, SCHEMA_V2} && (r.schema == SCHEMA_V1 ==> r.terminal.None?) }

  lemma PayloadKeys(r: Record)
    requires WellTyped(r)
    ensures RecordPayload(r).Keys == V1_KEYS + (if r.schema == SCHEMA_V1 then {} else {TerminalCategory})
    ensures RecordPayload(r)[SchemaVersion] == JText(r.schema)
  {
    hide OutcomeText;
  }

  lemma PayloadFields(r: Record)
    requires WellTyped(r)
    ensures V1_KEYS <= RecordPayload(r).Keys && FieldsAre(RecordPayload(r), r)
  {
    hide OutcomeText, IsString;
  }

  lemma PayloadOptional(r: Record)
    requires WellTyped(r)
    ensures forall key :: key in OPTIONAL_KEYS ==> key in RecordPayload(r) && (RecordPayload(r)[key] == JNull || IsString(RecordPayload(r)[key]))
  {
    hide OutcomeText;
  }

  lemma SealedKeys(r: Record)
    requires WellTyped(r)
    ensures KeysMatchSchema(Sealed(RecordPayload(r)))
    ensures Sealed(RecordPayload(r)) - {RecordSha} == RecordPayload(r)
  {
    PayloadKeys(r);
    hide RecordPayload;
  }

  lemma MembersToFields(file: Payload, r: Record)
    requires r.schema in {SCHEMA_V1, SCHEMA_V2} && StoredAs(file, r)
    requires RecordPayload(r).Keys == V1_KEYS + (if r.schema == SCHEMA_V1 then {} else {TerminalCategory})
    requires FieldsAre(RecordPayload(r), r)
    ensures KeysMatchSchema(file) && FieldsAre(file, r)
  {
    hide OutcomeText, RecordPayload, IsString;
  }

  lemma FieldsToMembers(file: Payload, r: Record)
    requires r.schema in {SCHEMA_V1, SCHEMA_V2} && KeysMatchSchema(file) && FieldsAre(file, r)
    requires RecordPayload(r).Keys == V1_KEYS + (if r.schema == SCHEMA_V1 then {} else {TerminalCategory})
    requires FieldsAre(RecordPayload(r), r)
    requires forall key :: key in OPTIONAL_KEYS ==> RecordPayload(r)[key] == JNull || IsString(RecordPayload(r)[key])
    ensures StoredAs(file, r)
  {
    hide OutcomeText, RecordPayload, IsString;
  }

  lemma OutcomeReadsBack(o: Outcome)
    ensures OutcomeOf(JText(OutcomeText(o))) == Some(o)
  {
  }

  lemma OutcomeIsText(j: Json)
    ensures OutcomeOf(j).Some? ==> j == JText(OutcomeText(OutcomeOf(j).value))
  {
  }

  /** On valid records, reading the members and having them are the same. */
  lemma RawIsFields(p: Payload, r: Record)
    requires KeysMatchSchema(p) && ValidRecord(r)
    ensures RawRecord(p) == Some(r) <==> FieldsAre(p, r)
  {
    OutcomeReadsBack(r.outcome);
    OutcomeIsText(p[OutcomeField]);
    hide OutcomeOf, OutcomeText;
    assert r.terminal.Some? ==> r.terminal.value.PauseStateUnverified?;
  }

  /** A file is read as a record exactly when the record is valid, the checksum is right and the members are the record's. */
  lemma ReadExactlyAsWritten(file: Payload, r: Record)
    ensures Decoded(file) == Some(r) <==> ValidRecord(r) && Unsealed(file).Some? && StoredAs(file, r)
  {
    if ValidRecord(r) {
      assert WellTyped(r);
      MembersAreFields(file, r);
      if KeysMatchSchema(file) { RawIsFields(file, r); }
    }
    hide ValidRecord, RecordPayload, RawRecord, KeysMatchSchema, FieldsAre, StoredAs;
  }

  /** Every record the ledger agrees to write reads back unchanged, in both schema versions. */
  lemma WriteThenRead(r: Record)
    requires ValidRecord(r)
    ensures Decoded(Sealed(RecordPayload(r))) == Some(r)
  {
    assert WellTyped(r);
    SealedKeys(r);
    ReadExactlyAsWritten(Sealed(RecordPayload(r)), r);
    hide ValidRecord, Decoded, RecordPayload;
  }

  /** Two different records never share a stored form, so no write can be read as another. */
  lemma StoredFormIsUnique(r1: Record, r2: Record)
    requires ValidRecord(r1) && ValidRecord(r2)
    requires Sealed(RecordPayload(r1)) == Sealed(RecordPayload(r2))
    ensures r1 == r2
  {
    WriteThenRead(r1);
    WriteThenRead(r2);
  }

  /** A file that keeps its checksum but differs from what was sealed, in any members, is not read at all. */
  lemma TamperingIsNoticed(p: Payload, file: Payload)
    requires RecordSha !in p && file != Sealed(p) && RecordSha in file && file[RecordSha] == Sealed(p)[RecordSha]
    ensures Decoded(file).None?
  {
    assert file == (file - {RecordSha})[RecordSha := file[RecordSha]];
  }

  /* ---------- the ledger directory ---------- */

  type Files = map<DeploymentId, Payload>

  /** The records a directory holds, file by file. */
  function Records(files: Files): map<DeploymentId, Record> {
    map id | id in files && Decoded(files[id]).Some? :: Decoded(files[id]).value
  }

  lemma RecordsAfterWrite(files: Files, record: Record)
    requires ValidRecord(record)
    ensures Records(files[record.id := Sealed(RecordPayload(record))]) == Records(files)[record.id := record]
  {
    WriteThenRead(record);
    hide ValidRecord, Decoded, Sealed, RecordPayload;
  }

  /** What one pass over the directory saw: a file that could not be read is simply absent. */
  ghost predicate Sees(view: map<DeploymentId, Record>, records: map<DeploymentId, Record>) {
    view.Keys <= records.Keys && forall id :: id in view ==> view[id] == records[id]
  }

  ghost predicate HasSuccess(records: map<DeploymentId, Record>, id: DeploymentId) {
    id in records && EligibleSuccess(records[id], id.fingerprint)
  }

  function CompletedAt(r: Record): nat {
    if r.completedAt.Some? && r.completedAt.value.Utc? then r.completedAt.value.seconds else 0
  }

  /** The order by completion time, then by hashed id. */
  predicate AtMost(r: Record, s: Record, digest: DeploymentId -> nat) {
    CompletedAt(r) < CompletedAt(s) || (CompletedAt(r) == CompletedAt(s) && digest(r.id) <= digest(s.id))
  }

  /** The rollback point of a target: a success record no other success completed after. */
  ghost predicate IsPreviousSuccess(view: map<DeploymentId, Record>, fingerprint: string, r: Record) {
    && (exists id :: id in view && view[id] == r)
    && EligibleSuccess(r, fingerprint)
    && forall id :: id in view && EligibleSuccess(view[id], fingerprint) ==> CompletedAt(view[id]) <= CompletedAt(r)
  }

  ghost predicate NoSuccess(records: map<DeploymentId, Record>, fingerprint: string) {
    forall id :: id in records ==> !EligibleSuccess(records[id], fingerprint)
  }

  function CapturedAt(b: BaselineRecord): nat { if b.capturedAt.Utc? then b.capturedAt.seconds else 0 }

  /** A baseline of the target no other baseline of it was captured after. */
  ghost predicate IsNewestBaseline(baselines: set<BaselineRecord>, fingerprint: string, b: BaselineRecord) {
    b in baselines && b.fingerprint == fingerprint
    && forall c :: c in baselines && c.fingerprint == fingerprint ==> CapturedAt(c) <= CapturedAt(b)
  }

  class DeploymentLedger {
    /** The hashed id as a number: hashes of one length are ordered like the numbers they write. */
    const digest: DeploymentId -> nat
    var files: Files
    var baselines: set<BaselineRecord>
    var lockHeld: bool

    /** Each record sits in the file named after its own id, as begin and complete leave it. */
    ghost predicate Valid()
      reads this
    {
      && (forall id :: id in Records(files) ==> Records(files)[id].id == id)
      && forall b :: b in baselines ==> ValidBaseline(b)
    }

    constructor (baselines: set<BaselineRecord>, digest: DeploymentId -> nat)
      requires forall b :: b in baselines ==> ValidBaseline(b)
      ensures Valid() && files == map[] && this.baselines == baselines && this.digest == digest && !lockHeld
    {
      files, this.baselines, this.digest, lockHeld := map[], baselines, digest, false;
    }

    /** O_CREAT | O_EXCL: fails when the file exists; a write that fails afterwards removes it again. */
    method AcquireLock() returns (ok: bool)
      modifies this`lockHeld
      ensures ok ==> !old(lockHeld) && lockHeld
      ensures !ok ==> lockHeld == old(lockHeld)
    {
      var openFault: bool := *;
      if lockHeld || openFault { return false; }
      lockHeld := true;
      var writeFault: bool := *;
      if writeFault { lockHeld := false; }
      ok := !writeFault;
    }

    method ReleaseLock()
      modifies this`lockHeld
      ensures !lockHeld
    {
      lockHeld := false;
    }

    /** begin and complete: validate, then replace the file in one step or leave it alone. */
    method Write(record: Record) returns (ok: bool)
      requires Valid()
      modifies this`files
      ensures Valid()
      ensures ok ==> ValidRecord(record) && Records(files) == Records(old(files))[record.id := record]
      ensures !ok ==> files == old(files)
      ensures !ValidRecord(record) ==> !ok
    {
      hide ValidRecord, Decoded, Sealed, RecordPayload, Records;
      var fault: bool := *;
      if !ValidRecord(record) || fault { return false; }
      RecordsAfterWrite(files, record);
      files := files[record.id := Sealed(RecordPayload(record))];
      ok := true;
    }

    /** One pass over deployment-*.json; unreadable and invalid files are skipped. */
    method ReadRecords() returns (view: map<DeploymentId, Record>)
      ensures Sees(view, Records(files))
    {
      view := map[];
      var todo := files.Keys;
      while todo != {}
        invariant todo <= files.Keys
        invariant Sees(view, Records(files))
        decreases |todo|
      {
        var id :| id in todo;
        var unreadable: bool := *;
        var record := Decoded(files[id]);
        if !unreadable && record.Some? {
          view := view[id := record.value];
        }
        todo := todo - {id};
      }
    }

    /** None when the pass itself raised. */
    method AlreadySuccessful(id: DeploymentId) returns (found: Option<bool>, ghost view: map<DeploymentId, Record>)
      requires Valid()
      ensures Sees(view, Records(files))
      ensures found.Some? ==> (found.value <==> HasSuccess(view, id))
      ensures found == Some(true) ==> HasSuccess(Records(files), id)
    {
      var records := ReadRecords();
      view := records;
      var fault: bool := *;
      if fault { return None, view; }
      found := Some(id in records && EligibleSuccess(records[id], records[id].fingerprint));
    }

    /** The largest (completed_at, id) among the successes seen. */
    method PreviousSuccess(fingerprint: string) returns (ok: bool, best: Option<Record>, ghost view: map<DeploymentId, Record>)
      requires Valid()
      ensures Sees(view, Records(files))
      ensures best.Some? ==> IsPreviousSuccess(view, fingerprint, best.value)
      ensures best.Some? ==> forall id :: id in view && EligibleSuccess(view[id], fingerprint) ==> AtMost(view[id], best.value, digest)
      ensures best.Some? ==> EligibleSuccess(best.value, fingerprint) && exists id :: id in Records(files) && Records(files)[id] == best.value
      ensures best.None? ==> NoSuccess(view, fingerprint)
    {
      hide EligibleSuccess, CompletedAt, Records;
      var records := ReadRecords();
      view := records;
      best := None;
      var todo := records.Keys;
      while todo != {}
        invariant todo <= records.Keys
        invariant best.Some? ==> (exists id :: id in records && records[id] == best.value) && EligibleSuccess(best.value, fingerprint)
        invariant forall id :: id in records.Keys - todo && EligibleSuccess(records[id], fingerprint)
                    ==> best.Some? && AtMost(records[id], best.value, digest)
        decreases |todo|
      {
        var id :| id in todo;
        var r := records[id];
        if EligibleSuccess(r, fingerprint) {
          if best.None? || AtMost(best.value, r, digest) {
            best := Some(r);
          }
        }
        todo := todo - {id};
      }
      ok := *;
    }

    /** The newest baseline of the target among those the pass could read. */
    method BaselineFor(fingerprint: string) returns (ok: bool, best: Option<BaselineRecord>, ghost seen: set<BaselineRecord>)
      requires Valid()
      ensures seen <= baselines
      ensures best.Some? ==> IsNewestBaseline(seen, fingerprint, best.value)
      ensures best.None? ==> forall b :: b in seen ==> b.fingerprint != fingerprint
    {
      best, seen := None, {};
      var todo := baselines;
      while todo != {}
        invariant todo <= baselines && seen <= baselines - todo
        invariant best.Some? ==> IsNewestBaseline(seen, fingerprint, best.value)
        invariant best.None? ==> forall b :: b in seen ==> b.fingerprint != fingerprint
        decreases |todo|
      {
        var b :| b in todo;
        var unreadable: bool := *;
        if !unreadable {
          seen := seen + {b};
          if b.fingerprint == fingerprint && (best.None? || CapturedAt(best.value) < CapturedAt(b)) {
            best := Some(b);
          }
        }
        todo := todo - {b};
      }
      ok := *;
    }
  }
}
