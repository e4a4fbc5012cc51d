/**
 The compose overlay that points every Airflow code service at one pair of host directories.
 Mirrors deployment/overlay.py: rendering, the strict validator, and the store that stages,
 installs and restores the file.

 YAML text is the value it parses to, whether the text holds an `&` or a `*`, and a `layout` that
 tells apart different texts with the same value. SHA-256 is the injective constructor `Sha256`.
 */
module Overlay {
  import opened Basics

  datatype Yaml =
    | YStr(text: string)
    | YBool(flag: bool)
    | YSeq(items: seq<Yaml>)
    | YMap(entries: map<string, Yaml>)

  /** `marked`: the text holds an `&` or a `*` somewhere, which the strict parser takes for an anchor or an alias. */
  datatype Content = Parsed(layout: nat, marked: bool, root: Yaml) | Unparsable(layout: nat)

  datatype Digest = Sha256(of: Content)

  datatype Kind = Baseline | Release(candidateSha: string)

  datatype Artifact = Artifact(kind: Kind, content: Content, sha256: Digest)

  /** The fields of a deploy target the deployment code reads; paths use forward slashes. */
  datatype Target = Target(
    fingerprint: string,
    runtimeRoot: string,
    dagsHostPath: string,
    dbtHostPath: string,
    codeServices: set<string>,
    forbiddenDataServices: set<string>,
    dagAllowlist: set<string>,
    writerAllowlist: set<string>,
    drainTimeout: nat,
    pollInterval: nat)

  const ARTIFACT_ROOT_ENV := "ASK_SEOUL_DBT_ARTIFACT_ROOT"
  const ARTIFACT_RELEASE_ROOT := "/opt/airflow/logs/weather-dbt/releases/"
  const DAGS_MOUNT := "/opt/airflow/dags"
  const DBT_MOUNT := "/opt/airflow/dbt"
  const CREDENTIAL_WORDS: set<string> := {
    "token", "secret", "password", "credential", "authorization", "bearer", "apikey", "api_key", "api-key"
  }

  /* ---------- text predicates ---------- */

  predicate IsHex(c: char) { '0' <= c <= '9' || 'a' <= c <= 'f' }

  predicate IsSha40(s: string) { |s| == 40 && forall i :: 0 <= i < |s| ==> IsHex(s[i]) }

  predicate IsLetter(c: char) { 'a' <= c <= 'z' || 'A' <= c <= 'Z' }

  predicate IsNameStart(c: char) { IsLetter(c) || '0' <= c <= '9' }

  function Lower(c: char): char { if 'A' <= c <= 'Z' then (c as int + 32) as char else c }

  predicate MatchesAt(s: string, i: nat, word: string) {
    i + |word| <= |s| && forall k :: 0 <= k < |word| ==> Lower(s[i + k]) == word[k]
  }

  predicate ContainsWord(s: string, word: string) {
    exists i: nat :: i <= |s| && MatchesAt(s, i, word)
  }

  predicate MentionsCredential(s: string) {
    exists word :: word in CREDENTIAL_WORDS && ContainsWord(s, word)
  }

  predicate IsServiceName(s: string) {
    && !ContainsWord(s, "airflow-init")
    && |s| > 0 && IsNameStart(s[0])
    && forall i :: 0 <= i < |s| ==> IsNameStart(s[i]) || s[i] in "_.-"
  }

  predicate IsSeparator(c: char) { c == '/' || c == '\\' }

  /** No path segment is `.` or `..`. */
  predicate NoDotSegment(path: string) {
    forall i, j :: 0 <= i <= j <= |path|
      && (i == 0 || IsSeparator(path[i - 1])) && (j == |path| || IsSeparator(path[j]))
      ==> path[i..j] != "." && path[i..j] != ".."
  }

  predicate HasDrive(path: string) {
    |path| >= 3 && IsLetter(path[0]) && path[1] == ':' && IsSeparator(path[2])
  }

  predicate OccursAt(part: string, path: string, i: nat) {
    i + |part| <= |path| && path[i..i + |part|] == part
  }

  predicate OccursIn(part: string, path: string) {
    exists i: nat :: i <= |path| && OccursAt(part, path, i)
  }

  predicate AbsoluteClean(path: string) {
    if '\\' in path || (HasDrive(path) && path[2] == '/') then
      (HasDrive(path) || (|path| >= 2 && IsSeparator(path[0]) && IsSeparator(path[1]))) && NoDotSegment(path)
    else
      && |path| > 0 && path[0] == '/'
      && !OccursIn("/./", path) && !OccursIn("/../", path)
      && !(|path| >= 3 && path[|path| - 3..] == "/..")
  }

  predicate CleanSource(path: string) { AbsoluteClean(path) && !MentionsCredential(path) }

  /* ---------- what a rendered overlay is ---------- */

  /** The host directories a kind of overlay mounts: (dags, dbt). */
  function Pair(target: Target, kind: Kind): (string, string) {
    match kind
    case Baseline => (target.dagsHostPath, target.dbtHostPath)
    case Release(sha) => (target.runtimeRoot + "/releases/" + sha + "/dags", target.runtimeRoot + "/releases/" + sha + "/dbt")
  }

  function Volume(source: string, mount: string, readOnly: bool): Yaml {
    YMap(map["type" := YStr("bind"), "source" := YStr(source), "target" := YStr(mount), "read_only" := YBool(readOnly)])
  }

  function Environment(sha: string): Yaml {
    YMap(map[ARTIFACT_ROOT_ENV := YStr(ARTIFACT_RELEASE_ROOT + sha)])
  }

  function Body(kind: Kind, pair: (string, string)): Yaml {
    var volumes := YSeq([Volume(pair.0, DAGS_MOUNT, true), Volume(pair.1, DBT_MOUNT, kind.Release?)]);
    match kind
    case Baseline => YMap(map["volumes" := volumes])
    case Release(sha) => YMap(map["volumes" := volumes, "environment" := Environment(sha)])
  }

  function Payload(target: Target, kind: Kind): Yaml {
    YMap(map["services" := YMap(map service | service in target.codeServices :: Body(kind, Pair(target, kind)))])
  }

  predicate MarksText(s: string) { '&' in s || '*' in s }

  /** Some string of a value holds an `&` or a `*`; the renderer writes both characters as they are. */
  predicate Marks(value: Yaml) {
    match value
    case YStr(text) => MarksText(text)
    case YBool(_) => false
    case YSeq(items) => exists i :: 0 <= i < |items| && Marks(items[i])
    case YMap(entries) => exists key :: key in entries && (MarksText(key) || Marks(entries[key]))
  }

  /** The document the renderer writes. */
  function Rendered(target: Target, kind: Kind): Content {
    Parsed(0, Marks(Payload(target, kind)), Payload(target, kind))
  }

  /** The configured directories of a kind hold an `&` or a `*`. */
  predicate MarksPaths(target: Target, kind: Kind) {
    match kind
    case Baseline => MarksText(target.dagsHostPath) || MarksText(target.dbtHostPath)
    case Release(_) => MarksText(target.runtimeRoot)
  }

  /** Names, directories and kind that both the renderer and the validator let through. */
  ghost predicate Admissible(target: Target, kind: Kind) {
    && target.codeServices != {}
    && (forall s :: s in target.codeServices ==>
          IsServiceName(s) && s !in target.forbiddenDataServices && !MentionsCredential(s))
    && CleanSource(Pair(target, kind).0) && CleanSource(Pair(target, kind).1)
    && (kind.Release? ==> IsSha40(kind.candidateSha) && Pair(target, kind) != Pair(target, Baseline))
  }

  /** The content says exactly what the renderer says for this kind. */
  ghost predicate Denotes(target: Target, kind: Kind, content: Content) {
    content.Parsed? && content.root == Payload(target, kind)
  }

  ghost predicate Acceptable(target: Target, kind: Kind, content: Content) {
    Admissible(target, kind) && Denotes(target, kind, content) && !content.marked
  }

  /* ---------- rendering ---------- */

  /** The renderer walks the sorted services; any order of the same set builds the same mapping. */
  method RenderArtifact(target: Target, kind: Kind) returns (r: Option<Artifact>)
    ensures r.Some? <==> forall s :: s in target.codeServices ==> IsServiceName(s)
    ensures r.Some? ==> r.value == Artifact(kind, Rendered(target, kind), Sha256(Rendered(target, kind)))
  {
    var todo := target.codeServices;
    var services: map<string, Yaml> := map[];
    var pair := Pair(target, kind);
    while todo != {}
      invariant todo <= target.codeServices
      invariant services == map s | s in target.codeServices - todo :: Body(kind, pair)
      invariant forall s :: s in target.codeServices - todo ==> IsServiceName(s)
      decreases |todo|
    {
      var s :| s in todo;
      if !IsServiceName(s) {
        return None;
      }
      services := services[s := Body(kind, pair)];
      todo := todo - {s};
    }
    assert target.codeServices - {} == target.codeServices;
    var payload := YMap(map["services" := YMap(services)]);
    var content := Parsed(0, Marks(payload), payload);
    r := Some(Artifact(kind, content, Sha256(content)));
  }

  method RenderRelease(target: Target, checkoutRoot: string, candidateSha: string) returns (r: Option<Artifact>)
    ensures r.Some? <==>
      && IsSha40(candidateSha) && checkoutRoot == target.runtimeRoot + "/releases/" + candidateSha
      && forall s :: s in target.codeServices ==> IsServiceName(s)
    ensures r.Some? ==> r.value == Artifact(Release(candidateSha), Rendered(target, Release(candidateSha)), Sha256(r.value.content))
  {
    if !IsSha40(candidateSha) || checkoutRoot != target.runtimeRoot + "/releases/" + candidateSha {
      return None;
    }
    r := RenderArtifact(target, Release(candidateSha));
  }

  /* ---------- the strict validator ---------- */

  /** Which kind of overlay, if any, a pair of sources belongs to. */
  function PairKind(target: Target, pair: (string, string)): (kind: Option<Kind>)
    ensures kind.Some? ==> pair == Pair(target, kind.value)
    ensures kind.Some? && kind.value.Release? ==> IsSha40(kind.value.candidateSha) && pair != Pair(target, Baseline)
  {
    var prefix := target.runtimeRoot + "/releases/";
    if pair == (target.dagsHostPath, target.dbtHostPath) then Some(Baseline)
    else if |pair.0| != |prefix| + 45 then None
    else
      var sha := pair.0[|prefix|..|prefix| + 40];
      if IsSha40(sha) && pair.0 == prefix + sha + "/dags" && pair.1 == prefix + sha + "/dbt" then Some(Release(sha)) else None
  }

  /** The classifier recovers the kind of every pair the renderer produces. */
  lemma PairKindOfPair(target: Target, kind: Kind)
    requires kind.Release? ==> IsSha40(kind.candidateSha) && Pair(target, kind) != Pair(target, Baseline)
    ensures PairKind(target, Pair(target, kind)) == Some(kind)
  {
  }

  /** One volume is accepted exactly when it binds a clean source to the expected mount point. */
  function VolumeSource(volume: Yaml, mount: string): (source: Option<string>)
    ensures source.Some? ==> CleanSource(source.value)
    ensures source.Some? ==> volume.YMap? && forall flag ::
      "read_only" in volume.entries && volume.entries["read_only"] == YBool(flag) ==> volume == Volume(source.value, mount, flag)
    ensures forall path, flag :: CleanSource(path) && volume == Volume(path, mount, flag) ==> source == Some(path)
  {
    if !volume.YMap? || volume.entries.Keys != {"type", "source", "target", "read_only"} then None
    else if volume.entries["type"] != YStr("bind") || volume.entries["target"] != YStr(mount) then None
    else if !volume.entries["source"].YStr? || !CleanSource(volume.entries["source"].text) then None
    else
      assert forall flag :: volume.entries["read_only"] == YBool(flag) ==>
        volume.entries == Volume(volume.entries["source"].text, mount, flag).entries;
      Some(volume.entries["source"].text)
  }

  /** The two sources of one service body, when its volume list has the required shape. */
  function BodySources(body: Yaml): (pair: Option<(string, string)>)
    ensures pair.Some? ==> CleanSource(pair.value.0) && CleanSource(pair.value.1)
    ensures pair.Some? ==> body.YMap? && "volumes" in body.entries && body.entries["volumes"].YSeq? && |body.entries["volumes"].items| == 2
  {
    if !body.YMap? || "volumes" !in body.entries || !(body.entries.Keys <= {"volumes", "environment"}) then None
    else if !body.entries["volumes"].YSeq? || |body.entries["volumes"].items| != 2 then None
    else
      var dags := VolumeSource(body.entries["volumes"].items[0], DAGS_MOUNT);
      var dbt := VolumeSource(body.entries["volumes"].items[1], DBT_MOUNT);
      if dags.Some? && dbt.Some? then Some((dags.value, dbt.value)) else None
  }

  /** The read-only flag of an accepted volume. */
  function ReadOnlyIs(volume: Yaml, flag: bool): bool {
    volume.YMap? && "read_only" in volume.entries && volume.entries["read_only"] == YBool(flag)
  }

  predicate EntryMentionsCredential(key: string, value: Yaml) {
    MentionsCredential(key) || (value.YStr? && MentionsCredential(value.text))
  }

  function EnvironmentMentionsCredential(environment: Yaml): bool {
    environment.YMap? && exists key :: key in environment.entries && EntryMentionsCredential(key, environment.entries[key])
  }

  /** The second pass over a body, once the kind is known. */
  function BodyMatchesKind(body: Yaml, kind: Kind): bool
    requires BodySources(body).Some?
  {
    var volumes := body.entries["volumes"].items;
    && body.entries.Keys == (if kind.Release? then {"volumes", "environment"} else {"volumes"})
    && ReadOnlyIs(volumes[0], true) && ReadOnlyIs(volumes[1], kind.Release?)
    && (kind.Release? ==> !EnvironmentMentionsCredential(body.entries["environment"]) && body.entries["environment"] == Environment(kind.candidateSha))
  }

  lemma BodyShape(body: Yaml, kind: Kind)
    requires BodySources(body).Some? && BodyMatchesKind(body, kind)
    ensures body == Body(kind, BodySources(body).value)
  {
    var pair := BodySources(body).value;
    var volumes := body.entries["volumes"].items;
    assert volumes[0] == Volume(pair.0, DAGS_MOUNT, true);
    assert volumes[1] == Volume(pair.1, DBT_MOUNT, kind.Release?);
    assert volumes == [volumes[0], volumes[1]];
    assert body.entries == Body(kind, pair).entries;
  }

  lemma RenderedBodyAccepted(kind: Kind, pair: (string, string))
    requires CleanSource(pair.0) && CleanSource(pair.1)
    requires kind.Release? ==> IsSha40(kind.candidateSha)
    ensures BodySources(Body(kind, pair)) == Some(pair)
    ensures BodyMatchesKind(Body(kind, pair), kind)
  {
    var body := Body(kind, pair);
    assert body.entries["volumes"].items[0] == Volume(pair.0, DAGS_MOUNT, true);
    assert body.entries["volumes"].items[1] == Volume(pair.1, DBT_MOUNT, kind.Release?);
    if kind.Release? {
      ArtifactRootIsClean(kind.candidateSha);
    }
  }

  /*
   The environment the renderer writes never trips the credential filter. Each credential word holds
   one of these pairs of neighbouring letters, bearer both of the last two:

     ke   token, apikey, api_key, api-key      za   authorization
     cr   secret, credential                   be   bearer
     ss   password                             ar   bearer

   The release root, with any commit after it, lacks all of them but perhaps be; the variable's name
   lacks all of them but ar.
   */

  predicate Adjacent(s: string, x: char, y: char) {
    exists i :: 0 <= i && i + 1 < |s| && Lower(s[i]) == x && Lower(s[i + 1]) == y
  }

  lemma WordNeedsPair(s: string, word: string, at: nat)
    requires at + 1 < |word| && ContainsWord(s, word)
    ensures Adjacent(s, word[at], word[at + 1])
  {
  }

  ghost predicate Lacks(s: string, x: char, y: char) { !Adjacent(s, x, y) }

  /** No letter pair that every credential word needs occurs in a text: the telling pairs. */
  ghost predicate LacksTelling(s: string) {
    && Lacks(s, 'k', 'e') && Lacks(s, 'c', 'r') && Lacks(s, 's', 's') && Lacks(s, 'z', 'a')
    && (Lacks(s, 'a', 'r') || Lacks(s, 'b', 'e'))
  }

  lemma FreeOfCredentials(s: string)
    requires LacksTelling(s)
    ensures !MentionsCredential(s)
  {
    if MentionsCredential(s) {
      var word :| word in CREDENTIAL_WORDS && ContainsWord(s, word);
      var at := if word == "token" then 2 else if word == "secret" then 2 else if word == "password" then 2
        else if word == "credential" then 0 else if word == "authorization" then 7 else if word == "apikey" then 3
        else if word == "bearer" then 0 else 4;
      WordNeedsPair(s, word, at);
      if word == "bearer" { WordNeedsPair(s, word, 2); }
    }
  }

  lemma RootLacksKE(s: string)
    requires s == "/opt/airflow/logs/weather-dbt/releases/"
    ensures Lacks(s, 'k', 'e')
  {
  }

  lemma RootLacksCR(s: string)
    requires s == "/opt/airflow/logs/weather-dbt/releases/"
    ensures Lacks(s, 'c', 'r')
  {
  }

  lemma RootLacksSS(s: string)
    requires s == "/opt/airflow/logs/weather-dbt/releases/"
    ensures Lacks(s, 's', 's')
  {
  }

  lemma RootLacksZA(s: string)
    requires s == "/opt/airflow/logs/weather-dbt/releases/"
    ensures Lacks(s, 'z', 'a')
  {
  }

  lemma RootLacksAR(s: string)
    requires s == "/opt/airflow/logs/weather-dbt/releases/"
    ensures Lacks(s, 'a', 'r')
  {
  }

  lemma KeyLacksKE(s: string)
    requires s == "ASK_SEOUL_DBT_ARTIFACT_ROOT"
    ensures Lacks(s, 'k', 'e')
  {
  }

  lemma KeyLacksCR(s: string)
    requires s == "ASK_SEOUL_DBT_ARTIFACT_ROOT"
    ensures Lacks(s, 'c', 'r')
  {
  }

  lemma KeyLacksSS(s: string)
    requires s == "ASK_SEOUL_DBT_ARTIFACT_ROOT"
    ensures Lacks(s, 's', 's')
  {
  }

  lemma KeyLacksZA(s: string)
    requires s == "ASK_SEOUL_DBT_ARTIFACT_ROOT"
    ensures Lacks(s, 'z', 'a')
  {
  }

  lemma KeyLacksBE(s: string)
    requires s == "ASK_SEOUL_DBT_ARTIFACT_ROOT"
    ensures Lacks(s, 'b', 'e')
  {
  }

  lemma ValueLacks(sha: string, x: char, y: char)
    requires IsSha40(sha) && !(IsHex(x) && IsHex(y)) && x != '/' && Lacks(ARTIFACT_RELEASE_ROOT, x, y)
    ensures Lacks(ARTIFACT_RELEASE_ROOT + sha, x, y)
  {
  }

  lemma ArtifactRootIsClean(sha: string)
    requires IsSha40(sha)
    ensures !EnvironmentMentionsCredential(Environment(sha))
  {
    RootLacksKE(ARTIFACT_RELEASE_ROOT);
    RootLacksCR(ARTIFACT_RELEASE_ROOT);
    RootLacksSS(ARTIFACT_RELEASE_ROOT);
    RootLacksZA(ARTIFACT_RELEASE_ROOT);
    RootLacksAR(ARTIFACT_RELEASE_ROOT);
    KeyLacksKE(ARTIFACT_ROOT_ENV);
    KeyLacksCR(ARTIFACT_ROOT_ENV);
    KeyLacksSS(ARTIFACT_ROOT_ENV);
    KeyLacksZA(ARTIFACT_ROOT_ENV);
    KeyLacksBE(ARTIFACT_ROOT_ENV);
    ValueLacks(sha, 'k', 'e');
    ValueLacks(sha, 'c', 'r');
    ValueLacks(sha, 's', 's');
    ValueLacks(sha, 'z', 'a');
    ValueLacks(sha, 'a', 'r');
    FreeOfCredentials(ARTIFACT_RELEASE_ROOT + sha);
    FreeOfCredentials(ARTIFACT_ROOT_ENV);
  }

  /* ---------- validation of a whole document ---------- */

  /** The services mapping of a document the strict parser lets through and that has nothing else in it. */
  function ServicesOf(content: Content): (services: Option<map<string, Yaml>>)
    ensures services.Some? <==> content.Parsed? && !content.marked && content.root.YMap? && content.root.entries.Keys == {"services"} && content.root.entries["services"].YMap?
    ensures services.Some? ==> content.root == YMap(map["services" := YMap(services.value)])
  {
    if content.Unparsable? || content.marked || !content.root.YMap? || content.root.entries.Keys != {"services"} then None
    else if !content.root.entries["services"].YMap? then None
    else
      assert content.root.entries == map["services" := YMap(content.root.entries["services"].entries)];
      Some(content.root.entries["services"].entries)
  }

  predicate ServiceAllowed(target: Target, service: string) {
    service !in target.forbiddenDataServices && !MentionsCredential(service) && IsServiceName(service)
  }

  /** Every service is allowed and mounts this one pair. */
  ghost predicate SharePair(target: Target, services: map<string, Yaml>, pair: (string, string)) {
    services.Keys != {} && forall s :: s in services ==> ServiceAllowed(target, s) && BodySources(services[s]) == Some(pair)
  }

  ghost predicate AllMatch(services: map<string, Yaml>, kind: Kind) {
    forall s :: s in services ==> BodySources(services[s]).Some? && BodyMatchesKind(services[s], kind)
  }

  /** First pass: the services, visited in any order, with the running expected pair. */
  method SharedPair(target: Target, services: map<string, Yaml>) returns (expected: Option<(string, string)>)
    ensures expected.Some? ==> SharePair(target, services, expected.value)
    ensures forall pair :: SharePair(target, services, pair) ==> expected == Some(pair)
  {
    expected := None;
    var todo := services.Keys;
    while todo != {}
      invariant todo <= services.Keys
      invariant expected.None? <==> todo == services.Keys
      invariant forall s :: s in services.Keys - todo ==> ServiceAllowed(target, s) && BodySources(services[s]) == expected
      decreases |todo|
    {
      var service :| service in todo;
      var pair := BodySources(services[service]);
      if !ServiceAllowed(target, service) || pair.None? || (expected.Some? && expected != pair) {
        if expected.Some? { assert exists s :: s in services && BodySources(services[s]) == expected by { var s :| s in services.Keys - todo; } }
        return None;
      }
      expected := pair;
      todo := todo - {service};
    }
  }

  /** Second pass, once the kind is known. */
  method BodiesMatch(services: map<string, Yaml>, kind: Kind) returns (ok: bool)
    requires forall s :: s in services ==> BodySources(services[s]).Some?
    ensures ok <==> AllMatch(services, kind)
  {
    hide BodySources, BodyMatchesKind;
    var todo := services.Keys;
    while todo != {}
      invariant todo <= services.Keys
      invariant forall s :: s in services.Keys - todo ==> BodyMatchesKind(services[s], kind)
      decreases |todo|
    {
      var service :| service in todo;
      if !BodyMatchesKind(services[service], kind) { return false; }
      todo := todo - {service};
    }
    return true;
  }

  /** Both passes succeed for a kind exactly when the document is that kind's rendering. */
  lemma PassesExactlyRenderings(target: Target, content: Content, services: map<string, Yaml>, kind: Kind)
    requires ServicesOf(content) == Some(services) && services.Keys == target.codeServices
    ensures (Admissible(target, kind) && Denotes(target, kind, content)) <==>
      (SharePair(target, services, Pair(target, kind)) && AllMatch(services, kind) && PairKind(target, Pair(target, kind)) == Some(kind))
  {
    hide Admissible, Denotes, SharePair, AllMatch, PairKind, ServicesOf;
    if Admissible(target, kind) && Denotes(target, kind, content) {
      RenderingPasses(target, content, services, kind);
    }
    if SharePair(target, services, Pair(target, kind)) && AllMatch(services, kind) && PairKind(target, Pair(target, kind)) == Some(kind) {
      PassingIsRendering(target, content, services, kind);
    }
  }

  lemma RenderingPasses(target: Target, content: Content, services: map<string, Yaml>, kind: Kind)
    requires ServicesOf(content) == Some(services) && services.Keys == target.codeServices
    requires Admissible(target, kind) && Denotes(target, kind, content)
    ensures SharePair(target, services, Pair(target, kind)) && AllMatch(services, kind)
    ensures PairKind(target, Pair(target, kind)) == Some(kind)
  {
    assert content.root.entries["services"] == YMap(services);
    PairKindOfPair(target, kind);
    RenderedBodyAccepted(kind, Pair(target, kind));
  }

  lemma PassingIsRendering(target: Target, content: Content, services: map<string, Yaml>, kind: Kind)
    requires ServicesOf(content) == Some(services) && services.Keys == target.codeServices
    requires SharePair(target, services, Pair(target, kind)) && AllMatch(services, kind)
    requires PairKind(target, Pair(target, kind)) == Some(kind)
    ensures Admissible(target, kind) && Denotes(target, kind, content)
  {
    var pair := Pair(target, kind);
    forall s | s in services ensures services[s] == Body(kind, pair) {
      BodyShape(services[s], kind);
    }
    var s :| s in services;
    assert CleanSource(pair.0) && CleanSource(pair.1);
    assert services == map service | service in target.codeServices :: Body(kind, pair);
  }

  /**
   Accepts exactly the documents that say what the renderer says for an admissible target and hold
   no `&` or `*`, whatever order the services are visited in, and says which kind it was.
   */
  method ValidateOverlayContent(target: Target, content: Content, sha256: Digest) returns (r: Option<Artifact>)
    ensures r.Some? ==> r.value.content == content && r.value.sha256 == sha256 == Sha256(content)
    ensures r.Some? ==> Acceptable(target, r.value.kind, content)
    ensures forall kind :: sha256 == Sha256(content) && Acceptable(target, kind, content) ==> r == Some(Artifact(kind, content, sha256))
  {
    if sha256 != Sha256(content) { return None; }
    var found := ServicesOf(content);
    if found.None? || found.value.Keys != target.codeServices { return None; }
    var services := found.value;
    forall kind {
      PassesExactlyRenderings(target, content, services, kind);
    }
    var pair := SharedPair(target, services);
    if pair.None? { return None; }
    var kind := PairKind(target, pair.value);
    if kind.None? { return None; }
    var matches := BodiesMatch(services, kind.value);
    r := if matches then Some(Artifact(kind.value, content, sha256)) else None;
  }

  /**
   A rendered artifact validates exactly when its target is admissible and the directories of its
   kind hold no `&` or `*`, and then validation gives back the artifact itself.
   */
  method RenderThenValidate(target: Target, kind: Kind) returns (artifact: Option<Artifact>, validated: Option<Artifact>)
    requires kind.Release? ==> IsSha40(kind.candidateSha)
    ensures validated.Some? <==> Admissible(target, kind) && !MarksPaths(target, kind)
    ensures validated.Some? ==> validated == artifact
  {
    hide CleanSource, Marks, MarksPaths;
    artifact := RenderArtifact(target, kind);
    validated := None;
    if artifact.Some? {
      validated := ValidateOverlayContent(target, artifact.value.content, artifact.value.sha256);
      RenderedIsAcceptable(target, kind);
    }
  }

  /** What the renderer writes is acceptable for a kind exactly when it is the kind rendered, admissible and free of marks. */
  lemma RenderedIsAcceptable(target: Target, kind: Kind)
    requires target.codeServices != {} ==> forall s :: s in target.codeServices ==> IsServiceName(s)
    requires kind.Release? ==> IsSha40(kind.candidateSha)
    ensures forall k :: Acceptable(target, k, Rendered(target, kind)) <==> k == kind && Admissible(target, kind) && !MarksPaths(target, kind)
  {
    hide Marks, MarksPaths, Payload, IsServiceName, CleanSource;
    if target.codeServices != {} {
      RenderingMarks(target, kind);
      forall k | Payload(target, k) == Payload(target, kind) ensures k == kind {
        SameDocumentSameKind(target, kind, k);
      }
    }
  }

  /** A rendering holds an `&` or a `*` exactly when its configured directories do. */
  lemma RenderingMarks(target: Target, kind: Kind)
    requires target.codeServices != {} && forall s :: s in target.codeServices ==> IsServiceName(s)
    requires kind.Release? ==> IsSha40(kind.candidateSha)
    ensures Marks(Payload(target, kind)) <==> MarksPaths(target, kind)
  {
    var pair := Pair(target, kind);
    BodyMarks(kind, pair);
    PairMarks(target, kind);
    PlainKeys();
    forall s | s in target.codeServices ensures !MarksText(s) { NameIsPlain(s); }
    hide MarksPaths, Body, MarksText, IsServiceName, IsSha40;
    var services := map service | service in target.codeServices :: Body(kind, pair);
    var s :| s in target.codeServices;
    assert services[s] == Body(kind, pair);
    assert Payload(target, kind).entries["services"] == YMap(services);
  }

  lemma NameIsPlain(s: string)
    requires IsServiceName(s)
    ensures !MarksText(s)
  {
  }

  lemma PairMarks(target: Target, kind: Kind)
    requires kind.Release? ==> IsSha40(kind.candidateSha)
    ensures MarksPaths(target, kind) <==> MarksText(Pair(target, kind).0) || MarksText(Pair(target, kind).1)
  {
  }

  lemma BodyMarks(kind: Kind, pair: (string, string))
    requires kind.Release? ==> IsSha40(kind.candidateSha)
    ensures Marks(Body(kind, pair)) <==> MarksText(pair.0) || MarksText(pair.1)
  {
    hide MarksText, Volume, Environment;
    PlainKeys();
    VolumeMarks(pair.0, DAGS_MOUNT, true);
    VolumeMarks(pair.1, DBT_MOUNT, kind.Release?);
    var volumes := YSeq([Volume(pair.0, DAGS_MOUNT, true), Volume(pair.1, DBT_MOUNT, kind.Release?)]);
    assert Marks(volumes) <==> Marks(volumes.items[0]) || Marks(volumes.items[1]);
    assert Body(kind, pair).entries["volumes"] == volumes;
    if kind.Release? { EnvironmentMarks(kind.candidateSha); }
  }

  lemma PlainKeys()
    ensures !MarksText("services") && !MarksText("volumes") && !MarksText("environment")
  {
  }

  lemma PlainVolume()
    ensures !MarksText("type") && !MarksText("bind") && !MarksText("source") && !MarksText("target") && !MarksText("read_only")
    ensures !MarksText(DAGS_MOUNT) && !MarksText(DBT_MOUNT)
  {
  }

  lemma PlainEnvironmentKey()
    ensures !MarksText(ARTIFACT_ROOT_ENV)
  {
  }

  lemma PlainReleaseRoot()
    ensures !MarksText(ARTIFACT_RELEASE_ROOT)
  {
  }

  lemma VolumeMarks(source: string, mount: string, readOnly: bool)
    requires mount in {DAGS_MOUNT, DBT_MOUNT}
    ensures Marks(Volume(source, mount, readOnly)) <==> MarksText(source)
  {
    PlainVolume();
    hide MarksText;
    var entries := Volume(source, mount, readOnly).entries;
    assert entries["type"] == YStr("bind") && entries["source"] == YStr(source) && entries["target"] == YStr(mount);
  }

  lemma EnvironmentMarks(sha: string)
    requires IsSha40(sha)
    ensures !Marks(Environment(sha))
  {
    PlainEnvironmentKey();
    PlainReleaseRoot();
    HexIsPlain(ARTIFACT_RELEASE_ROOT, sha);
    hide MarksText;
  }

  lemma HexIsPlain(root: string, sha: string)
    requires !MarksText(root) && IsSha40(sha)
    ensures !MarksText(root + sha)
  {
  }

  lemma ShortIsNoCredential(s: string)
    requires |s| <= 4
    ensures !MentionsCredential(s)
  {
  }

  /** A target whose baseline can be rendered and is then refused: a directory named with an `&`. */
  lemma MarkedPathIsRefused()
    ensures exists target :: Admissible(target, Baseline) && forall k :: !Acceptable(target, k, Rendered(target, Baseline))
  {
    var target := Target("", "/w", "/r&d", "/dbt", {"dag"}, {}, {}, {}, 60, 5);
    assert target.dagsHostPath[2] == '&';
    ShortPathIsClean(target.dagsHostPath);
    ShortPathIsClean(target.dbtHostPath);
    ShortIsNoCredential("dag");
    hide MentionsCredential, CleanSource;
    assert IsServiceName("dag");
    hide IsServiceName;
    assert Admissible(target, Baseline);
    RenderedIsAcceptable(target, Baseline);
  }

  lemma ShortPathIsClean(path: string)
    requires path in {"/r&d", "/dbt"}
    ensures CleanSource(path)
  {
    ShortIsNoCredential(path);
    hide MentionsCredential;
  }

  /** The read-only flag of the dbt mount and the artifact root tell kinds apart. */
  lemma SameDocumentSameKind(target: Target, k1: Kind, k2: Kind)
    requires target.codeServices != {} && Payload(target, k1) == Payload(target, k2)
    ensures k1 == k2
  {
    var s :| s in target.codeServices;
    var m1 := map service | service in target.codeServices :: Body(k1, Pair(target, k1));
    var m2 := map service | service in target.codeServices :: Body(k2, Pair(target, k2));
    assert Payload(target, k1).entries["services"] == YMap(m1) && Payload(target, k2).entries["services"] == YMap(m2);
    assert m1[s] == m2[s];
    if k1.Release? {
      assert "environment" in Body(k1, Pair(target, k1)).entries;
      assert "environment" in Body(k2, Pair(target, k2)).entries;
      var e1, e2 := Body(k1, Pair(target, k1)).entries["environment"], Body(k2, Pair(target, k2)).entries["environment"];
      assert e1.entries[ARTIFACT_ROOT_ENV] == e2.entries[ARTIFACT_ROOT_ENV];
      assert (ARTIFACT_RELEASE_ROOT + k1.candidateSha)[|ARTIFACT_RELEASE_ROOT|..] == k1.candidateSha;
      assert (ARTIFACT_RELEASE_ROOT + k2.candidateSha)[|ARTIFACT_RELEASE_ROOT|..] == k2.candidateSha;
    } else {
      assert "environment" !in Body(k1, Pair(target, k1)).entries;
    }
  }

  /** Two releases render alike exactly when they are of one commit, and no baseline document is a release. */
  lemma ReleasesDiffer(target: Target, x: string, y: string)
    requires target.codeServices != {}
    ensures Rendered(target, Release(x)) == Rendered(target, Release(y)) <==> x == y
    ensures !Denotes(target, Baseline, Rendered(target, Release(x)))
  {
    hide Payload, Marks;
    if Payload(target, Release(x)) == Payload(target, Release(y)) { SameDocumentSameKind(target, Release(x), Release(y)); }
    if Payload(target, Baseline) == Payload(target, Release(x)) { SameDocumentSameKind(target, Baseline, Release(x)); }
  }

  /** Which DAGs are paused and drained has no part in what is rendered. */
  lemma RenderingIgnoresAllowlists(x: Target, y: Target, kind: Kind)
    requires x.(dagAllowlist := y.dagAllowlist, writerAllowlist := y.writerAllowlist) == y
    ensures Rendered(x, kind) == Rendered(y, kind)
  {
    hide Body, Marks;
    assert x.codeServices == y.codeServices && Pair(x, kind) == Pair(y, kind);
    assert Payload(x, kind) == Payload(y, kind);
  }
}
