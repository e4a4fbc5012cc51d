/**
 The public daily report built against an arbitrary object server, and the contract its reader
 checks. Mirrors tools/weather_daily_quality_cloud.py and _validate_public_report in
 tools/weather_daily_quality_publish.py. Times are integer seconds of the fixed +9 h local clock.

 The server may answer anything. The client logs what it sent, so that the evidence can be stated
 as a function of the replies, and counts requests, downloads and bytes, so that the budgets can be
 stated at all. Everything after the collection is a function of the evidence.
 */
module DailyReport {
  import opened Basics
  import opened Tables
  import IssueWindow

  const HOUR := 3600
  const DAY := 24 * HOUR
  const MAX_OBJECTS := 5000
  const MAX_LIST_PAGES := 12
  const MAX_MANIFESTS := 64
  const MAX_MANIFEST_BYTES := 256 * 1024
  const MAX_TOTAL_BYTES := 4 * 1024 * 1024
  const FRESHNESS_LIMIT := 360 * 60

  type Grid = (int, int)

  /** The codes a reader may see, then those that only ever end one manifest. */
  datatype Code =
    | CredentialsMissing | EvidenceUnavailable | R2Unavailable | ListingBudget | ListingInvalid | ManifestBudget
    | ManifestInvalid | NoCompleteManifests | RawPresent | NoRawObjects | NoReportDayEvidence | SlotsMissing
    | CoverageComplete | NoManifestEvidence | DuplicateReferences | ReferencesUnique | GridEvidenceMissing
    | IssueStale | IssueCurrent
    | RawKeyInvalid | RawEvidenceInvalid | CountsInvalid | TimeInvalid | Unlisted | IssueMismatch | RepeatedKeys

  predicate IsPublic(code: Code) {
    !(code.RawKeyInvalid? || code.RawEvidenceInvalid? || code.CountsInvalid? || code.TimeInvalid? || code.Unlisted?
      || code.IssueMismatch? || code.RepeatedKeys?)
  }

  /* ---------- keys and the server ---------- */

  datatype Key =
    | RawKey(day: int, grid: Grid, collected: Option<int>, issue: Option<int>, tail: string)
    | RunManifest(day: int, run: string)
    | StrayManifest(prefixDay: Option<int>, text: string)
    | OtherKey(prefixDay: Option<int>, text: string)

  /** The load date whose prefix the key starts with. */
  function LoadDay(key: Key): Option<int> {
    match key
    case RawKey(day, _, _, _, _) => Some(day)
    case RunManifest(day, _) => Some(day)
    case StrayManifest(day, _) => day
    case OtherKey(day, _) => day
  }

  predicate NamedManifest(key: Key) { key.RunManifest? || key.StrayManifest? }

  datatype Item = NotAMapping | Item(key: Option<Key>, size: Option<int>)

  /** `contents` is none when it is no list; `next` is none when it is no non-empty text. */
  datatype Page = Page(contents: Option<seq<Item>>, last: bool, next: Option<string>)

  datatype ListReply = ListRaised | Listed(page: Page)

  /** A manifest's fields; none stands for a value of the wrong type. */
  datatype Document = Document(
    run: Option<string>, dataset: bool, loadDate: Option<int>, complete: bool, keys: Option<seq<Key>>,
    actual: Option<int>, declared: Option<int>, completedAt: Option<int>)

  datatype Body = NotJson | NotAnObject | Crash | Manifest(document: Document)

  /** `GetFaulty`: a value, type or missing-member error out of the call or its reply, such as a reply without a body. */
  datatype GetReply = GetRaised | GetFaulty | Got(size: int, body: Body)

  function ItemsOf(reply: ListReply): seq<Item> {
    if reply.Listed? && reply.page.contents.Some? then reply.page.contents.value else []
  }

  /** Answers anything; what it was asked and how much it sent is counted, and what it sent is logged. */
  class Client {
    var listRequests: nat
    var downloads: nat
    var received: nat
    ghost var listed: seq<Item>
    ghost var sent: seq<(Key, GetReply)>

    constructor ()
      ensures Unused()
    {
      listRequests, downloads, received, listed, sent := 0, 0, 0, [], [];
    }

    ghost predicate Unused()
      reads this
    {
      listRequests == 0 && downloads == 0 && received == 0 && listed == [] && sent == []
    }

    method ListObjects(prefixDay: int, maxKeys: nat, token: Option<string>) returns (reply: ListReply)
      modifies this
      ensures listRequests == old(listRequests) + 1
      ensures downloads == old(downloads) && received == old(received) && sent == old(sent)
      ensures listed == old(listed) + ItemsOf(reply)
    {
      listRequests := listRequests + 1;
      reply := *;
      listed := listed + ItemsOf(reply);
    }

    /** A read of at most `limit` bytes. */
    method GetObject(key: Key, limit: nat) returns (reply: GetReply)
      modifies this
      ensures downloads == old(downloads) + 1 && listRequests == old(listRequests) && listed == old(listed)
      ensures sent == old(sent) + [(key, reply)]
      ensures received == old(received) + if reply.Got? then reply.size else 0
      ensures reply.Got? ==> 0 <= reply.size <= limit
    {
      downloads := downloads + 1;
      reply := *;
      if reply.Got? && !(0 <= reply.size <= limit) { reply := GetRaised; }
      if reply.Got? { received := received + reply.size; }
      sent := sent + [(key, reply)];
    }
  }

  /* ---------- listing ---------- */

  predicate Within(days: (int, int), day: int) { day == days.0 || day == days.1 }

  ghost predicate ListedWithin(objects: map<Key, nat>, days: (int, int)) {
    forall key :: key in objects ==> LoadDay(key).Some? && Within(days, LoadDay(key).value)
  }

  ghost function KeysListed(items: seq<Item>): set<Key> {
    set item | item in items && item.Item? && item.key.Some? :: item.key.value
  }

  lemma KeysListedJoin(a: seq<Item>, b: seq<Item>)
    ensures KeysListed(a + b) == KeysListed(a) + KeysListed(b)
  {
  }

  lemma OneKeyListed(item: Item)
    requires item.Item? && item.key.Some?
    ensures KeysListed([item]) == {item.key.value}
  {
  }

  /** `more` is `objects` with these entries added. */
  ghost predicate Added(more: map<Key, nat>, objects: map<Key, nat>, entries: seq<Item>, days: (int, int)) {
    ListedWithin(more, days) && |more| <= |objects| + |entries| && more.Keys == objects.Keys + KeysListed(entries)
  }

  lemma NothingAdded(objects: map<Key, nat>, days: (int, int))
    requires ListedWithin(objects, days)
    ensures Added(objects, objects, [], days)
  {
  }

  lemma OneAdded(more: map<Key, nat>, objects: map<Key, nat>, entries: seq<Item>, item: Item, size: nat, days: (int, int))
    requires Added(more, objects, entries, days) && item.Item? && item.key.Some?
    requires LoadDay(item.key.value).Some? && Within(days, LoadDay(item.key.value).value)
    ensures Added(more[item.key.value := size], objects, entries + [item], days)
  {
    hide KeysListed, ListedWithin, Within, LoadDay;
    OneKeyListed(item);
    KeysListedJoin(entries, [item]);
    PutKey(more, item.key.value, size, days);
  }

  lemma PutKey(m: map<Key, nat>, key: Key, size: nat, days: (int, int))
    requires ListedWithin(m, days) && LoadDay(key).Some? && Within(days, LoadDay(key).value)
    ensures m[key := size].Keys == m.Keys + {key} && |m[key := size]| <= |m| + 1
    ensures ListedWithin(m[key := size], days)
  {
  }

  /** The entries of one page, added to the listing. */
  method AddEntries(entries: seq<Item>, day: int, objects: map<Key, nat>, ghost days: (int, int)) returns (r: Result<map<Key, nat>, Code>)
    requires Within(days, day) && ListedWithin(objects, days)
    ensures r.Ok? ==> Added(r.value, objects, entries, days)
    ensures r.Err? ==> IsPublic(r.error)
  {
    hide Added, Within, KeysListed, ListedWithin;
    var more: map<Key, nat> := objects;
    NothingAdded(objects, days);
    for i := 0 to |entries|
      invariant Added(more, objects, entries[..i], days)
    {
      var item := entries[i];
      assert entries[..i + 1] == entries[..i] + [item];
      if item.NotAMapping? { return Err(R2Unavailable); }
      if item.key.None? || LoadDay(item.key.value) != Some(day) || item.size.None? || item.size.value < 0 {
        return Err(ListingInvalid);
      }
      OneAdded(more, objects, entries[..i], item, item.size.value, days);
      more := more[item.key.value := item.size.value];
    }
    assert entries[..|entries|] == entries;
    return Ok(more);
  }

  /** Lists both load dates within the request and object budgets, whatever the server answers. */
  method ListAll(client: Client, days: (int, int)) returns (r: Result<map<Key, nat>, Code>)
    requires client.Unused()
    modifies client
    ensures client.listRequests <= MAX_LIST_PAGES
    ensures client.downloads == 0 && client.received == 0 && client.sent == []
    ensures r.Ok? ==> ListedWithin(r.value, days) && |r.value| <= MAX_OBJECTS
    ensures r.Ok? ==> r.value.Keys == KeysListed(client.listed)
    ensures r.Err? ==> IsPublic(r.error)
  {
    var objects: map<Key, nat> := map[];
    var consumed, requests := 0, 0;
    for d := 0 to 2
      invariant client.listRequests == requests <= MAX_LIST_PAGES
      invariant client.downloads == 0 && client.received == 0 && client.sent == []
      invariant |objects| <= consumed <= MAX_OBJECTS && ListedWithin(objects, days)
      invariant objects.Keys == KeysListed(client.listed)
    {
      var day := if d == 0 then days.0 else days.1;
      var token: Option<string> := None;
      var tokens: set<string> := {};
      while true
        invariant client.listRequests == requests <= MAX_LIST_PAGES
        invariant client.downloads == 0 && client.received == 0 && client.sent == []
        invariant |objects| <= consumed <= MAX_OBJECTS && ListedWithin(objects, days)
        invariant objects.Keys == KeysListed(client.listed)
        decreases MAX_LIST_PAGES - requests
      {
        if consumed >= MAX_OBJECTS || requests >= MAX_LIST_PAGES { return Err(ListingBudget); }
        var maxKeys := if MAX_OBJECTS - consumed < 1000 then MAX_OBJECTS - consumed else 1000;
        requests := requests + 1;
        ghost var before := client.listed;
        var reply := client.ListObjects(day, maxKeys, token);
        if reply.ListRaised? { return Err(R2Unavailable); }
        if reply.page.contents.None? || |reply.page.contents.value| > maxKeys { return Err(ListingInvalid); }
        var entries := reply.page.contents.value;
        consumed := consumed + |entries|;
        var more := AddEntries(entries, day, objects, days);
        if more.Err? { return Err(more.error); }
        KeysListedJoin(before, entries);
        objects := more.value;
        if reply.page.last { break; }
        token := reply.page.next;
        if token.None? || token.value in tokens { return Err(ListingInvalid); }
        tokens := tokens + {token.value};
      }
    }
    return Ok(objects);
  }

  /* ---------- manifests ---------- */

  datatype Row = Row(key: Key, grid: Grid, issue: int, collected: int)

  function ParseRaw(key: Key, days: (int, int), asOf: int, grids: set<Grid>): Result<Row, Code> {
    if !key.RawKey? || !Within(days, key.day) then Err(RawKeyInvalid)
    else if key.collected.None? || key.issue.None? then Err(RawKeyInvalid)
    else if key.grid !in grids || key.issue.value > key.collected.value || key.collected.value > asOf
      || !IssueWindow.IsIssueTime(key.issue.value) then Err(RawEvidenceInvalid)
    else Ok(Row(key, key.grid, key.issue.value, key.collected.value))
  }

  predicate SafeChar(c: char) { '0' <= c <= '9' || 'A' <= c <= 'Z' || 'a' <= c <= 'z' || c in "._=-" }

  function SafeRun(run: string): string {
    seq(|run|, i requires 0 <= i < |run| => if SafeChar(run[i]) then run[i] else '_')
  }

  /** A row accepted as evidence: a listed raw object of the contract, issued, collected and evaluated in that order. */
  ghost predicate RowOk(row: Row, objects: map<Key, nat>, asOf: int, grids: set<Grid>) {
    && row.key in objects && row.key.RawKey? && row.key.grid == row.grid && row.key.issue == Some(row.issue)
    && row.grid in grids && row.issue <= row.collected <= asOf && IssueWindow.IsIssueTime(row.issue)
  }

  function ParseAll(keys: seq<Key>, objects: map<Key, nat>, days: (int, int), asOf: int, grids: set<Grid>, completed: int): (r: Result<seq<Row>, Code>)
    ensures r.Ok? ==> |r.value| == |keys| && forall i :: 0 <= i < |keys| ==> RowOk(r.value[i], objects, asOf, grids)
    ensures r.Ok? ==> forall i :: 0 <= i < |keys| ==> r.value[i].key == keys[i] && r.value[i].collected <= completed
  {
    if keys == [] then Ok([])
    else if keys[0] !in objects then Err(Unlisted)
    else
      var row := ParseRaw(keys[0], days, asOf, grids);
      if row.Err? then Err(row.error)
      else if row.value.collected > completed then Err(TimeInvalid)
      else
        var rest := ParseAll(keys[1..], objects, days, asOf, grids, completed);
        if rest.Err? then rest else Ok([row.value] + rest.value)
  }

  predicate OneIssue(rows: seq<Row>) { forall i :: 0 <= i < |rows| ==> rows[i].issue == rows[0].issue }

  /** A manifest is evidence for all its keys or for none. */
  function ValidateManifest(doc: Document, key: Key, objects: map<Key, nat>, days: (int, int), asOf: int, grids: set<Grid>)
      : (r: Result<seq<Row>, Code>)
    ensures r.Ok? ==> forall i :: 0 <= i < |r.value| ==> RowOk(r.value[i], objects, asOf, grids)
    ensures r.Ok? ==> doc.keys.Some? && |r.value| == |doc.keys.value| > 0 && Distinct(doc.keys.value) && OneIssue(r.value)
    ensures r.Ok? ==> key.RunManifest? && doc.loadDate == Some(key.day) && doc.complete
  {
    if !key.RunManifest? || doc.run.None? || doc.run.value == "" || SafeRun(doc.run.value) != key.run || !doc.dataset
      || doc.loadDate != Some(key.day) || !doc.complete || doc.keys.None? || doc.keys.value == [] then Err(ManifestInvalid)
    else if !Distinct(doc.keys.value) then Err(RepeatedKeys)
    else if doc.actual != Some(|doc.keys.value|) || doc.declared != Some(|doc.keys.value|) then Err(CountsInvalid)
    else if doc.completedAt.None? || doc.completedAt.value > asOf then Err(TimeInvalid)
    else
      var rows := ParseAll(doc.keys.value, objects, days, asOf, grids, doc.completedAt.value);
      if rows.Ok? && !OneIssue(rows.value) then Err(IssueMismatch) else rows
  }

  datatype Evidence = Evidence(
    reason: Option<Code>, objects: Option<nat>, rawObjects: Option<nat>,
    manifests: nat, accepted: nat, invalid: nat, duplicateReferences: nat, rows: seq<Row>)

  const NO_EVIDENCE := Evidence(None, None, None, 0, 0, 0, 0, [])

  ghost function RawKeys(objects: map<Key, nat>): set<Key> { set key | key in objects && key.RawKey? }

  /** What the collected evidence guarantees, whatever the server did. */
  ghost predicate EvidenceOk(e: Evidence, objects: map<Key, nat>, asOf: int, grids: set<Grid>) {
    && (forall i :: 0 <= i < |e.rows| ==> RowOk(e.rows[i], objects, asOf, grids))
    && (e.reason.Some? ==> IsPublic(e.reason.value))
    && (e.objects.Some? ==> e.objects.value == |objects| && e.rawObjects == Some(|RawKeys(objects)|))
    && (e.objects.None? ==> e.rawObjects.None? && e.reason.Some? && e.rows == [])
    && (e.reason.None? ==> e.invalid == 0 && e.accepted > 0)
    && e.accepted + e.invalid <= e.manifests
  }

  /** The manifests' keys in some order; the order of the source is one of these. */
  method KeysInOrder(keys: set<Key>) returns (listed: seq<Key>)
    ensures |listed| == |keys| && forall key :: key in listed <==> key in keys
  {
    var pending := keys;
    listed := [];
    while pending != {}
      invariant pending <= keys && |listed| + |pending| == |keys|
      invariant forall key :: key in listed <==> key in keys - pending
    {
      var key :| key in pending;
      listed := listed + [key];
      pending := pending - {key};
    }
  }

  function SizeOf(keys: seq<Key>, objects: map<Key, nat>): nat
    requires forall key :: key in keys ==> key in objects
  {
    if keys == [] then 0 else objects[keys[0]] + SizeOf(keys[1..], objects)
  }

  /** One manifest's outcome: its rows, or that it is invalid, or what ends the collection. */
  datatype Outcome = Accepted(rows: seq<Row>) | Invalid | Stopped(code: Code)

  /** What a reply makes of a manifest, within `limit` bytes. */
  function Judge(reply: GetReply, limit: int, key: Key, objects: map<Key, nat>, days: (int, int), asOf: int, grids: set<Grid>): Outcome {
    match reply
    case GetRaised => Stopped(R2Unavailable)
    case GetFaulty => Invalid
    case Got(size, body) =>
      if size > limit then Stopped(ManifestBudget)
      else
        match body
        case Crash => Stopped(R2Unavailable)
        case NotJson => Invalid
        case NotAnObject => Invalid
        case Manifest(document) =>
          var rows := ValidateManifest(document, key, objects, days, asOf, grids);
          if rows.Ok? then Accepted(rows.value) else Invalid
  }

  /** The rows of the manifests sent, those of an invalid one left out entirely. */
  ghost function RowsSent(sent: seq<(Key, GetReply)>, objects: map<Key, nat>, days: (int, int), asOf: int, grids: set<Grid>): seq<Row> {
    if sent == [] then []
    else
      var last, before := sent[|sent| - 1], RowsSent(sent[..|sent| - 1], objects, days, asOf, grids);
      var outcome := Judge(last.1, MAX_MANIFEST_BYTES, last.0, objects, days, asOf, grids);
      if outcome.Accepted? then before + outcome.rows else before
  }

  function Repeats(document: Document): int {
    if document.keys.None? then 0 else |document.keys.value| - |set k | k in document.keys.value|
  }

  /** How many manifests sent were accepted, and how many repeated references they held. */
  ghost function Tally(sent: seq<(Key, GetReply)>, objects: map<Key, nat>, days: (int, int), asOf: int, grids: set<Grid>): (int, int) {
    if sent == [] then (0, 0)
    else
      var (key, reply), before := sent[|sent| - 1], Tally(sent[..|sent| - 1], objects, days, asOf, grids);
      var accepted := Judge(reply, MAX_MANIFEST_BYTES, key, objects, days, asOf, grids).Accepted?;
      (before.0 + (if accepted then 1 else 0),
       before.1 + (if reply.Got? && reply.body.Manifest? then Repeats(reply.body.document) else 0))
  }

  method ReadManifest(client: Client, key: Key, objects: map<Key, nat>, days: (int, int), asOf: int, grids: set<Grid>, remaining: nat)
      returns (outcome: Outcome, size: nat, repeated: nat)
    modifies client
    ensures client.downloads == old(client.downloads) + 1 && client.listRequests == old(client.listRequests)
    ensures client.listed == old(client.listed) && |client.sent| == |old(client.sent)| + 1 && old(client.sent) <= client.sent
    ensures var (asked, reply) := client.sent[|client.sent| - 1];
      && asked == key
      && outcome == Judge(reply, if MAX_MANIFEST_BYTES < remaining then MAX_MANIFEST_BYTES else remaining, key, objects, days, asOf, grids)
      && (!outcome.Stopped? ==> repeated == if reply.Got? && reply.body.Manifest? then Repeats(reply.body.document) else 0)
    ensures client.received <= old(client.received) + remaining + 1
    ensures !outcome.Stopped? ==> size <= remaining && size <= MAX_MANIFEST_BYTES && client.received == old(client.received) + size
    ensures outcome.Accepted? ==> forall i :: 0 <= i < |outcome.rows| ==> RowOk(outcome.rows[i], objects, asOf, grids)
    ensures outcome.Accepted? ==> outcome.rows != [] && repeated == 0
    ensures outcome.Stopped? ==> outcome.code == R2Unavailable || outcome.code == ManifestBudget
  {
    var limit := if MAX_MANIFEST_BYTES < remaining then MAX_MANIFEST_BYTES else remaining;
    var reply := client.GetObject(key, limit + 1);
    size, repeated := 0, 0;
    if reply.GetRaised? { return Stopped(R2Unavailable), 0, 0; }
    if reply.GetFaulty? { return Invalid, 0, 0; }
    if reply.size > limit { return Stopped(ManifestBudget), 0, 0; }
    size := reply.size;
    match reply.body {
      case Crash =>
        var counted: nat := *;
        return Stopped(R2Unavailable), size, counted;
      case NotJson => return Invalid, size, 0;
      case NotAnObject => return Invalid, size, 0;
      case Manifest(document) =>
        if document.keys.Some? {
          UniqueKeys(document.keys.value);
          repeated := Repeats(document);
          if Distinct(document.keys.value) { DistinctSize(document.keys.value); }
        }
        var rows := ValidateManifest(document, key, objects, days, asOf, grids);
        outcome := if rows.Ok? then Accepted(rows.value) else Invalid;
    }
  }

  lemma {:induction false} UniqueKeys(keys: seq<Key>)
    ensures |RowSet(keys)| <= |keys|
  {
    if keys != [] {
      var last, rest := keys[|keys| - 1], keys[..|keys| - 1];
      assert keys == rest + [last];
      UniqueKeys(rest);
      assert RowSet(keys) == RowSet(rest) + {last};
    }
  }

  /** The collection ended on a reply that could not be used. */
  predicate CutShort(e: Evidence) { e.reason == Some(R2Unavailable) || e.reason == Some(ManifestBudget) }

  ghost function Used(sent: seq<(Key, GetReply)>, e: Evidence): seq<(Key, GetReply)> {
    if CutShort(e) && sent != [] then sent[..|sent| - 1] else sent
  }

  ghost predicate Fetched(sent: seq<(Key, GetReply)>, key: Key) { exists i :: 0 <= i < |sent| && sent[i].0 == key }

  /** The evidence so far sums up these replies. */
  ghost predicate Sums(e: Evidence, sent: seq<(Key, GetReply)>, objects: map<Key, nat>, days: (int, int), asOf: int, grids: set<Grid>) {
    e.rows == RowsSent(sent, objects, days, asOf, grids) && (e.accepted, e.duplicateReferences) == Tally(sent, objects, days, asOf, grids)
  }

  lemma SumsStep(
      e: Evidence, before: seq<(Key, GetReply)>, after: seq<(Key, GetReply)>, outcome: Outcome, repeated: nat, remaining: nat,
      objects: map<Key, nat>, days: (int, int), asOf: int, grids: set<Grid>)
    requires Sums(e, before, objects, days, asOf, grids) && before <= after && |after| == |before| + 1 && !outcome.Stopped?
    requires var (key, reply) := after[|before|];
      && outcome == Judge(reply, if MAX_MANIFEST_BYTES < remaining then MAX_MANIFEST_BYTES else remaining, key, objects, days, asOf, grids)
      && repeated == if reply.Got? && reply.body.Manifest? then Repeats(reply.body.document) else 0
    ensures var counted := e.(duplicateReferences := e.duplicateReferences + repeated);
      && (outcome.Accepted? ==>
            Sums(counted.(rows := e.rows + outcome.rows, accepted := e.accepted + 1), after, objects, days, asOf, grids))
      && (outcome.Invalid? ==> Sums(counted.(invalid := e.invalid + 1), after, objects, days, asOf, grids))
  {
    hide Judge, Repeats;
    assert after[..|after| - 1] == before;
    SameJudgement(after[|before|].1, remaining, after[|before|].0, objects, days, asOf, grids);
  }

  /** A manifest that fits what is left also fits the limit of one manifest. */
  lemma SameJudgement(reply: GetReply, remaining: nat, key: Key, objects: map<Key, nat>, days: (int, int), asOf: int, grids: set<Grid>)
    ensures var tight := if MAX_MANIFEST_BYTES < remaining then MAX_MANIFEST_BYTES else remaining;
      var outcome := Judge(reply, tight, key, objects, days, asOf, grids);
      !outcome.Stopped? ==> Judge(reply, MAX_MANIFEST_BYTES, key, objects, days, asOf, grids) == outcome
  {
  }

  lemma NothingSums(
      count: nat, raw: nat, manifests: nat, objects: map<Key, nat>, days: (int, int), asOf: int, grids: set<Grid>)
    ensures Sums(NO_EVIDENCE.(objects := Some(count), rawObjects := Some(raw), manifests := manifests), [], objects, days, asOf, grids)
  {
  }

  lemma SumsIgnoresInvalid(e: Evidence, sent: seq<(Key, GetReply)>, objects: map<Key, nat>, days: (int, int), asOf: int, grids: set<Grid>)
    requires Sums(e, sent, objects, days, asOf, grids)
    ensures Sums(e.(invalid := e.invalid + 1), sent, objects, days, asOf, grids)
  {
  }

  lemma SumsRows(e: Evidence, sent: seq<(Key, GetReply)>, objects: map<Key, nat>, days: (int, int), asOf: int, grids: set<Grid>)
    requires Sums(e, sent, objects, days, asOf, grids)
    ensures e.rows == RowsSent(sent, objects, days, asOf, grids)
    ensures (e.accepted, e.duplicateReferences) == Tally(sent, objects, days, asOf, grids)
  {
  }

  lemma StillFetched(before: seq<(Key, GetReply)>, after: seq<(Key, GetReply)>, last: Key)
    requires before <= after && |after| == |before| + 1 && after[|before|].0 == last
    ensures Fetched(after, last)
    ensures forall key :: Fetched(before, key) ==> Fetched(after, key)
  {
  }

  method ReadManifests(client: Client, manifests: seq<Key>, objects: map<Key, nat>, days: (int, int), asOf: int, grids: set<Grid>)
      returns (e: Evidence)
    requires |manifests| <= MAX_MANIFESTS && client.downloads == 0 && client.received == 0 && client.sent == []
    modifies client
    ensures client.listRequests == old(client.listRequests) && client.listed == old(client.listed)
    ensures e.rows == RowsSent(Used(client.sent, e), objects, days, asOf, grids)
    ensures !CutShort(e) ==> forall key :: key in manifests && key.RunManifest? ==> Fetched(client.sent, key)
    ensures !CutShort(e) ==> (e.accepted, e.duplicateReferences) == Tally(client.sent, objects, days, asOf, grids)
    ensures client.downloads <= |manifests| && client.received <= MAX_TOTAL_BYTES + 1
    ensures EvidenceOk(e, objects, asOf, grids) && e.objects.Some? && e.manifests == |manifests|
  {
    hide RowOk, ValidateManifest, Repeats, RawKeys, Judge, Fetched, RowsSent, Tally, Sums;
    NothingSums(|objects|, CountRaw(objects), |manifests|, objects, days, asOf, grids);
    e := NO_EVIDENCE.(objects := Some(|objects|), rawObjects := Some(CountRaw(objects)), manifests := |manifests|);
    var bytesRead := 0;
    for i := 0 to |manifests|
      invariant client.listRequests == old(client.listRequests) && client.listed == old(client.listed) && client.downloads <= i
      invariant Sums(e, client.sent, objects, days, asOf, grids)
      invariant forall j :: 0 <= j < i && manifests[j].RunManifest? ==> Fetched(client.sent, manifests[j])
      invariant bytesRead == client.received <= MAX_TOTAL_BYTES
      invariant e.reason.None? && e.objects == Some(|objects|) && e.rawObjects == Some(|RawKeys(objects)|)
      invariant e.manifests == |manifests| && e.accepted + e.invalid == i
      invariant forall j :: 0 <= j < |e.rows| ==> RowOk(e.rows[j], objects, asOf, grids)
    {
      if !manifests[i].RunManifest? {
        SumsIgnoresInvalid(e, client.sent, objects, days, asOf, grids);
        e := e.(invalid := e.invalid + 1);
        continue;
      }
      ghost var before, known := client.sent, e;
      var outcome, size, repeated := ReadManifest(client, manifests[i], objects, days, asOf, grids, MAX_TOTAL_BYTES - bytesRead);
      e := e.(duplicateReferences := e.duplicateReferences + repeated);
      assert client.sent[..|client.sent| - 1] == before && client.sent[|before|].0 == manifests[i];
      StillFetched(before, client.sent, manifests[i]);
      if outcome.Stopped? {
        SumsRows(known, before, objects, days, asOf, grids);
        return e.(reason := Some(outcome.code));
      }
      SumsStep(known, before, client.sent, outcome, repeated, MAX_TOTAL_BYTES - bytesRead, objects, days, asOf, grids);
      match outcome {
        case Invalid => e := e.(invalid := e.invalid + 1);
        case Accepted(rows) => e := e.(rows := e.rows + rows, accepted := e.accepted + 1);
      }
      bytesRead := bytesRead + size;
    }
    SumsRows(e, client.sent, objects, days, asOf, grids);
    if e.invalid > 0 {
      e := e.(reason := Some(ManifestInvalid));
    } else if e.accepted == 0 {
      e := e.(reason := Some(NoCompleteManifests));
    }
  }

  function CountRaw(objects: map<Key, nat>): (n: nat)
    ensures n == |RawKeys(objects)|
  {
    var raw := set key | key in objects && key.RawKey?;
    assert raw == RawKeys(objects);
    |raw|
  }

  /**
   The evidence says what the server sent: its objects are those listed, its rows those of the
   accepted manifests, and unless a reply cut it short every run manifest was fetched and counted.
   */
  ghost predicate Faithful(
      e: Evidence, objects: map<Key, nat>, listed: seq<Item>, sent: seq<(Key, GetReply)>, days: (int, int), asOf: int, grids: set<Grid>)
  {
    && EvidenceOk(e, objects, asOf, grids)
    && (e.objects.Some? ==> objects.Keys == KeysListed(listed))
    && e.rows == RowsSent(Used(sent, e), objects, days, asOf, grids)
    && (!CutShort(e) && e.objects.Some? ==>
          && (forall key :: key in objects && key.RunManifest? ==> Fetched(sent, key))
          && (e.accepted, e.duplicateReferences) == Tally(sent, objects, days, asOf, grids))
  }

  /** Everything that can be known about two load dates, within the budgets. */
  method Collect(client: Client, days: (int, int), asOf: int, grids: set<Grid>) returns (e: Evidence, ghost objects: map<Key, nat>)
    requires client.Unused()
    modifies client
    ensures client.listRequests <= MAX_LIST_PAGES && client.downloads <= MAX_MANIFESTS && client.received <= MAX_TOTAL_BYTES + 1
    ensures |objects| <= MAX_OBJECTS && ListedWithin(objects, days)
    ensures Faithful(e, objects, client.listed, client.sent, days, asOf, grids)
  {
    var listing := ListAll(client, days);
    if listing.Err? { return NO_EVIDENCE.(reason := Some(listing.error)), map[]; }
    objects := listing.value;
    var found := listing.value;
    var named := set key | key in found && NamedManifest(key);
    var manifests := KeysInOrder(named);
    if |manifests| > MAX_MANIFESTS || SizeOf(manifests, found) > MAX_TOTAL_BYTES
      || exists key :: key in manifests && found[key] > MAX_MANIFEST_BYTES
    {
      e := NO_EVIDENCE.(
        reason := Some(ManifestBudget), objects := Some(|found|), rawObjects := Some(CountRaw(found)), manifests := |manifests|);
      return e, found;
    }
    e := ReadManifests(client, manifests, found, days, asOf, grids);
  }

  /* ---------- the report ---------- */

  datatype Status = Pass | Warn | Fail | Unmeasured

  datatype Check = Check(status: Status, reason: Code)

  datatype Report = Report(
    day: int, evaluated: int, status: Status,
    gridCount: int, cycleCount: int, freshnessSeconds: int, windowStart: int, windowEnd: int,
    collection: Check, rawObjects: Option<int>,
    missing: Check, expectedSlots: int, observedSlots: int, missingSlots: Option<int>, populationVerified: bool,
    duplicates: Check, duplicateReferences: Option<int>,
    freshness: Check, measuredGrids: int, staleGrids: int, missingGrids: int, latestIssue: Option<int>, latestCollected: Option<int>,
    listedObjects: Option<int>, manifests: int, accepted: int, invalid: int, verifiedRaw: int, unverifiedRaw: Option<int>)

  predicate NonNegative(value: Option<int>) { value.Some? ==> value.value >= 0 }

  /** The reader's contract for the report on `day`. */
  predicate ValidPublicReport(r: Report, day: int) {
    && r.day == day && r.evaluated / DAY == day + 1 && r.windowStart == day && r.windowEnd == day + 1
    && r.gridCount == 80 && r.cycleCount == 8 && r.freshnessSeconds == FRESHNESS_LIMIT
    && IsPublic(r.collection.reason) && IsPublic(r.missing.reason) && IsPublic(r.duplicates.reason) && IsPublic(r.freshness.reason)
    && NonNegative(r.rawObjects) && r.expectedSlots >= 0 && r.observedSlots >= 0 && NonNegative(r.missingSlots)
    && !r.populationVerified && NonNegative(r.duplicateReferences)
    && r.measuredGrids >= 0 && r.staleGrids >= 0 && r.missingGrids >= 0
    && NonNegative(r.listedObjects) && r.manifests >= 0 && r.accepted >= 0 && r.invalid >= 0
    && r.verifiedRaw >= 0 && NonNegative(r.unverifiedRaw)
  }

  /** The eight contract cycles of a day. */
  function Cycles(day: int): set<int> { IssueWindow.Recent(day * DAY + 23 * HOUR, 8) }

  function Slot(row: Row): (Grid, int) { (row.grid, row.issue) }

  function ContractSlots(grids: set<Grid>, day: int): set<(Grid, int)> { set g, t | g in grids && t in Cycles(day) :: (g, t) }

  /** The slots of the report day some accepted row fills. */
  function ObservedSlots(rows: seq<Row>, day: int): set<(Grid, int)> {
    set row | row in rows && row.issue / DAY == day :: Slot(row)
  }

  lemma CycleAt(start: int, t: int, k: int)
    requires t == start + 2 * HOUR + k * (3 * HOUR) && start <= t < start + DAY
    ensures 0 <= k < 8 && IssueWindow.Before(start + 23 * HOUR, t, 7 - k)
  {
  }

  lemma IssueOfDayIsCycle(t: int, day: int)
    requires IssueWindow.IsIssueTime(t) && t / DAY == day
    ensures t in Cycles(day)
  {
    var q := IssueWindow.IssueQuotient(t);
    InCycles(t, day, q);
  }

  lemma InCycles(t: int, day: int, q: int)
    requires t == 3 * HOUR * q + 2 * HOUR && day * DAY <= t < day * DAY + DAY
    ensures t in Cycles(day)
  {
    CycleAt(day * DAY, t, q - 8 * day);
    assert IssueWindow.Before(day * DAY + 23 * HOUR, t, 7 - (q - 8 * day));
  }

  lemma {:induction false} ProductSize(grids: set<Grid>, day: int)
    ensures |ContractSlots(grids, day)| == 8 * |grids|
  {
    if grids != {} {
      var g :| g in grids;
      ProductSize(grids - {g}, day);
      var pair := (t: int) => (g, t);
      ImageSize(Cycles(day), pair);
      var own := ImageOf(Cycles(day), pair);
      assert ContractSlots(grids, day) == ContractSlots(grids - {g}, day) + own;
      assert ContractSlots(grids - {g}, day) !! own;
    }
  }

  /** Observed slots are contract slots, so none can be missing a negative number of times. */
  lemma ObservedWithinContract(rows: seq<Row>, objects: map<Key, nat>, day: int, asOf: int, grids: set<Grid>)
    requires forall i :: 0 <= i < |rows| ==> RowOk(rows[i], objects, asOf, grids)
    ensures ObservedSlots(rows, day) <= ContractSlots(grids, day)
    ensures |ObservedSlots(rows, day)| <= 8 * |grids|
    ensures |ObservedSlots(rows, day)| == 8 * |grids| <==> ObservedSlots(rows, day) == ContractSlots(grids, day)
  {
    hide Cycles, IssueWindow.IsIssueTime;
    var observed, contract := ObservedSlots(rows, day), ContractSlots(grids, day);
    forall slot | slot in observed ensures slot in contract {
      var row :| row in rows && row.issue / DAY == day && Slot(row) == slot;
      IssueOfDayIsCycle(row.issue, day);
    }
    ProductSize(grids, day);
    SubsetSize(observed, contract);
    if observed != contract {
      var slot :| slot in contract && slot !in observed;
      SubsetSize(observed + {slot}, contract);
    }
  }

  /** `latest` holds, for each grid with evidence, its newest issue. */
  ghost predicate Newest(rows: seq<Row>, latest: map<Grid, int>) {
    && (forall g :: g in latest <==> exists row :: row in rows && row.grid == g)
    && (forall row :: row in rows ==> row.grid in latest && row.issue <= latest[row.grid])
    && (forall g :: g in latest ==> exists row :: row in rows && row.grid == g && row.issue == latest[g])
  }

  method NewestIssues(rows: seq<Row>) returns (latest: map<Grid, int>)
    ensures Newest(rows, latest)
  {
    latest := map[];
    for i := 0 to |rows|
      invariant Newest(rows[..i], latest)
    {
      var row := rows[i];
      assert rows[..i + 1] == rows[..i] + [row];
      var known := if row.grid in latest then latest[row.grid] else row.issue;
      latest := latest[row.grid := if row.issue > known then row.issue else known];
    }
    assert rows[..|rows|] == rows;
  }

  /** The evidence on a grid is within six hours of the evaluation. */
  ghost predicate FreshGrid(rows: seq<Row>, g: Grid, asOf: int) {
    exists row :: row in rows && row.grid == g && asOf - row.issue <= FRESHNESS_LIMIT
  }

  /** There is evidence on the grid, and all of it is older. */
  ghost predicate StaleGrid(rows: seq<Row>, g: Grid, asOf: int) {
    (exists row :: row in rows && row.grid == g) && forall row :: row in rows && row.grid == g ==> asOf - row.issue > FRESHNESS_LIMIT
  }

  function Overall(checks: seq<Check>): Status
    requires checks != []
  {
    if exists c :: c in checks && c.status == Fail then Fail
    else if exists c :: c in checks && c.status == Unmeasured then Unmeasured
    else if exists c :: c in checks && c.status == Warn then Warn
    else Pass
  }

  function Checks(r: Report): seq<Check> { [r.collection, r.missing, r.duplicates, r.freshness] }

  /** The whole passes when every check does and fails when one does. */
  ghost predicate Worst(status: Status, checks: seq<Check>) {
    && (status == Fail <==> exists c :: c in checks && c.status == Fail)
    && (status == Pass <==> forall c :: c in checks ==> c.status == Pass)
  }

  lemma OverallIsWorst(checks: seq<Check>)
    requires checks != []
    ensures Worst(Overall(checks), checks)
  {
  }

  function ReasonOr(reason: Option<Code>, otherwise: Code): Code { if reason.Some? then reason.value else otherwise }

  ghost predicate MissingMeans(check: Check, expected: int, observed: int, gaps: Option<int>, e: Evidence, day: int, grids: set<Grid>) {
    && expected == |ContractSlots(grids, day)| && observed == |ObservedSlots(e.rows, day)|
    && (check.status == Pass <==> e.reason.None? && grids != {} && ObservedSlots(e.rows, day) == ContractSlots(grids, day))
    && (gaps.Some? ==> gaps.value == |ContractSlots(grids, day) - ObservedSlots(e.rows, day)|)
    && (gaps.Some? <==> e.reason.None? && ObservedSlots(e.rows, day) != {})
  }

  ghost predicate FreshnessMeans(check: Check, e: Evidence, asOf: int, grids: set<Grid>) {
    && (check.status == Fail <==> exists g :: StaleGrid(e.rows, g, asOf))
    && (check.status == Pass <==> e.reason.None? && forall g :: g in grids ==> FreshGrid(e.rows, g, asOf))
  }

  ghost function StaleGrids(rows: seq<Row>, asOf: int, grids: set<Grid>): set<Grid> { set g | g in grids && StaleGrid(rows, g, asOf) }

  ghost function UnseenGrids(rows: seq<Row>, grids: set<Grid>): set<Grid> {
    set g | g in grids && forall row :: row in rows ==> row.grid != g
  }

  function RowIssue(row: Row): int { row.issue }

  function RowCollected(row: Row): int { row.collected }

  /** The largest value over the rows, or none when there are none. */
  ghost predicate LatestOf(latest: Option<int>, rows: seq<Row>, value: Row -> int) {
    && (latest.None? <==> rows == [])
    && (latest.Some? ==> (exists row :: row in rows && value(row) == latest.value) && forall row :: row in rows ==> value(row) <= latest.value)
  }

  /** What a reader may conclude from the four checks and the counts beside them. */
  ghost predicate Means(r: Report, e: Evidence, day: int, asOf: int, grids: set<Grid>) {
    && MissingMeans(r.missing, r.expectedSlots, r.observedSlots, r.missingSlots, e, day, grids)
    && FreshnessMeans(r.freshness, e, asOf, grids)
    && (r.collection.status == Pass <==> e.rawObjects.Some? && e.rawObjects.value > 0)
    && (r.duplicates.status == Fail <==> e.duplicateReferences > 0)
    && Worst(r.status, Checks(r))
    && (r.unverifiedRaw.Some? <==> e.rawObjects.Some?)
    && (r.unverifiedRaw.Some? ==> r.verifiedRaw + r.unverifiedRaw.value == e.rawObjects.value)
    && r.verifiedRaw == |set row | row in e.rows :: row.key|
    && r.staleGrids == |StaleGrids(e.rows, asOf, grids)| && r.missingGrids == |UnseenGrids(e.rows, grids)|
    && r.measuredGrids + r.missingGrids == |grids|
    && LatestOf(r.latestIssue, e.rows, RowIssue) && LatestOf(r.latestCollected, e.rows, RowCollected)
    && r.rawObjects == e.rawObjects && r.listedObjects == e.objects
    && r.manifests == e.manifests && r.accepted == e.accepted && r.invalid == e.invalid
    && (r.duplicateReferences.Some? ==> r.duplicateReferences.value == e.duplicateReferences)
  }

  lemma NewestDecides(rows: seq<Row>, latest: map<Grid, int>, g: Grid, asOf: int)
    requires Newest(rows, latest)
    ensures StaleGrid(rows, g, asOf) <==> g in latest && asOf - latest[g] > FRESHNESS_LIMIT
    ensures FreshGrid(rows, g, asOf) <==> g in latest && asOf - latest[g] <= FRESHNESS_LIMIT
  {
  }

  lemma MeasuredWithin(rows: seq<Row>, latest: map<Grid, int>, objects: map<Key, nat>, asOf: int, grids: set<Grid>)
    requires Newest(rows, latest) && forall i :: 0 <= i < |rows| ==> RowOk(rows[i], objects, asOf, grids)
    ensures latest.Keys <= grids && |latest.Keys| + |grids - latest.Keys| == |grids|
  {
  }

  /** The stale grids, the unmeasured ones, and the verdict on them. */
  method CheckFreshness(e: Evidence, asOf: int, grids: set<Grid>, ghost objects: map<Key, nat>)
      returns (check: Check, measured: nat, stale: nat, absent: nat)
    requires EvidenceOk(e, objects, asOf, grids)
    ensures IsPublic(check.reason)
    ensures FreshnessMeans(check, e, asOf, grids)
    ensures stale == |StaleGrids(e.rows, asOf, grids)| && absent == |UnseenGrids(e.rows, grids)|
    ensures measured + absent == |grids| && stale <= measured
  {
    hide FreshnessMeans, Newest, RowOk, IsPublic;
    var latest := NewestIssues(e.rows);
    MeasuredWithin(e.rows, latest, objects, asOf, grids);
    var missing := grids - latest.Keys;
    var outdated := set g | g in latest && asOf - latest[g] > FRESHNESS_LIMIT;
    SubsetSize(outdated, latest.Keys);
    measured, stale, absent := |latest.Keys|, |outdated|, |missing|;
    check := Freshness(e.reason, stale, absent);
    PublicReason(e.reason, stale, absent);
    FreshnessFollows(e, latest, outdated, missing, asOf, grids);
    GridsAreNamed(e.rows, latest, outdated, missing, asOf, grids);
  }

  lemma GridsAreNamed(rows: seq<Row>, latest: map<Grid, int>, outdated: set<Grid>, missing: set<Grid>, asOf: int, grids: set<Grid>)
    requires Newest(rows, latest) && latest.Keys <= grids && missing == grids - latest.Keys
    requires forall g :: g in outdated <==> g in latest && asOf - latest[g] > FRESHNESS_LIMIT
    ensures outdated == StaleGrids(rows, asOf, grids) && missing == UnseenGrids(rows, grids)
  {
  }

  lemma FreshnessFollows(e: Evidence, latest: map<Grid, int>, outdated: set<Grid>, missing: set<Grid>, asOf: int, grids: set<Grid>)
    requires Newest(e.rows, latest) && latest.Keys <= grids && missing == grids - latest.Keys
    requires forall g :: g in outdated <==> g in latest && asOf - latest[g] > FRESHNESS_LIMIT
    ensures FreshnessMeans(Freshness(e.reason, |outdated|, |missing|), e, asOf, grids)
  {
    hide StaleGrid, FreshGrid, Newest;
    forall g
      ensures StaleGrid(e.rows, g, asOf) <==> g in outdated
      ensures FreshGrid(e.rows, g, asOf) <==> g in latest && g !in outdated
    {
      NewestDecides(e.rows, latest, g, asOf);
    }
    if outdated != {} {
      var g :| g in outdated;
      assert StaleGrid(e.rows, g, asOf);
    } else if missing != {} {
      var g :| g in missing;
      assert !FreshGrid(e.rows, g, asOf);
    }
  }

  function Freshness(reason: Option<Code>, stale: nat, absent: nat): Check {
    if stale > 0 then Check(Fail, IssueStale)
    else if reason.None? && absent == 0 then Check(Pass, IssueCurrent)
    else Check(Unmeasured, ReasonOr(reason, GridEvidenceMissing))
  }

  lemma PublicReason(reason: Option<Code>, stale: nat, absent: nat)
    requires reason.Some? ==> IsPublic(reason.value)
    ensures IsPublic(Freshness(reason, stale, absent).reason)
  {
  }

  method Latest(rows: seq<Row>, value: Row -> int) returns (latest: Option<int>)
    ensures LatestOf(latest, rows, value)
  {
    latest := None;
    for i := 0 to |rows|
      invariant LatestOf(latest, rows[..i], value)
    {
      assert rows[..i + 1] == rows[..i] + [rows[i]];
      if latest.None? || value(rows[i]) > latest.value { latest := Some(value(rows[i])); }
    }
    assert rows[..|rows|] == rows;
  }

  datatype Refusal = WrongDay | BadGrids

  /** Verified keys are listed raw keys, so subtracting them from the raw count leaves nothing negative. */
  lemma VerifiedAreRaw(rows: seq<Row>, objects: map<Key, nat>, asOf: int, grids: set<Grid>, verified: set<Key>)
    requires forall i :: 0 <= i < |rows| ==> RowOk(rows[i], objects, asOf, grids)
    requires verified == set row | row in rows :: row.key
    ensures |verified| <= |RawKeys(objects)|
  {
    forall key | key in verified ensures key in RawKeys(objects) {
      var row :| row in rows && row.key == key;
    }
    SubsetSize(verified, RawKeys(objects));
  }

  /** The report on `day`, whatever the server answers; `available` is whether there were credentials. */
  method BuildReport(client: Client, day: int, asOf: int, grids: set<Grid>, available: bool)
      returns (r: Result<Report, Refusal>, ghost e: Evidence, ghost objects: map<Key, nat>)
    requires client.Unused()
    modifies client
    ensures client.listRequests <= MAX_LIST_PAGES && client.downloads <= MAX_MANIFESTS && client.received <= MAX_TOTAL_BYTES + 1
    ensures |objects| <= MAX_OBJECTS
    ensures r.Ok? <==> asOf / DAY == day + 1 && grids != {} && forall g :: g in grids ==> g.0 >= 1 && g.1 >= 1
    ensures r.Ok? ==> (ValidPublicReport(r.value, day) <==> |grids| == 80)
    ensures r.Ok? ==> Means(r.value, e, day, asOf, grids)
    ensures r.Ok? && available ==> Faithful(e, objects, client.listed, client.sent, (day, day + 1), asOf, grids)
    ensures r.Ok? && !available ==> e == NO_EVIDENCE.(reason := Some(CredentialsMissing))
  {
    hide RowOk, IsPublic, StaleGrid, FreshGrid, ObservedSlots, ContractSlots, EvidenceOk, Means, ValidPublicReport;
    e, objects := NO_EVIDENCE, map[];
    if asOf / DAY - day != 1 { return Err(WrongDay), e, objects; }
    if grids == {} || exists g :: g in grids && !(g.0 >= 1 && g.1 >= 1) { return Err(BadGrids), e, objects; }
    var evidence := NO_EVIDENCE.(reason := Some(CredentialsMissing));
    NoCredentials(asOf, grids);
    if available { evidence, objects := Collect(client, (day, day + 1), asOf, grids); }
    e := evidence;
    var report := Assemble(evidence, day, asOf, grids, objects);
    return Ok(report), e, objects;
  }

  lemma NoCredentials(asOf: int, grids: set<Grid>)
    ensures EvidenceOk(NO_EVIDENCE.(reason := Some(CredentialsMissing)), map[], asOf, grids)
  {
  }

  lemma NamedArePublic()
    ensures IsPublic(NoReportDayEvidence) && IsPublic(SlotsMissing) && IsPublic(CoverageComplete)
  {
  }

  method CheckMissing(e: Evidence, day: int, asOf: int, grids: set<Grid>, ghost objects: map<Key, nat>)
      returns (check: Check, expected: int, count: int, gaps: Option<int>)
    requires EvidenceOk(e, objects, asOf, grids)
    ensures IsPublic(check.reason)
    ensures MissingMeans(check, expected, count, gaps, e, day, grids)
    ensures 0 <= count <= expected && NonNegative(gaps)
  {
    hide RowOk, ObservedSlots, ContractSlots, IsPublic;
    expected := |grids| * 8;
    var observed := ObservedSlots(e.rows, day);
    count := |observed|;
    ObservedWithinContract(e.rows, objects, day, asOf, grids);
    ProductSize(grids, day);
    assert IsPublic(ReasonOr(e.reason, NoReportDayEvidence)) && IsPublic(SlotsMissing) && IsPublic(CoverageComplete) by {
      NamedArePublic();
    }
    check, gaps := Check(Unmeasured, ReasonOr(e.reason, NoReportDayEvidence)), None;
    if e.reason.None? && count > 0 {
      var missing := expected - count;
      check := if missing > 0 then Check(Fail, SlotsMissing) else Check(Pass, CoverageComplete);
      gaps := Some(missing);
    }
  }

  method CheckCollection(e: Evidence) returns (check: Check)
    requires (e.reason.Some? ==> IsPublic(e.reason.value)) && (e.objects.Some? ==> e.rawObjects.Some?)
    ensures IsPublic(check.reason)
    ensures check.status == Pass <==> e.objects.Some? && e.rawObjects.value > 0
  {
    check := if e.objects.None? then Check(Unmeasured, ReasonOr(e.reason, EvidenceUnavailable))
      else if e.rawObjects.value > 0 then Check(Pass, RawPresent) else Check(Fail, NoRawObjects);
  }

  method CheckDuplicates(e: Evidence) returns (check: Check, count: Option<int>)
    requires e.reason.Some? ==> IsPublic(e.reason.value)
    ensures IsPublic(check.reason) && (count.Some? ==> count.value == e.duplicateReferences)
    ensures check.status == Fail <==> e.duplicateReferences > 0
  {
    var measured := if e.manifests > 0 && e.reason.None? then Some(e.duplicateReferences) else None;
    check, count := Check(Unmeasured, ReasonOr(e.reason, NoManifestEvidence)), measured;
    if e.duplicateReferences > 0 || measured.Some? {
      check := if e.duplicateReferences > 0 then Check(Fail, DuplicateReferences) else Check(Pass, ReferencesUnique);
      count := Some(e.duplicateReferences);
    }
  }

  method CountVerified(e: Evidence, asOf: int, grids: set<Grid>, ghost objects: map<Key, nat>)
      returns (verified: int, unverified: Option<int>)
    requires EvidenceOk(e, objects, asOf, grids)
    ensures verified == |set row | row in e.rows :: row.key| && NonNegative(unverified)
    ensures unverified.Some? <==> e.rawObjects.Some?
    ensures unverified.Some? ==> verified + unverified.value == e.rawObjects.value
  {
    hide RowOk;
    var keys := set row | row in e.rows :: row.key;
    VerifiedAreRaw(e.rows, objects, asOf, grids, keys);
    verified := |keys|;
    if e.rawObjects.None? { return verified, None; }
    var rest := e.rawObjects.value - verified;
    unverified := Some(if rest > 0 then rest else 0);
  }

  method Assemble(e: Evidence, day: int, asOf: int, grids: set<Grid>, ghost objects: map<Key, nat>) returns (r: Report)
    requires EvidenceOk(e, objects, asOf, grids) && asOf / DAY == day + 1 && grids != {}
    ensures ValidPublicReport(r, day) <==> |grids| == 80
    ensures Means(r, e, day, asOf, grids)
  {
    hide RowOk, MissingMeans, FreshnessMeans, Overall, Worst, IsPublic;
    var collection := CheckCollection(e);
    var missing, expected, observed, gaps := CheckMissing(e, day, asOf, grids, objects);
    var duplicates, repeated := CheckDuplicates(e);
    var freshness, measured, stale, absent := CheckFreshness(e, asOf, grids, objects);
    var newestIssue := Latest(e.rows, RowIssue);
    var newestCollected := Latest(e.rows, RowCollected);
    var verified, unverified := CountVerified(e, asOf, grids, objects);
    var status := Overall([collection, missing, duplicates, freshness]);
    OverallIsWorst([collection, missing, duplicates, freshness]);
    r := Report(
      day, asOf, status, |grids|, 8, FRESHNESS_LIMIT, day, day + 1,
      collection, e.rawObjects, missing, expected, observed, gaps, false,
      duplicates, repeated, freshness, measured, stale, absent, newestIssue, newestCollected,
      e.objects, e.manifests, e.accepted, e.invalid, verified, unverified);
  }
}
