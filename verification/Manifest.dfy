/**
 When a stored manifest counts as a complete collection cycle.
 Mirrors validate_page and ScopedStore.validate_manifest in tools/weather_collect_hosted.py.
 Payload text, hashing and the provider's response schema are structured values.
 */
module Manifest {
  import opened Basics
  import opened Tables

  const PAGE_SIZE := 1000
  const MAX_TOTAL := 2000

  type Grid = (int, int)

  datatype Refusal = ManifestInvalid | SourcePage | StorageScope | RawTimestamp | SizeLimit | Missing | StorageFailure

  /* ---------- one page ---------- */

  /** The parts of a provider response the page rules look at. */
  datatype Response = Response(pageNo: int, numOfRows: int, total: int, rows: nat)

  function PageCount(total: int): int { (total + PAGE_SIZE - 1) / PAGE_SIZE }

  function RowsOn(total: int, page: int): int {
    if total - (page - 1) * PAGE_SIZE < PAGE_SIZE then total - (page - 1) * PAGE_SIZE else PAGE_SIZE
  }

  /** A page of the given grid, as the manifest check adds it up. */
  datatype Entry = Entry(grid: Grid, page: int, total: int, rows: nat)

  ghost predicate PageRule(e: Entry) {
    1 <= e.total <= MAX_TOTAL && 1 <= e.page <= PageCount(e.total) && e.rows == RowsOn(e.total, e.page)
  }

  function ValidatePage(response: Response, grid: Grid, page: int): (r: Result<Entry, Refusal>)
    ensures r.Ok? ==> PageRule(r.value) && r.value == Entry(grid, page, response.total, response.rows)
    ensures r.Ok? <==>
      PageRule(Entry(grid, page, response.total, response.rows)) && response.pageNo == page && response.numOfRows == PAGE_SIZE
    ensures r.Err? ==> r.error == SourcePage
  {
    if !(1 <= response.total <= MAX_TOTAL) then Err(SourcePage)
    else if response.pageNo != page then Err(SourcePage)
    else if response.numOfRows != PAGE_SIZE then Err(SourcePage)
    else if !(1 <= page <= PageCount(response.total)) then Err(SourcePage)
    else if response.rows != RowsOn(response.total, page) then Err(SourcePage)
    else Ok(Entry(grid, page, response.total, response.rows))
  }

  function RowsUpTo(total: int, pages: nat): int {
    if pages == 0 then 0 else RowsUpTo(total, pages - 1) + RowsOn(total, pages)
  }

  lemma {:induction false} FullPages(total: int, pages: nat)
    requires pages * PAGE_SIZE <= total
    ensures RowsUpTo(total, pages) == pages * PAGE_SIZE
  {
    if pages > 0 {
      FullPages(total, pages - 1);
    }
  }

  /** The rows the page rule demands of all pages add up to the declared total, for any total. */
  lemma PagesSumToTotal(total: int)
    requires total >= 1
    ensures RowsUpTo(total, PageCount(total)) == total
  {
    FullPages(total, PageCount(total) - 1);
  }

  /* ---------- a complete cycle ---------- */

  function PageIdentity(e: Entry): (Grid, int) { (e.grid, e.page) }

  /** The totals of the grids, and exactly the pages each total calls for, each once. */
  ghost predicate CompleteWith(entries: seq<Entry>, grids: set<Grid>, totals: map<Grid, int>) {
    && totals.Keys == grids && Unrepeated(entries, PageIdentity)
    && (forall g :: g in grids ==> 1 <= totals[g] <= MAX_TOTAL)
    && (forall e :: e in entries ==> e.grid in grids && e.total == totals[e.grid] && PageRule(e))
    && (forall g, p :: g in grids && 1 <= p <= PageCount(totals[g]) ==> HasPage(entries, g, p))
  }

  ghost predicate HasPage(entries: seq<Entry>, g: Grid, p: int) { exists e :: e in entries && e.grid == g && e.page == p }

  ghost predicate Complete(entries: seq<Entry>, grids: set<Grid>) {
    exists totals :: CompleteWith(entries, grids, totals)
  }

  function OnPage(p: int): Grid -> (Grid, int) { g => (g, p) }

  ghost function PagesOf(entries: seq<Entry>): set<(Grid, int)> { ImageOf(RowSet(entries), PageIdentity) }

  /** A complete cycle has one or two pages for every grid, so 80 grids mean 80 to 160 keys. */
  lemma CompleteSize(entries: seq<Entry>, grids: set<Grid>)
    requires Complete(entries, grids)
    ensures |grids| <= |entries| <= 2 * |grids|
  {
    hide Complete, CompleteWith, PagesOf;
    var totals := TotalsOf(entries, grids);
    PagesAreEntries(entries);
    var first, second := ImageOf(grids, OnPage(1)), ImageOf(grids, OnPage(2));
    ImageSize(grids, OnPage(1));
    ImageSize(grids, OnPage(2));
    FirstPagesAreThere(entries, grids, totals);
    OnlyTwoPages(entries, grids, totals);
    SubsetSize(first, PagesOf(entries));
    SubsetSize(PagesOf(entries), first + second);
  }

  lemma TotalsOf(entries: seq<Entry>, grids: set<Grid>) returns (totals: map<Grid, int>)
    requires Complete(entries, grids)
    ensures CompleteWith(entries, grids, totals) && Unrepeated(entries, PageIdentity)
  {
    totals :| CompleteWith(entries, grids, totals);
  }

  lemma PagesAreEntries(entries: seq<Entry>)
    requires Unrepeated(entries, PageIdentity)
    ensures |PagesOf(entries)| == |entries|
  {
    assert Distinct(entries);
    DistinctSize(entries);
    ImageSize(RowSet(entries), PageIdentity);
  }

  lemma FirstPagesAreThere(entries: seq<Entry>, grids: set<Grid>, totals: map<Grid, int>)
    requires CompleteWith(entries, grids, totals)
    ensures ImageOf(grids, OnPage(1)) <= PagesOf(entries)
  {
    forall g | g in grids ensures OnPage(1)(g) in PagesOf(entries) {
      assert HasPage(entries, g, 1);
      var e :| e in entries && e.grid == g && e.page == 1;
      assert PageIdentity(e) == (g, 1) && e in RowSet(entries);
    }
  }

  lemma OnlyTwoPages(entries: seq<Entry>, grids: set<Grid>, totals: map<Grid, int>)
    requires CompleteWith(entries, grids, totals)
    ensures PagesOf(entries) <= ImageOf(grids, OnPage(1)) + ImageOf(grids, OnPage(2))
  {
  }

  /* ---------- the manifest check ---------- */

  const RAW_MAX_BYTES := 512 * 1024

  datatype StoredKey =
    | RawKey(loadDate: int, runIssue: int, grid: Grid, collectedAt: Option<int>, baseIssue: int, tag: string)
    | ControlKey(text: string)
    | ForeignKey(text: string)

  datatype Content = NoPageNumber | Unreadable(pageNo: int) | Readable(response: Response)

  datatype Raw = Raw(size: nat, digest: string, recorded: Option<string>, content: Content)

  datatype Read = Found(raw: Raw) | NotFound | Failed

  /** `fieldsMatch` is the exact field set, run, dataset, load date, status and field types. */
  datatype Document = Document(fieldsMatch: bool, keys: seq<StoredKey>, expected: int, actual: int, completedAt: Option<int>)

  datatype Scope = Scope(issue: int, now: int, loadDates: set<int>, grids: set<Grid>, day: int)

  /** The checks on one key and the object behind it, in the source's order. */
  function VerifyObject(s: Scope, completed: int, key: StoredKey, read: Read): (r: Result<Entry, Refusal>)
    ensures r.Ok? ==> PageRule(r.value) && key.RawKey? && r.value.grid == key.grid && key.grid in s.grids
  {
    if key.ControlKey? then Err(ManifestInvalid)
    else if key.ForeignKey? || key.loadDate !in s.loadDates || key.runIssue != s.issue || key.grid !in s.grids || key.baseIssue != s.issue
    then Err(StorageScope)
    else if key.collectedAt.None? || !(s.issue <= key.collectedAt.value <= s.now) then Err(RawTimestamp)
    else if key.loadDate != s.day || key.collectedAt.value > completed then Err(ManifestInvalid)
    else
      match read
      case NotFound => Err(Missing)
      case Failed => Err(StorageFailure)
      case Found(raw) =>
        if raw.size > RAW_MAX_BYTES then Err(SizeLimit)
        else if raw.recorded != Some(raw.digest) then Err(ManifestInvalid)
        else
          match raw.content
          case NoPageNumber => Err(ManifestInvalid)
          case Unreadable(_) => Err(SourcePage)
          case Readable(response) => ValidatePage(response, key.grid, response.pageNo)
  }

  ghost predicate AllVerified(s: Scope, completed: int, keys: seq<StoredKey>, read: StoredKey -> Read) {
    forall i :: 0 <= i < |keys| ==> VerifyObject(s, completed, keys[i], read(keys[i])).Ok?
  }

  ghost function Entries(s: Scope, completed: int, keys: seq<StoredKey>, read: StoredKey -> Read): (r: seq<Entry>)
    requires AllVerified(s, completed, keys, read)
    ensures |r| == |keys| && forall e :: e in r ==> PageRule(e) && e.grid in s.grids
  {
    seq(|keys|, i requires 0 <= i < |keys| => VerifyObject(s, completed, keys[i], read(keys[i])).value)
  }

  /** What acceptance means. Neither the 80..160 bound nor the row sums are mentioned: they follow. */
  ghost predicate Accepts(s: Scope, doc: Document, read: StoredKey -> Read) {
    && doc.fieldsMatch && doc.expected == doc.actual == |doc.keys| && Distinct(doc.keys)
    && doc.completedAt.Some? && s.issue <= doc.completedAt.value <= s.now
    && AllVerified(s, doc.completedAt.value, doc.keys, read)
    && Complete(Entries(s, doc.completedAt.value, doc.keys, read), s.grids)
  }

  type Group = map<int, (int, nat)>

  /** The grouped pages say what the entries say. */
  ghost predicate Grouped(entries: seq<Entry>, pages: map<Grid, Group>) {
    && Unrepeated(entries, PageIdentity)
    && (forall e :: e in entries ==> e.grid in pages && e.page in pages[e.grid] && pages[e.grid][e.page] == (e.total, e.rows))
    && (forall g :: g in pages ==> pages[g].Keys != {})
    && (forall g, p :: g in pages && p in pages[g] ==> HasPage(entries, g, p))
  }

  ghost predicate GroupComplete(group: Group, total: int) {
    && (forall p :: p in group <==> 1 <= p <= PageCount(total))
    && (forall p :: p in group ==> group[p].0 == total)
  }

  ghost predicate GroupRule(group: Group) {
    group.Keys != {} && forall p :: p in group ==> PageRule(Entry((0, 0), p, group[p].0, group[p].1))
  }

  function PageRange(pages: nat): (r: set<int>)
    ensures forall p :: p in r <==> 1 <= p <= pages
  {
    if pages == 0 then {} else PageRange(pages - 1) + {pages}
  }

  lemma SomeMember<T>(s: set<T>) returns (x: T)
    requires s != {}
    ensures x in s
  {
    x :| x in s;
  }

  /** The source's next(iter(s)). */
  method NextOf<T(==)>(s: set<T>) returns (x: T)
    requires s != {}
    ensures x in s
  {
    x :| x in s;
  }

  method CheckGroup(group: Group) returns (ok: bool)
    requires GroupRule(group)
    ensures ok <==> exists total :: GroupComplete(group, total)
  {
    ghost var page := SomeMember(group.Keys);
    var totals := set p | p in group :: group[p].0;
    assert group[page].0 in totals;
    var total := NextOf(totals);
    forall other | GroupComplete(group, other) ensures totals == {other} && group.Keys == PageRange(PageCount(other)) {
    }
    if |totals| != 1 { return false; }
    forall p | p in group ensures group[p].0 == total { AtMostOneMember(totals, group[p].0, total); }
    var range := PageRange(PageCount(total));
    if group.Keys != range { return false; }
    assert GroupComplete(group, total);
    var sum := 0;
    for p := 1 to PageCount(total) + 1
      invariant sum == RowsUpTo(total, p - 1)
    {
      assert p in range;
      sum := sum + group[p].1;
    }
    PagesSumToTotal(total);
    return sum == total;
  }

  lemma GroupsFollowRules(entries: seq<Entry>, pages: map<Grid, Group>, g: Grid)
    requires Grouped(entries, pages) && g in pages && forall e :: e in entries ==> PageRule(e)
    ensures GroupRule(pages[g])
  {
  }

  lemma CompleteGroups(entries: seq<Entry>, pages: map<Grid, Group>, grids: set<Grid>)
    requires Grouped(entries, pages) && forall e :: e in entries ==> PageRule(e)
    requires pages.Keys == grids && forall g :: g in pages ==> exists total :: GroupComplete(pages[g], total)
    ensures Complete(entries, grids)
  {
    var totals := map g | g in grids :: var total :| GroupComplete(pages[g], total); total;
    forall g | g in grids ensures 1 <= totals[g] <= MAX_TOTAL {
      GroupsFollowRules(entries, pages, g);
      var p := SomeMember(pages[g].Keys);
      assert pages[g][p].0 == totals[g];
    }
    assert CompleteWith(entries, grids, totals);
  }

  lemma GroupsOfComplete(entries: seq<Entry>, pages: map<Grid, Group>, grids: set<Grid>)
    requires Grouped(entries, pages) && Complete(entries, grids)
    ensures pages.Keys == grids && forall g :: g in pages ==> exists total :: GroupComplete(pages[g], total)
  {
    var totals := TotalsOf(entries, grids);
    forall g | g in grids ensures g in pages {
      assert HasPage(entries, g, 1);
    }
    forall g | g in pages ensures g in grids {
      var p := SomeMember(pages[g].Keys);
      assert HasPage(entries, g, p);
    }
    forall g | g in pages ensures GroupComplete(pages[g], totals[g]) {
      forall p ensures p in pages[g] <==> 1 <= p <= PageCount(totals[g]) {
        if 1 <= p <= PageCount(totals[g]) {
          assert HasPage(entries, g, p);
        }
        if p in pages[g] {
          assert HasPage(entries, g, p);
        }
      }
      forall p | p in pages[g] ensures pages[g][p].0 == totals[g] {
        assert HasPage(entries, g, p);
      }
    }
  }

  method CheckGroups(ghost entries: seq<Entry>, pages: map<Grid, Group>, grids: set<Grid>) returns (ok: bool)
    requires Grouped(entries, pages) && forall e :: e in entries ==> PageRule(e)
    ensures ok <==> Complete(entries, grids)
  {
    hide Grouped, GroupComplete, GroupRule, Complete;
    ghost var complete := Complete(entries, grids);
    if pages.Keys != grids {
      if complete {
        GroupsOfComplete(entries, pages, grids);
      }
      return false;
    }
    var pending := pages.Keys;
    while pending != {}
      invariant pending <= pages.Keys
      invariant forall g :: g in pages.Keys - pending ==> exists total :: GroupComplete(pages[g], total)
    {
      var g :| g in pending;
      GroupsFollowRules(entries, pages, g);
      var whole := CheckGroup(pages[g]);
      if !whole {
        if complete {
          GroupsOfComplete(entries, pages, grids);
        }
        return false;
      }
      pending := pending - {g};
    }
    CompleteGroups(entries, pages, grids);
    return true;
  }

  method ValidateManifest(s: Scope, doc: Document, read: StoredKey -> Read) returns (r: Result<Document, Refusal>)
    requires |s.grids| == 80
    ensures r.Ok? <==> Accepts(s, doc, read)
    ensures r.Ok? ==> r.value == doc
  {
    hide Complete, VerifyObject, Grouped;
    if !doc.fieldsMatch || !(80 <= doc.actual <= 160) || doc.expected != doc.actual || doc.actual != |doc.keys| {
      if Accepts(s, doc, read) {
        CompleteSize(Entries(s, doc.completedAt.value, doc.keys, read), s.grids);
      }
      return Err(ManifestInvalid);
    }
    var duplicate := RejectDuplicateIdentities(doc.keys, KeyItself);
    if duplicate || doc.completedAt.None? || !(s.issue <= doc.completedAt.value <= s.now) { return Err(ManifestInvalid); }
    var completed := doc.completedAt.value;
    var pages: map<Grid, Group> := map[];
    NothingGrouped();
    ghost var entries: seq<Entry> := [];
    for i := 0 to |doc.keys|
      invariant AllVerified(s, completed, doc.keys[..i], read) && entries == Entries(s, completed, doc.keys[..i], read)
      invariant Grouped(entries, pages)
    {
      assert doc.keys[..i + 1] == doc.keys[..i] + [doc.keys[i]];
      var verified := VerifyObject(s, completed, doc.keys[i], read(doc.keys[i]));
      if verified.Err? { return Err(verified.error); }
      var e := verified.value;
      assert Entries(s, completed, doc.keys[..i + 1], read) == entries + [e];
      if e.grid in pages && e.page in pages[e.grid] {
        if Accepts(s, doc, read) {
          RepeatedPage(s, completed, doc.keys, read, i, entries, pages);
        }
        return Err(ManifestInvalid);
      }
      AddPage(entries, pages, e);
      pages := pages[e.grid := (if e.grid in pages then pages[e.grid] else map[])[e.page := (e.total, e.rows)]];
      entries := entries + [e];
    }
    assert doc.keys[..|doc.keys|] == doc.keys;
    var ok := CheckGroups(entries, pages, s.grids);
    if !ok { return Err(ManifestInvalid); }
    return Ok(doc);
  }

  function KeyItself(key: StoredKey): StoredKey { key }

  lemma NothingGrouped()
    ensures Grouped([], map[])
  {
  }

  lemma AddPage(entries: seq<Entry>, pages: map<Grid, Group>, e: Entry)
    requires Grouped(entries, pages) && !(e.grid in pages && e.page in pages[e.grid])
    ensures Grouped(entries + [e], pages[e.grid := (if e.grid in pages then pages[e.grid] else map[])[e.page := (e.total, e.rows)]])
  {
  }

  /** A page met twice rules out completeness. */
  lemma RepeatedPage(
      s: Scope, completed: int, keys: seq<StoredKey>, read: StoredKey -> Read, i: nat, entries: seq<Entry>, pages: map<Grid, Group>)
    requires i < |keys| && AllVerified(s, completed, keys, read)
    requires AllVerified(s, completed, keys[..i], read) && entries == Entries(s, completed, keys[..i], read)
    requires Grouped(entries, pages)
    requires var e := VerifyObject(s, completed, keys[i], read(keys[i])).value; e.grid in pages && e.page in pages[e.grid]
    ensures !Complete(Entries(s, completed, keys, read), s.grids)
  {
    hide VerifyObject;
    var all, e := Entries(s, completed, keys, read), VerifyObject(s, completed, keys[i], read(keys[i])).value;
    assert HasPage(entries, e.grid, e.page);
    var other :| other in entries && other.grid == e.grid && other.page == e.page;
    var j :| 0 <= j < |entries| && entries[j] == other;
    assert all[j] == other && all[i] == e && PageIdentity(all[j]) == PageIdentity(all[i]);
  }
}
