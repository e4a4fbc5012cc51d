/**
 Which forecast stands for each vintage label, and which observation is the truth.
 Mirrors weather_quality/selection.py; times are integer seconds.

 What the two methods promise is stated through relations that do not mention the order of the
 input, so that independence of that order, and blindness to the future, are lemmas about them.
 */
module Selection {
  import opened Basics
  import opened Order
  import opened Tables

  const HOUR := 3600
  const LOOKBACK := 3 * HOUR
  const PROVISIONAL_MAX_AGE := 6 * HOUR

  datatype Kind = Continuous | Probability | Binary | Categorical

  datatype Scalar = Measure(value: real) | Happened(flag: bool) | Category(name: string)

  datatype Series = Series(product: string, grid: string, variable: string, validAt: int)

  datatype ForecastVintage = ForecastVintage(
    series: Series, kind: Kind, value: Scalar, unit: string, issuedAt: int, sourceId: string, sourceRevision: string)

  datatype Vintage = D3 | D2 | D1

  const VINTAGES := [D3, D2, D1]

  datatype SelectedVintage = SelectedVintage(vintage: Vintage, forecast: ForecastVintage)

  datatype VintageGap = VintageGap(vintage: Vintage, series: Series)

  datatype VintageSelection = VintageSelection(selected: seq<SelectedVintage>, gaps: seq<VintageGap>)

  datatype Error = DuplicateForecast | MixedSeries | DuplicateTruth | ConflictingTruth

  function ForecastIdentity(f: ForecastVintage): (Series, int) { (f.series, f.issuedAt) }

  function SeriesOf(f: ForecastVintage): Series { f.series }

  function Contract(f: ForecastVintage): (Kind, string) { (f.kind, f.unit) }

  function GroupOf(f: ForecastVintage): (Series, (Kind, string)) { (f.series, Contract(f)) }

  function Days(vintage: Vintage): int {
    match vintage
    case D3 => 3
    case D2 => 2
    case D1 => 1
  }

  function Cutoff(validAt: int, vintage: Vintage): int { validAt - 24 * Days(vintage) * HOUR }

  predicate Eligible(f: ForecastVintage, vintage: Vintage) {
    Cutoff(f.series.validAt, vintage) - LOOKBACK <= f.issuedAt <= Cutoff(f.series.validAt, vintage)
  }

  function Rank(f: ForecastVintage): seq<Part> { [Number(f.issuedAt), Word(f.sourceRevision), Word(f.sourceId)] }

  /** The labels' names sort like the number of days in them. */
  function EntryKey(series: Series, vintage: Vintage): seq<Part> {
    [Word(series.product), Word(series.variable), Number(series.validAt), Number(Days(vintage)), Word(series.grid)]
  }

  function SelectedKey(s: SelectedVintage): seq<Part> { EntryKey(s.forecast.series, s.vintage) }

  function GapKey(g: VintageGap): seq<Part> { EntryKey(g.series, g.vintage) }

  /* ---------- what is selected ---------- */

  /** Two rows of one series differ in value kind or unit. */
  ghost predicate Mixed(rows: seq<ForecastVintage>) {
    exists f, g :: f in rows && g in rows && f.series == g.series && Contract(f) != Contract(g)
  }

  /** `f` is the latest row of its series eligible for the label. */
  ghost predicate Wins(rows: seq<ForecastVintage>, vintage: Vintage, f: ForecastVintage) {
    && f in rows && Eligible(f, vintage)
    && forall g :: g in rows && g.series == f.series && Eligible(g, vintage) ==> KeyLe(Rank(g), Rank(f))
  }

  ghost predicate Missing(rows: seq<ForecastVintage>, vintage: Vintage, series: Series) {
    && series in KeysOf(rows, SeriesOf)
    && forall f :: f in rows && f.series == series ==> !Eligible(f, vintage)
  }

  ghost predicate IsSelection(rows: seq<ForecastVintage>, v: VintageSelection) {
    && (forall s :: s in v.selected <==> Wins(rows, s.vintage, s.forecast))
    && (forall g :: g in v.gaps <==> Missing(rows, g.vintage, g.series))
    && Distinct(v.selected) && Sorted(v.selected, SelectedKey)
    && Distinct(v.gaps) && Sorted(v.gaps, GapKey)
  }

  /** Everything select_forecast_vintages promises. */
  ghost predicate Selects(rows: seq<ForecastVintage>, r: Result<VintageSelection, Error>) {
    && (!Unrepeated(rows, ForecastIdentity) <==> r == Err(DuplicateForecast))
    && (Unrepeated(rows, ForecastIdentity) && Mixed(rows) <==> r == Err(MixedSeries))
    && (r.Err? ==> r.error in {DuplicateForecast, MixedSeries})
    && (r.Ok? ==> IsSelection(rows, r.value))
  }

  /** Within a series identities fix the issue time, so revision and source never break a tie. */
  lemma WinnerIsUnique(rows: seq<ForecastVintage>, vintage: Vintage, f: ForecastVintage, g: ForecastVintage)
    requires Unrepeated(rows, ForecastIdentity)
    requires f in rows && g in rows && f.series == g.series
    requires KeyLe(Rank(f), Rank(g)) && KeyLe(Rank(g), Rank(f))
    ensures f == g
  {
  }

  /** The result is the same for every order of the input, errors included. */
  lemma OrderDoesNotMatter(
      a: seq<ForecastVintage>, b: seq<ForecastVintage>,
      ra: Result<VintageSelection, Error>, rb: Result<VintageSelection, Error>)
    requires multiset(a) == multiset(b) && Selects(a, ra) && Selects(b, rb)
    ensures ra == rb
  {
    hide KeyLe, Eligible, Rank, Sorted;
    SameMembers(a, b);
    if Unrepeated(a, ForecastIdentity) {
      UnrepeatedPermutes(a, b, ForecastIdentity);
    }
    if Unrepeated(b, ForecastIdentity) {
      UnrepeatedPermutes(b, a, ForecastIdentity);
    }
    if ra.Ok? && rb.Ok? {
      SelectionIsUnique(a, b, ra.value, rb.value);
    }
  }

  lemma SelectionIsUnique(a: seq<ForecastVintage>, b: seq<ForecastVintage>, va: VintageSelection, vb: VintageSelection)
    requires Unrepeated(a, ForecastIdentity) && forall x :: x in a <==> x in b
    requires IsSelection(a, va) && IsSelection(b, vb)
    ensures va == vb
  {
    hide KeyLe, Eligible, Rank, Sorted;
    forall x, y | x in va.selected && y in va.selected && SelectedKey(x) == SelectedKey(y) ensures x == y {
      WinnerIsUnique(a, x.vintage, x.forecast, y.forecast);
    }
    forall x, y | x in va.gaps && y in va.gaps && GapKey(x) == GapKey(y) ensures x == y {
    }
    assert KeysOf(a, SeriesOf) == KeysOf(b, SeriesOf);
    SameRowsSameTable(va.selected, vb.selected, SelectedKey);
    SameRowsSameTable(va.gaps, vb.gaps, GapKey);
  }

  /** Rows with identities of their own and the value kind and unit of the series they join. */
  ghost predicate Joins(rows: seq<ForecastVintage>, extra: seq<ForecastVintage>) {
    && Unrepeated(extra, ForecastIdentity)
    && (forall e, f :: e in extra && f in rows ==> ForecastIdentity(e) != ForecastIdentity(f))
    && (forall e, f :: e in extra && (f in rows || f in extra) && e.series == f.series ==> Contract(e) == Contract(f))
  }

  /** Rows that join an accepted input and are issued after a label's cutoff are accepted and change nothing that label selects or misses. */
  lemma BlindToLaterIssues(
      rows: seq<ForecastVintage>, extra: seq<ForecastVintage>, vintage: Vintage,
      before: VintageSelection, r: Result<VintageSelection, Error>)
    requires Selects(rows, Ok(before)) && Joins(rows, extra) && Selects(rows + extra, r)
    requires forall e :: e in extra ==> e.issuedAt > Cutoff(e.series.validAt, vintage)
    ensures r.Ok?
    ensures forall f :: SelectedVintage(vintage, f) in before.selected <==> SelectedVintage(vintage, f) in r.value.selected
    ensures forall series :: series in KeysOf(rows, SeriesOf) ==>
      (VintageGap(vintage, series) in before.gaps <==> VintageGap(vintage, series) in r.value.gaps)
  {
    JoinedAreAccepted(rows, extra);
    hide Sorted, KeyLe, Rank, Mixed, Unrepeated;
  }

  lemma JoinedAreAccepted(rows: seq<ForecastVintage>, extra: seq<ForecastVintage>)
    requires Unrepeated(rows, ForecastIdentity) && !Mixed(rows) && Joins(rows, extra)
    ensures Unrepeated(rows + extra, ForecastIdentity) && !Mixed(rows + extra)
  {
    var all := rows + extra;
    forall i, j | 0 <= i < j < |all| ensures ForecastIdentity(all[i]) != ForecastIdentity(all[j]) {
      if i < |rows| <= j {
        assert all[i] in rows && all[j] in extra;
      }
    }
  }

  /** No forecast serves two labels: the windows are a day apart and three hours wide. */
  lemma OneLabelEach(rows: seq<ForecastVintage>, v: VintageSelection, s: SelectedVintage, t: SelectedVintage)
    requires IsSelection(rows, v) && s in v.selected && t in v.selected && s.forecast == t.forecast
    ensures s == t
  {
  }

  lemma SomeRowWins(rows: seq<ForecastVintage>, vintage: Vintage, f: ForecastVintage) returns (winner: ForecastVintage)
    requires f in rows && Eligible(f, vintage)
    ensures winner.series == f.series && Wins(rows, vintage, winner)
  {
    hide KeyLe, Rank, Eligible;
    var rivals := set g | g in rows && g.series == f.series && Eligible(g, vintage);
    assert f in rivals;
    winner := GreatestOf(rivals, Rank);
  }

  ghost predicate Chosen(v: VintageSelection, series: Series, vintage: Vintage, f: ForecastVintage) {
    f.series == series && SelectedVintage(vintage, f) in v.selected
  }

  /** Every series has, for each label, exactly one entry: one selected forecast or one gap. */
  lemma OneEntryPerLabel(rows: seq<ForecastVintage>, v: VintageSelection, series: Series, vintage: Vintage)
    requires Selects(rows, Ok(v)) && series in KeysOf(rows, SeriesOf)
    ensures VintageGap(vintage, series) in v.gaps <==> !exists f :: Chosen(v, series, vintage, f)
    ensures forall f, g :: Chosen(v, series, vintage, f) && Chosen(v, series, vintage, g) ==> f == g
  {
    hide KeyLe, Rank, Sorted, Eligible;
    if VintageGap(vintage, series) !in v.gaps {
      assert !Missing(rows, vintage, series);
      var f :| f in rows && f.series == series && Eligible(f, vintage);
      var winner := SomeRowWins(rows, vintage, f);
      assert SelectedVintage(vintage, winner) in v.selected;
      assert Chosen(v, series, vintage, winner);
    } else {
      assert Missing(rows, vintage, series);
    }
    forall f, g | Chosen(v, series, vintage, f) && Chosen(v, series, vintage, g) ensures f == g {
      assert Wins(rows, vintage, f) && Wins(rows, vintage, g);
      WinnerIsUnique(rows, vintage, f, g);
    }
  }

  /* ---------- the selection itself ---------- */

  function SelectedFrom(candidates: seq<ForecastVintage>, vintage: Vintage): (r: seq<ForecastVintage>)
    ensures forall f :: f in r <==> f in candidates && Eligible(f, vintage)
  {
    if candidates == [] then []
    else (if Eligible(candidates[0], vintage) then [candidates[0]] else []) + SelectedFrom(candidates[1..], vintage)
  }

  /** The group's contribution: its winner for each label, or a gap. */
  ghost predicate GroupEntries(candidates: seq<ForecastVintage>, series: Series, vintages: set<Vintage>, v: VintageSelection) {
    && (forall s :: s in v.selected <==> s.vintage in vintages && Wins(candidates, s.vintage, s.forecast))
    && (forall g :: g in v.gaps <==> g.vintage in vintages && g.series == series && Missing(candidates, g.vintage, series))
    && Distinct(v.selected) && Distinct(v.gaps)
    && |v.selected| + |v.gaps| == |vintages|
  }

  method SelectGroup(candidates: seq<ForecastVintage>, series: Series) returns (v: VintageSelection)
    requires candidates != [] && Unrepeated(candidates, ForecastIdentity)
    requires forall f :: f in candidates ==> f.series == series
    ensures GroupEntries(candidates, series, {D3, D2, D1}, v)
  {
    hide KeyLe, Rank, Eligible;
    v := VintageSelection([], []);
    ghost var done: set<Vintage> := {};
    for i := 0 to |VINTAGES|
      invariant done == set j | 0 <= j < i :: VINTAGES[j]
      invariant GroupEntries(candidates, series, done, v)
    {
      var vintage := VINTAGES[i];
      assert vintage !in done;
      v := SelectVintage(candidates, series, vintage, done, v);
      done := done + {vintage};
    }
    assert VINTAGES[0] in done && VINTAGES[1] in done && VINTAGES[2] in done;
    assert done == {D3, D2, D1};
  }

  lemma SeriesIsKey(rows: seq<ForecastVintage>, f: ForecastVintage)
    requires f in rows
    ensures f.series in KeysOf(rows, SeriesOf)
  {
  }

  method SelectVintage(candidates: seq<ForecastVintage>, series: Series, vintage: Vintage, ghost done: set<Vintage>, v: VintageSelection)
      returns (w: VintageSelection)
    requires candidates != [] && Unrepeated(candidates, ForecastIdentity)
    requires forall f :: f in candidates ==> f.series == series
    requires vintage !in done && GroupEntries(candidates, series, done, v)
    ensures GroupEntries(candidates, series, done + {vintage}, w)
  {
    hide KeyLe, Rank, Eligible;
    SeriesIsKey(candidates, candidates[0]);
    var eligible := SelectedFrom(candidates, vintage);
    if eligible == [] {
      assert forall f :: f in candidates && Eligible(f, vintage) ==> f in eligible;
      return v.(gaps := v.gaps + [VintageGap(vintage, series)]);
    }
    var winner := MaxBy(eligible, Rank);
    assert Wins(candidates, vintage, winner);
    forall f | Wins(candidates, vintage, f) ensures f == winner { WinnerIsUnique(candidates, vintage, f, winner); }
    return v.(selected := v.selected + [SelectedVintage(vintage, winner)]);
  }

  ghost predicate DoneWith(rows: seq<ForecastVintage>, done: set<Series>, v: VintageSelection) {
    && (forall s :: s in v.selected <==> s.forecast.series in done && Wins(rows, s.vintage, s.forecast))
    && (forall g :: g in v.gaps <==> g.series in done && Missing(rows, g.vintage, g.series))
    && Distinct(v.selected) && Distinct(v.gaps)
    && |v.selected| + |v.gaps| == 3 * |done|
  }

  lemma EveryVintage(vintage: Vintage)
    ensures vintage in {D3, D2, D1}
  {
  }

  /** The rows of one group decide its entries, once no series is mixed. */
  lemma GroupDecides(rows: seq<ForecastVintage>, group: (Series, (Kind, string)), v: VintageSelection)
    requires !Mixed(rows) && group in KeysOf(rows, GroupOf)
    requires GroupEntries(Having(rows, GroupOf, group), group.0, {D3, D2, D1}, v)
    ensures DoneWith(rows, {group.0}, v)
  {
    hide KeyLe, Rank, Eligible;
    var candidates := Having(rows, GroupOf, group);
    forall f ensures f in candidates <==> f in rows && f.series == group.0 {
      if f in rows && f.series == group.0 {
        var g :| g in rows && GroupOf(g) == group;
        assert Contract(f) == Contract(g);
        HavingHas(rows, GroupOf, f);
      }
    }
    forall s ensures s in v.selected <==> s.forecast.series in {group.0} && Wins(rows, s.vintage, s.forecast) {
      EveryVintage(s.vintage);
    }
    forall g ensures g in v.gaps <==> g.series in {group.0} && Missing(rows, g.vintage, g.series) {
      EveryVintage(g.vintage);
    }
  }

  lemma JoinDone(rows: seq<ForecastVintage>, done: set<Series>, series: Series, v: VintageSelection, w: VintageSelection)
    requires series !in done && DoneWith(rows, done, v) && DoneWith(rows, {series}, w)
    ensures DoneWith(rows, done + {series}, VintageSelection(v.selected + w.selected, v.gaps + w.gaps))
  {
  }

  /** Subsequences keep rows apart. */
  lemma {:induction false} GroupIsUnrepeated(rows: seq<ForecastVintage>, group: (Series, (Kind, string)))
    requires Unrepeated(rows, ForecastIdentity)
    ensures Unrepeated(Having(rows, GroupOf, group), ForecastIdentity)
  {
    if rows != [] {
      var last, rest := rows[|rows| - 1], rows[..|rows| - 1];
      GroupIsUnrepeated(rest, group);
      forall f | f in Having(rest, GroupOf, group) ensures ForecastIdentity(f) != ForecastIdentity(last) {
        assert f in rest;
      }
    }
  }

  method MixedContracts(rows: seq<ForecastVintage>) returns (mixed: bool)
    ensures mixed <==> Mixed(rows)
  {
    var contracts: map<Series, set<(Kind, string)>> := map[];
    for i := 0 to |rows|
      invariant contracts.Keys == KeysOf(rows[..i], SeriesOf)
      invariant forall s :: s in contracts ==> contracts[s] == set f | f in rows[..i] && f.series == s :: Contract(f)
    {
      var row := rows[i];
      assert rows[..i + 1] == rows[..i] + [row];
      KeysOfStep(rows, i, SeriesOf);
      contracts := contracts[row.series := (if row.series in contracts then contracts[row.series] else {}) + {Contract(row)}];
    }
    assert rows[..|rows|] == rows;
    mixed := exists s :: s in contracts && |contracts[s]| > 1;
    if mixed {
      var s :| s in contracts && |contracts[s]| > 1;
      TwoMembers(contracts[s]);
    } else {
      forall f, g | f in rows && g in rows && f.series == g.series ensures Contract(f) == Contract(g) {
        assert f.series in contracts && |contracts[f.series]| <= 1;
        AtMostOneMember(contracts[f.series], Contract(f), Contract(g));
      }
    }
  }

  method SelectForecastVintages(rows: seq<ForecastVintage>) returns (r: Result<VintageSelection, Error>)
    ensures Selects(rows, r)
    ensures r.Ok? ==> |r.value.selected| + |r.value.gaps| == 3 * |KeysOf(rows, SeriesOf)|
  {
    hide KeyLe, Wins, Missing, Mixed, Sorted;
    var duplicate := RejectDuplicateIdentities(rows, ForecastIdentity);
    if duplicate { return Err(DuplicateForecast); }
    var mixed := MixedContracts(rows);
    if mixed { return Err(MixedSeries); }
    var v := EnterGroups(rows);
    var selected := SortBy(v.selected, SelectedKey);
    var gaps := SortBy(v.gaps, GapKey);
    SameMembers(selected, v.selected);
    SameMembers(gaps, v.gaps);
    assert |selected| == |multiset(selected)| == |v.selected| && |gaps| == |multiset(gaps)| == |v.gaps|;
    WinnersAreRows(rows, v);
    return Ok(VintageSelection(selected, gaps));
  }

  lemma WinnersAreRows(rows: seq<ForecastVintage>, v: VintageSelection)
    requires DoneWith(rows, KeysOf(rows, SeriesOf), v)
    ensures forall s :: s in v.selected <==> Wins(rows, s.vintage, s.forecast)
    ensures forall g :: g in v.gaps <==> Missing(rows, g.vintage, g.series)
  {
  }

  /** Takes the groups in any order; the order the source takes them in is one of these. */
  method EnterGroups(rows: seq<ForecastVintage>) returns (v: VintageSelection)
    requires Unrepeated(rows, ForecastIdentity) && !Mixed(rows)
    ensures DoneWith(rows, KeysOf(rows, SeriesOf), v)
  {
    hide KeyLe, Wins, Missing, Rank, Eligible, GroupEntries, DoneWith;
    var groups := GroupBy(rows, GroupOf);
    var pending := groups.Keys;
    v := VintageSelection([], []);
    ghost var done: set<Series> := {};
    NothingDone(rows);
    while pending != {}
      invariant pending <= groups.Keys
      invariant done == set group | group in groups.Keys - pending :: group.0
      invariant DoneWith(rows, done, v)
      decreases pending
    {
      var group :| group in pending;
      GroupIsUnrepeated(rows, group);
      var w := SelectGroup(groups[group], group.0);
      GroupDecides(rows, group, w);
      if group.0 in done {
        GroupsHaveOwnSeries(rows, group);
      }
      JoinDone(rows, done, group.0, v, w);
      v := VintageSelection(v.selected + w.selected, v.gaps + w.gaps);
      done := done + {group.0};
      pending := pending - {group};
    }
    assert groups.Keys - pending == groups.Keys;
    SeriesAreGroups(rows);
  }

  lemma NothingDone(rows: seq<ForecastVintage>)
    ensures DoneWith(rows, {}, VintageSelection([], []))
  {
  }

  lemma GroupsHaveOwnSeries(rows: seq<ForecastVintage>, group: (Series, (Kind, string)))
    requires !Mixed(rows) && group in KeysOf(rows, GroupOf)
    ensures forall other :: other in KeysOf(rows, GroupOf) && other.0 == group.0 ==> other == group
  {
  }

  lemma SeriesAreGroups(rows: seq<ForecastVintage>)
    ensures KeysOf(rows, SeriesOf) == set group | group in KeysOf(rows, GroupOf) :: group.0
  {
    forall f | f in rows ensures f.series in set group | group in KeysOf(rows, GroupOf) :: group.0 {
      assert GroupOf(f) in KeysOf(rows, GroupOf);
    }
  }

  /* ---------- observation truth ---------- */

  datatype Quality = Provisional | Final | Rejected

  datatype Place = Place(source: string, grid: string, variable: string, observedAt: int)

  datatype ObservationTruth = ObservationTruth(
    place: Place, kind: Kind, value: Scalar, unit: string, revision: string, asOf: int, collectedAt: int, quality: Quality)

  /** Reasons with a zero count are left out of the source's report. */
  datatype TruthResolution = TruthResolution(
    selected: seq<ObservationTruth>,
    futureRevision: nat, futureCollection: nat, rejected: nat, staleProvisional: nat,
    degraded: bool)

  function TruthIdentity(t: ObservationTruth): (Place, string) { (t.place, t.revision) }

  function PlaceOf(t: ObservationTruth): Place { t.place }

  function Meaning(t: ObservationTruth): (Kind, Scalar, string, Quality) { (t.kind, t.value, t.unit, t.quality) }

  function RevisionKey(t: ObservationTruth): seq<Part> { [Word(t.revision)] }

  function TruthKey(t: ObservationTruth): seq<Part> {
    [Word(t.place.source), Word(t.place.variable), Number(t.place.observedAt), Word(t.place.grid)]
  }

  predicate Visible(t: ObservationTruth, now: int) { t.asOf <= now && t.collectedAt <= now }

  predicate Stale(t: ObservationTruth, now: int) {
    t.quality == Provisional && now > t.place.observedAt + PROVISIONAL_MAX_AGE
  }

  /** `t` has the latest visible date of its place. */
  ghost predicate Latest(rows: seq<ObservationTruth>, now: int, t: ObservationTruth) {
    && t in rows && Visible(t, now)
    && forall u :: u in rows && u.place == t.place && Visible(u, now) ==> u.asOf <= t.asOf
  }

  ghost predicate Conflicting(rows: seq<ObservationTruth>, now: int) {
    exists t, u :: Latest(rows, now, t) && Latest(rows, now, u) && t.place == u.place && Meaning(t) != Meaning(u)
  }

  /** Among the latest rows of its place `t` has the greatest revision. */
  ghost predicate Leads(rows: seq<ObservationTruth>, now: int, t: ObservationTruth) {
    && Latest(rows, now, t)
    && forall u :: Latest(rows, now, u) && u.place == t.place ==> KeyLe(RevisionKey(u), RevisionKey(t))
  }

  ghost function Later(rows: seq<ObservationTruth>, now: int): set<ObservationTruth> { set t | t in rows && t.asOf > now }

  ghost function Uncollected(rows: seq<ObservationTruth>, now: int): set<ObservationTruth> {
    set t | t in rows && t.asOf <= now < t.collectedAt
  }

  ghost function RejectedLeaders(rows: seq<ObservationTruth>, now: int): set<ObservationTruth> {
    set t | t in rows && Leads(rows, now, t) && t.quality == Rejected
  }

  ghost function StaleLeaders(rows: seq<ObservationTruth>, now: int): set<ObservationTruth> {
    set t | t in rows && Leads(rows, now, t) && Stale(t, now)
  }

  ghost predicate IsResolution(rows: seq<ObservationTruth>, now: int, v: TruthResolution) {
    && (forall t :: t in v.selected <==> Leads(rows, now, t) && t.quality != Rejected && !Stale(t, now))
    && Distinct(v.selected) && Sorted(v.selected, TruthKey)
    && v.futureRevision == |Later(rows, now)| && v.futureCollection == |Uncollected(rows, now)|
    && v.rejected == |RejectedLeaders(rows, now)| && v.staleProvisional == |StaleLeaders(rows, now)|
    && (v.degraded <==> exists t :: t in v.selected && t.quality == Provisional)
  }

  /** Everything resolve_observation_truth promises. */
  ghost predicate Resolves(rows: seq<ObservationTruth>, now: int, r: Result<TruthResolution, Error>) {
    && (!Unrepeated(rows, TruthIdentity) <==> r == Err(DuplicateTruth))
    && (Unrepeated(rows, TruthIdentity) && Conflicting(rows, now) <==> r == Err(ConflictingTruth))
    && (r.Err? ==> r.error in {DuplicateTruth, ConflictingTruth})
    && (r.Ok? ==> IsResolution(rows, now, r.value))
  }

  lemma LeaderIsUnique(rows: seq<ObservationTruth>, now: int, t: ObservationTruth, u: ObservationTruth)
    requires Unrepeated(rows, TruthIdentity)
    requires Leads(rows, now, t) && Leads(rows, now, u) && t.place == u.place
    ensures t == u
  {
    hide KeyLe;
    KeyLeAntisymmetric(RevisionKey(t), RevisionKey(u));
    assert RevisionKey(t)[0] == RevisionKey(u)[0];
  }

  lemma TruthKeyIsInjective(t: ObservationTruth, u: ObservationTruth)
    requires TruthKey(t) == TruthKey(u)
    ensures t.place == u.place
  {
  }

  /** Rows that differ only in what is not yet visible have the same leaders. */
  ghost predicate SameSight(a: seq<ObservationTruth>, b: seq<ObservationTruth>, now: int) {
    forall t :: Visible(t, now) ==> (t in a <==> t in b)
  }

  lemma SameSightSameLeaders(a: seq<ObservationTruth>, b: seq<ObservationTruth>, now: int)
    requires SameSight(a, b, now)
    ensures forall t :: Latest(a, now, t) <==> Latest(b, now, t)
    ensures forall t :: Leads(a, now, t) <==> Leads(b, now, t)
    ensures Conflicting(a, now) <==> Conflicting(b, now)
  {
  }

  /** What is selected, rejected or degraded depends on the visible rows alone. */
  lemma SameSightSameTruth(a: seq<ObservationTruth>, b: seq<ObservationTruth>, now: int, va: TruthResolution, vb: TruthResolution)
    requires Unrepeated(a, TruthIdentity) && SameSight(a, b, now)
    requires IsResolution(a, now, va) && IsResolution(b, now, vb)
    ensures va.selected == vb.selected && va.degraded == vb.degraded
    ensures va.rejected == vb.rejected && va.staleProvisional == vb.staleProvisional
  {
    hide KeyLe, Sorted, Stale, Latest;
    SameSightSameLeaders(a, b, now);
    forall x, y | x in va.selected && y in va.selected && TruthKey(x) == TruthKey(y) ensures x == y {
      TruthKeyIsInjective(x, y);
      LeaderIsUnique(a, now, x, y);
    }
    SameRowsSameTable(va.selected, vb.selected, TruthKey);
    LeadersAreRows(a, now);
    LeadersAreRows(b, now);
    assert RejectedLeaders(a, now) == RejectedLeaders(b, now) && StaleLeaders(a, now) == StaleLeaders(b, now);
  }

  lemma LeadersAreRows(rows: seq<ObservationTruth>, now: int)
    ensures forall t :: Leads(rows, now, t) ==> t in rows
  {
  }

  /** The resolution is the same for every order of the input, errors included. */
  lemma TruthOrderDoesNotMatter(
      a: seq<ObservationTruth>, b: seq<ObservationTruth>, now: int,
      ra: Result<TruthResolution, Error>, rb: Result<TruthResolution, Error>)
    requires multiset(a) == multiset(b) && Resolves(a, now, ra) && Resolves(b, now, rb)
    ensures ra == rb
  {
    hide KeyLe, Sorted, Stale, Latest, Leads, Conflicting;
    SameMembers(a, b);
    SameSightSameLeaders(a, b, now);
    if Unrepeated(a, TruthIdentity) {
      UnrepeatedPermutes(a, b, TruthIdentity);
    }
    if Unrepeated(b, TruthIdentity) {
      UnrepeatedPermutes(b, a, TruthIdentity);
    }
    if ra.Ok? && rb.Ok? {
      SameSightSameTruth(a, b, now, ra.value, rb.value);
      assert Later(a, now) == Later(b, now) && Uncollected(a, now) == Uncollected(b, now);
    }
  }

  /** Rows dated or collected after the evaluation change neither the truth nor whether it is accepted. */
  lemma BlindToTheFuture(
      rows: seq<ObservationTruth>, extra: seq<ObservationTruth>, now: int,
      before: Result<TruthResolution, Error>, after: Result<TruthResolution, Error>)
    requires Resolves(rows, now, before) && Resolves(rows + extra, now, after)
    requires Unrepeated(rows + extra, TruthIdentity) && forall e :: e in extra ==> !Visible(e, now)
    ensures before.Ok? <==> after.Ok?
    ensures before.Ok? ==> before.value.selected == after.value.selected && before.value.degraded == after.value.degraded
    ensures before.Ok? ==>
      before.value.rejected == after.value.rejected && before.value.staleProvisional == after.value.staleProvisional
  {
    hide KeyLe, Sorted, Stale, Latest, Leads, Conflicting;
    forall i, j | 0 <= i < j < |rows| ensures TruthIdentity(rows[i]) != TruthIdentity(rows[j]) {
      assert rows[i] == (rows + extra)[i] && rows[j] == (rows + extra)[j];
    }
    SameSightSameLeaders(rows, rows + extra, now);
    if before.Ok? {
      SameSightSameTruth(rows, rows + extra, now, before.value, after.value);
    }
  }

  ghost function Seen(rows: seq<ObservationTruth>, now: int): set<ObservationTruth> { set t | t in rows && Visible(t, now) }

  ghost function Leaders(rows: seq<ObservationTruth>, now: int): set<ObservationTruth> {
    set t | t in rows && Leads(rows, now, t)
  }

  function DateAndRevision(t: ObservationTruth): seq<Part> { [Number(t.asOf), Word(t.revision)] }

  lemma SomeRowLeads(rows: seq<ObservationTruth>, now: int, t: ObservationTruth) returns (leader: ObservationTruth)
    requires t in rows && Visible(t, now)
    ensures leader.place == t.place && Leads(rows, now, leader)
  {
    hide StringLe;
    var rivals := set u | u in rows && u.place == t.place && Visible(u, now);
    assert t in rivals;
    leader := GreatestOf(rivals, DateAndRevision);
    forall u | u in rows && u.place == t.place && Visible(u, now)
      ensures u.asOf <= leader.asOf && (u.asOf == leader.asOf ==> KeyLe(RevisionKey(u), RevisionKey(leader)))
    {
      var p, q := DateAndRevision(u), DateAndRevision(leader);
      assert KeyLe(p, q) && p[1..] == RevisionKey(u) && q[1..] == RevisionKey(leader);
    }
  }

  /** Every row is hidden or seen, and every place seen is selected, rejected or stale: nothing is lost. */
  lemma EveryRowIsAccounted(rows: seq<ObservationTruth>, now: int, v: TruthResolution)
    requires Resolves(rows, now, Ok(v))
    ensures v.futureRevision + v.futureCollection + |Seen(rows, now)| == |rows|
    ensures |v.selected| + v.rejected + v.staleProvisional == |ImageOf(Seen(rows, now), PlaceOf)|
  {
    hide KeyLe, Sorted, Leads, Latest, Conflicting, Leaders, RejectedLeaders, StaleLeaders;
    DistinctSize(rows);
    ThreeParts(RowSet(rows), Later(rows, now), Uncollected(rows, now), Seen(rows, now));
    DistinctSize(v.selected);
    LeadersInParts(rows, now, v);
    LeadersArePlaces(rows, now);
  }

  lemma LeadersInParts(rows: seq<ObservationTruth>, now: int, v: TruthResolution)
    requires IsResolution(rows, now, v)
    ensures |Leaders(rows, now)| == |RowSet(v.selected)| + |RejectedLeaders(rows, now)| + |StaleLeaders(rows, now)|
  {
    hide KeyLe, Sorted, Leads;
    LeadersAreRows(rows, now);
    ThreeParts(Leaders(rows, now), RowSet(v.selected), RejectedLeaders(rows, now), StaleLeaders(rows, now));
  }

  lemma LeadersArePlaces(rows: seq<ObservationTruth>, now: int)
    requires Unrepeated(rows, TruthIdentity)
    ensures |Leaders(rows, now)| == |ImageOf(Seen(rows, now), PlaceOf)|
  {
    hide KeyLe, Leads, Seen;
    var leaders, places := Leaders(rows, now), ImageOf(Seen(rows, now), PlaceOf);
    LeadersAreRows(rows, now);
    forall t, u | t in leaders && u in leaders && PlaceOf(t) == PlaceOf(u) ensures t == u {
      LeaderIsUnique(rows, now, t, u);
    }
    ImageSize(leaders, PlaceOf);
    forall place | place in places ensures place in ImageOf(leaders, PlaceOf) {
      var t :| t in Seen(rows, now) && PlaceOf(t) == place;
      SeenRow(rows, now, t);
      var leader := SomeRowLeads(rows, now, t);
      assert leader in leaders && PlaceOf(leader) == place;
    }
    forall place | place in ImageOf(leaders, PlaceOf) ensures place in places {
      var t :| t in leaders && PlaceOf(t) == place;
      LeaderIsSeen(rows, now, t);
    }
    assert ImageOf(leaders, PlaceOf) == places;
  }

  lemma SeenRow(rows: seq<ObservationTruth>, now: int, t: ObservationTruth)
    requires t in Seen(rows, now)
    ensures t in rows && Visible(t, now)
  {
  }

  lemma LeaderIsSeen(rows: seq<ObservationTruth>, now: int, t: ObservationTruth)
    requires Leads(rows, now, t)
    ensures t in Seen(rows, now)
  {
  }

  /* ---------- the resolution itself ---------- */

  ghost function Among(leaders: set<ObservationTruth>, done: set<Place>): set<ObservationTruth> {
    set t | t in leaders && t.place in done
  }

  /** The resolution of the places in `done`, not yet sorted. */
  ghost predicate ResolvedWithin(rows: seq<ObservationTruth>, now: int, done: set<Place>, v: TruthResolution) {
    && (forall t :: t in v.selected <==> t.place in done && Leads(rows, now, t) && t.quality != Rejected && !Stale(t, now))
    && Distinct(v.selected)
    && v.rejected == |Among(RejectedLeaders(rows, now), done)|
    && v.staleProvisional == |Among(StaleLeaders(rows, now), done)|
    && (v.degraded <==> exists t :: t in v.selected && t.quality == Provisional)
  }

  /** What the source does with the leader of one more place. */
  function Enter(v: TruthResolution, leader: ObservationTruth, now: int): TruthResolution {
    if leader.quality == Rejected then v.(rejected := v.rejected + 1)
    else if Stale(leader, now) then v.(staleProvisional := v.staleProvisional + 1)
    else v.(selected := v.selected + [leader], degraded := v.degraded || leader.quality == Provisional)
  }

  lemma EnterResolves(rows: seq<ObservationTruth>, now: int, done: set<Place>, v: TruthResolution, leader: ObservationTruth)
    requires Unrepeated(rows, TruthIdentity) && leader.place !in done
    requires Leads(rows, now, leader) && ResolvedWithin(rows, now, done, v)
    ensures ResolvedWithin(rows, now, done + {leader.place}, Enter(v, leader, now))
  {
    hide KeyLe, Latest, Leads, Stale, Enter, RejectedLeaders, StaleLeaders;
    OnlyLeader(rows, now, leader);
    AmongGrows(RejectedLeaders(rows, now), done, leader, leader.quality == Rejected);
    AmongGrows(StaleLeaders(rows, now), done, leader, Stale(leader, now));
    EnterSelects(v, leader, now);
  }

  lemma OnlyLeader(rows: seq<ObservationTruth>, now: int, leader: ObservationTruth)
    requires Unrepeated(rows, TruthIdentity) && Leads(rows, now, leader)
    ensures forall t :: Leads(rows, now, t) && t.place == leader.place ==> t == leader
    ensures forall t :: t in RejectedLeaders(rows, now) && t.place == leader.place <==> t == leader && leader.quality == Rejected
    ensures forall t :: t in StaleLeaders(rows, now) && t.place == leader.place <==> t == leader && Stale(leader, now)
  {
    hide KeyLe, Stale;
    forall t | Leads(rows, now, t) && t.place == leader.place ensures t == leader {
      LeaderIsUnique(rows, now, t, leader);
    }
  }

  lemma AmongGrows(leaders: set<ObservationTruth>, done: set<Place>, leader: ObservationTruth, counted: bool)
    requires leader.place !in done
    requires forall t :: t in leaders && t.place == leader.place <==> t == leader && counted
    ensures |Among(leaders, done + {leader.place})| == |Among(leaders, done)| + if counted then 1 else 0
  {
    if counted {
      assert Among(leaders, done + {leader.place}) == Among(leaders, done) + {leader};
    } else {
      assert Among(leaders, done + {leader.place}) == Among(leaders, done);
    }
  }

  lemma EnterSelects(v: TruthResolution, leader: ObservationTruth, now: int)
    requires v.degraded <==> exists t :: t in v.selected && t.quality == Provisional
    ensures var w := Enter(v, leader, now);
      && (forall t :: t in w.selected <==> t in v.selected || (t == leader && leader.quality != Rejected && !Stale(leader, now)))
      && (w.degraded <==> exists t :: t in w.selected && t.quality == Provisional)
      && w.rejected == v.rejected + (if leader.quality == Rejected then 1 else 0)
      && w.staleProvisional == v.staleProvisional + (if Stale(leader, now) then 1 else 0)
      && (Distinct(v.selected) && leader !in v.selected ==> Distinct(w.selected))
  {
  }

  /** Splits off the rows the evaluation may not see yet. */
  method SplitVisible(rows: seq<ObservationTruth>, now: int)
      returns (visible: seq<ObservationTruth>, futureRevision: nat, futureCollection: nat)
    requires Distinct(rows)
    ensures forall t :: t in visible <==> t in rows && Visible(t, now)
    ensures futureRevision == |Later(rows, now)| && futureCollection == |Uncollected(rows, now)|
  {
    hide Later, Uncollected;
    visible, futureRevision, futureCollection := [], 0, 0;
    NoneHidden(now);
    for i := 0 to |rows|
      invariant forall t :: t in visible <==> t in rows[..i] && Visible(t, now)
      invariant futureRevision == |Later(rows[..i], now)| && futureCollection == |Uncollected(rows[..i], now)|
    {
      var row := rows[i];
      assert rows[..i + 1] == rows[..i] + [row];
      assert row !in rows[..i];
      HiddenStep(rows[..i], row, now);
      if row.asOf > now {
        futureRevision := futureRevision + 1;
      } else if row.collectedAt > now {
        futureCollection := futureCollection + 1;
      } else {
        visible := visible + [row];
      }
    }
    assert rows[..|rows|] == rows;
  }

  lemma NoneHidden(now: int)
    ensures |Later([], now)| == 0 && |Uncollected([], now)| == 0
  {
  }

  lemma HiddenStep(before: seq<ObservationTruth>, row: ObservationTruth, now: int)
    requires row !in before
    ensures |Later(before + [row], now)| == |Later(before, now)| + if row.asOf > now then 1 else 0
    ensures |Uncollected(before + [row], now)|
      == |Uncollected(before, now)| + if row.asOf <= now < row.collectedAt then 1 else 0
  {
    var later, uncollected := Later(before + [row], now), Uncollected(before + [row], now);
    if row.asOf > now {
      assert later == Later(before, now) + {row};
      assert uncollected == Uncollected(before, now);
    } else {
      assert later == Later(before, now);
      if row.collectedAt > now {
        assert uncollected == Uncollected(before, now) + {row};
      } else {
        assert uncollected == Uncollected(before, now);
      }
    }
  }

  ghost predicate Agreed(rows: seq<ObservationTruth>, now: int, place: Place) {
    forall t, u :: Latest(rows, now, t) && Latest(rows, now, u) && t.place == place && u.place == place ==> Meaning(t) == Meaning(u)
  }

  /** The latest rows of one place: their leader, or none when they disagree. */
  method ResolvePlace(rows: seq<ObservationTruth>, now: int, candidates: seq<ObservationTruth>, place: Place)
      returns (leader: Option<ObservationTruth>)
    requires candidates != []
    requires forall t :: t in candidates <==> t in rows && t.place == place && Visible(t, now)
    ensures leader.None? ==> Conflicting(rows, now)
    ensures leader.Some? ==> Leads(rows, now, leader.value) && leader.value.place == place
    ensures leader.Some? ==> Agreed(rows, now, place)
  {
    hide KeyLe;
    var latestAsOf := candidates[0].asOf;
    for i := 1 to |candidates|
      invariant exists t :: t in candidates[..i] && t.asOf == latestAsOf
      invariant forall t :: t in candidates[..i] ==> t.asOf <= latestAsOf
    {
      assert candidates[..i + 1] == candidates[..i] + [candidates[i]];
      if candidates[i].asOf > latestAsOf { latestAsOf := candidates[i].asOf; }
    }
    assert candidates[..|candidates|] == candidates;
    var latest := Dated(candidates, latestAsOf);
    forall t ensures t in latest <==> t.place == place && Latest(rows, now, t) {
    }
    var meanings := set t | t in latest :: Meaning(t);
    if |meanings| > 1 {
      TwoMembers(meanings);
      return None;
    }
    forall t, u | t in latest && u in latest ensures Meaning(t) == Meaning(u) {
      assert Meaning(t) in meanings && Meaning(u) in meanings;
      AtMostOneMember(meanings, Meaning(t), Meaning(u));
    }
    var winner := MaxBy(latest, RevisionKey);
    return Some(winner);
  }

  function Dated(candidates: seq<ObservationTruth>, asOf: int): (r: seq<ObservationTruth>)
    ensures forall t :: t in r <==> t in candidates && t.asOf == asOf
  {
    if candidates == [] then []
    else (if candidates[0].asOf == asOf then [candidates[0]] else []) + Dated(candidates[1..], asOf)
  }

  method ResolveObservationTruth(rows: seq<ObservationTruth>, now: int) returns (r: Result<TruthResolution, Error>)
    ensures Resolves(rows, now, r)
  {
    hide KeyLe, Sorted, Latest, Leads, Stale, Conflicting;
    var duplicate := RejectDuplicateIdentities(rows, TruthIdentity);
    if duplicate { return Err(DuplicateTruth); }
    var visible, futureRevision, futureCollection := SplitVisible(rows, now);
    var resolved := ResolvePlaces(rows, now, visible);
    if resolved.None? { return Err(ConflictingTruth); }
    var v := resolved.value;
    var selected := SortBy(v.selected, TruthKey);
    SameMembers(selected, v.selected);
    LeadersArePlaced(rows, now, visible);
    var result := TruthResolution(selected, futureRevision, futureCollection, v.rejected, v.staleProvisional, v.degraded);
    WholeResolution(rows, now, visible, v);
    return Ok(result);
  }

  lemma LeadersArePlaced(rows: seq<ObservationTruth>, now: int, visible: seq<ObservationTruth>)
    requires forall t :: t in visible <==> t in rows && Visible(t, now)
    ensures forall t :: Leads(rows, now, t) ==> t.place in KeysOf(visible, PlaceOf)
  {
  }

  lemma WholeResolution(rows: seq<ObservationTruth>, now: int, visible: seq<ObservationTruth>, v: TruthResolution)
    requires forall t :: t in visible <==> t in rows && Visible(t, now)
    requires ResolvedWithin(rows, now, KeysOf(visible, PlaceOf), v)
    ensures forall t :: t in v.selected <==> Leads(rows, now, t) && t.quality != Rejected && !Stale(t, now)
    ensures v.rejected == |RejectedLeaders(rows, now)| && v.staleProvisional == |StaleLeaders(rows, now)|
  {
    hide Leads, Stale;
    LeadersArePlaced(rows, now, visible);
    var places := KeysOf(visible, PlaceOf);
    assert Among(RejectedLeaders(rows, now), places) == RejectedLeaders(rows, now);
    assert Among(StaleLeaders(rows, now), places) == StaleLeaders(rows, now);
  }

  /** Takes the places in any order; the order the source takes them in is one of these. */
  method ResolvePlaces(rows: seq<ObservationTruth>, now: int, visible: seq<ObservationTruth>)
      returns (resolved: Option<TruthResolution>)
    requires Unrepeated(rows, TruthIdentity) && forall t :: t in visible <==> t in rows && Visible(t, now)
    ensures resolved.None? <==> Conflicting(rows, now)
    ensures resolved.Some? ==> ResolvedWithin(rows, now, KeysOf(visible, PlaceOf), resolved.value)
  {
    hide KeyLe, Latest, Leads, Stale, ResolvedWithin, Enter, Agreed, Conflicting;
    var groups := GroupBy(visible, PlaceOf);
    var pending := groups.Keys;
    var v := TruthResolution([], 0, 0, 0, 0, false);
    NothingResolved(rows, now);
    assert groups.Keys - pending == {};
    while pending != {}
      invariant pending <= groups.Keys
      invariant ResolvedWithin(rows, now, groups.Keys - pending, v)
      invariant forall place :: place in groups.Keys - pending ==> Agreed(rows, now, place)
      decreases pending
    {
      var place :| place in pending;
      CandidatesAreThePlace(visible, place);
      var leader := ResolvePlace(rows, now, groups[place], place);
      if leader.None? { return None; }
      EnterResolves(rows, now, groups.Keys - pending, v, leader.value);
      v := Enter(v, leader.value, now);
      assert groups.Keys - pending + {place} == groups.Keys - (pending - {place});
      pending := pending - {place};
    }
    assert groups.Keys - pending == groups.Keys;
    AllAgreed(rows, now, visible);
    return Some(v);
  }

  lemma AllAgreed(rows: seq<ObservationTruth>, now: int, visible: seq<ObservationTruth>)
    requires forall t :: t in visible <==> t in rows && Visible(t, now)
    requires forall place :: place in KeysOf(visible, PlaceOf) ==> Agreed(rows, now, place)
    ensures !Conflicting(rows, now)
  {
    hide Latest;
    LatestArePlaced(rows, now, visible);
    assert forall t :: Latest(rows, now, t) ==> Agreed(rows, now, t.place);
  }

  lemma NothingResolved(rows: seq<ObservationTruth>, now: int)
    ensures ResolvedWithin(rows, now, {}, TruthResolution([], 0, 0, 0, 0, false))
  {
  }

  lemma CandidatesAreThePlace(visible: seq<ObservationTruth>, place: Place)
    ensures forall t :: t in Having(visible, PlaceOf, place) <==> t in visible && t.place == place
  {
  }

  lemma LatestArePlaced(rows: seq<ObservationTruth>, now: int, visible: seq<ObservationTruth>)
    requires forall t :: t in visible <==> t in rows && Visible(t, now)
    ensures forall t :: Latest(rows, now, t) ==> t.place in KeysOf(visible, PlaceOf)
  {
  }
}
