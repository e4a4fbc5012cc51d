/**
 Matching selected forecasts with resolved truth, cohort by cohort.
 Mirrors evaluate_forecast_quality in weather_quality/evaluation.py and the evidence gate in
 weather_quality/evidence.py. Identifiers, texts and metadata of the report are left out.
 */
module Evaluation {
  import opened Basics
  import opened Order
  import opened Tables
  import opened Selection
  import M = Metrics

  /* ---------- matching ---------- */

  /** What a truth must share with a forecast to be its truth. */
  datatype Spot = Spot(grid: string, variable: string, at: int)

  function TruthSpot(t: ObservationTruth): Spot { Spot(t.place.grid, t.place.variable, t.place.observedAt) }

  function ForecastSpot(f: ForecastVintage): Spot { Spot(f.series.grid, f.series.variable, f.series.validAt) }

  function TruthKind(kind: Kind): Kind { if kind == Probability then Binary else kind }

  datatype Fate = MissingTruth | IncompatibleUnit | IncompatibleKind | Matched(truth: ObservationTruth)

  /** Matched means: a truth at the spot, in the same unit, of the kind this forecast is scored against. */
  function FateOf(f: ForecastVintage, truths: map<Spot, ObservationTruth>): (fate: Fate)
    ensures fate.MissingTruth? <==> ForecastSpot(f) !in truths
    ensures fate.IncompatibleUnit? <==> ForecastSpot(f) in truths && truths[ForecastSpot(f)].unit != f.unit
    ensures f.kind != Binary ==> (fate.Matched? <==>
      ForecastSpot(f) in truths && truths[ForecastSpot(f)].unit == f.unit && truths[ForecastSpot(f)].kind == TruthKind(f.kind))
    ensures fate.Matched? ==> fate.truth == truths[ForecastSpot(f)]
  {
    if ForecastSpot(f) !in truths then MissingTruth
    else
      var truth := truths[ForecastSpot(f)];
      if truth.unit != f.unit then IncompatibleUnit
      else if f.kind == Selection.Continuous && truth.kind != Selection.Continuous then IncompatibleKind
      else if f.kind == Probability && truth.kind != Binary then IncompatibleKind
      else if f.kind == Selection.Categorical && truth.kind != Selection.Categorical then IncompatibleKind
      else Matched(truth)
  }

  datatype Match = Match(forecast: ForecastVintage, truth: ObservationTruth)

  function Matches(members: seq<SelectedVintage>, truths: map<Spot, ObservationTruth>): seq<Match> {
    if members == [] then []
    else
      var last, before := members[|members| - 1].forecast, Matches(members[..|members| - 1], truths);
      if FateOf(last, truths).Matched? then before + [Match(last, FateOf(last, truths).truth)] else before
  }

  function Losses(members: seq<SelectedVintage>, truths: map<Spot, ObservationTruth>, fate: Fate): nat {
    if members == [] then 0
    else Losses(members[..|members| - 1], truths, fate) + if FateOf(members[|members| - 1].forecast, truths) == fate then 1 else 0
  }

  /* ---------- evidence ---------- */

  datatype Evidence = Insufficient | Degraded | Sufficient

  function EvidenceState(sample: nat, total: nat, provisional: bool): Evidence {
    var coverage := if total > 0 then sample as real / total as real else 0.0;
    if sample < 30 || coverage < 0.8 then Insufficient
    else if provisional then Degraded else Sufficient
  }

  /** On the eighty-grid universe the coverage threshold alone decides: 64 grids, so never 30. */
  lemma EvidenceOnEightyGrids(sample: nat, provisional: bool)
    ensures EvidenceState(sample, 80, provisional) == Insufficient <==> sample < 64
    ensures EvidenceState(sample, 80, provisional) == Degraded <==> sample >= 64 && provisional
  {
  }

  /* ---------- scores ---------- */

  /** What the record types accept. */
  predicate ValidForecast(f: ForecastVintage) {
    && (f.kind == Selection.Continuous || f.kind == Probability ==> f.value.Measure?)
    && (f.kind == Probability ==> M.InUnit(f.value.value))
    && (f.kind == Selection.Categorical ==> f.value.Category? && !M.IsBlank(f.value.name))
    && f.kind != Binary
  }

  predicate ValidTruth(t: ObservationTruth) {
    && (t.kind == Selection.Continuous ==> t.value.Measure?)
    && (t.kind == Binary ==> t.value.Happened?)
    && (t.kind == Selection.Categorical ==> t.value.Category? && !M.IsBlank(t.value.name))
    && t.kind != Probability
  }

  datatype Error =
    | NoForecasts | BadForecasts(selection: Selection.Error) | BadTruth(resolution: Selection.Error)
    | AmbiguousSource | ForeignGrid | CategoricalVariable | CategoricalLabel | BadMetrics(metrics: M.Error)

  datatype Scores =
    | NoScores
    | ContinuousScores(continuous: M.Continuous)
    | ProbabilityScores(probabilistic: M.Probabilistic, thresholded: M.Categorical)
    | CategoricalScores(categorical: M.Categorical)

  /** Matched rows of one cohort: valid, and of compatible kinds. */
  ghost predicate Comparable(kind: Kind, matched: seq<Match>) {
    kind != Binary && forall i :: 0 <= i < |matched| ==>
      && ValidForecast(matched[i].forecast) && ValidTruth(matched[i].truth)
      && matched[i].forecast.kind == kind && matched[i].truth.kind == TruthKind(kind)
  }

  function Pairs(matched: seq<Match>): seq<M.Pair>
    requires Comparable(Selection.Continuous, matched)
  {
    seq(|matched|, i requires 0 <= i < |matched| => M.Pair(matched[i].forecast.value.value, matched[i].truth.value.value))
  }

  function Events(matched: seq<Match>): (r: seq<M.Event>)
    requires Comparable(Probability, matched)
    ensures |r| == |matched| && M.ValidEvents(r)
  {
    seq(|matched|, i requires 0 <= i < |matched| =>
      M.Event(matched[i].forecast.value.value, if matched[i].truth.value.flag then 1 else 0))
  }

  function Labels(matched: seq<Match>): seq<(M.Label, M.Label)>
    requires Comparable(Selection.Categorical, matched)
  {
    seq(|matched|, i requires 0 <= i < |matched| =>
      (M.Text(matched[i].forecast.value.name), M.Text(matched[i].truth.value.name)))
  }

  const OCCURRENCE := "occurrence"
  const NO_OCCURRENCE := "none"
  const OCCURRENCE_VARIABLE := "precipitation_occurrence_category"

  predicate OccurrenceName(s: string) { s == OCCURRENCE || s == NO_OCCURRENCE }

  predicate OccurrenceNames(matched: seq<Match>)
    requires Comparable(Selection.Categorical, matched)
  {
    forall i :: 0 <= i < |matched| ==> OccurrenceName(matched[i].forecast.value.name) && OccurrenceName(matched[i].truth.value.name)
  }

  function ScoresOf(variable: string, kind: Kind, matched: seq<Match>): (r: Result<Scores, Error>)
    requires Comparable(kind, matched)
  {
    if matched == [] then Ok(NoScores)
    else if kind == Selection.Continuous then Ok(ContinuousScores(M.ContinuousMetrics(Pairs(matched)).value))
    else if kind == Probability then
      var events := Events(matched);
      M.ThresholdAgrees(events);
      Ok(ProbabilityScores(M.ProbabilityScores(events), M.CategoricalMetrics(M.Thresholded(events), M.Flag(true)).value))
    else if variable != OCCURRENCE_VARIABLE then Err(CategoricalVariable)
    else if !OccurrenceNames(matched) then Err(CategoricalLabel)
    else
      var scores := M.CategoricalMetrics(Labels(matched), M.Text(OCCURRENCE));
      if scores.Err? then Err(BadMetrics(scores.error)) else Ok(CategoricalScores(scores.value))
  }

  /** No metric refuses a row its record type accepted. */
  lemma MetricsNeverRefuse(variable: string, kind: Kind, matched: seq<Match>)
    requires Comparable(kind, matched)
    ensures var r := ScoresOf(variable, kind, matched);
      r.Err? <==> kind == Selection.Categorical && matched != [] && (variable != OCCURRENCE_VARIABLE || !OccurrenceNames(matched))
  {
    if kind == Selection.Categorical && matched != [] {
      assert OCCURRENCE[0] !in " \t\r\n";
    }
  }

  /* ---------- cohorts ---------- */

  datatype CohortKey = CohortKey(product: string, variable: string, vintage: Vintage, validAt: int, kind: Kind, unit: string)

  function KeyOf(s: SelectedVintage): CohortKey {
    var f := s.forecast;
    CohortKey(f.series.product, f.series.variable, s.vintage, f.series.validAt, f.kind, f.unit)
  }

  /** The kinds' names sort like these numbers. */
  function KindRank(kind: Kind): int {
    match kind
    case Binary => 0
    case Categorical => 1
    case Continuous => 2
    case Probability => 3
  }

  function CohortOrder(key: CohortKey): seq<Part> {
    [Word(key.product), Word(key.variable), Number(Days(key.vintage)), Number(key.validAt), Number(KindRank(key.kind)), Word(key.unit)]
  }

  datatype Cohort = Cohort(
    key: CohortKey, expected: nat, sample: nat,
    missingTruth: nat, incompatibleUnit: nat, incompatibleKind: nat,
    evidence: Evidence, scores: Scores, sources: set<string>, revisions: set<string>)

  datatype Report = Report(cohorts: seq<Cohort>, gapCounts: map<Vintage, nat>, truth: TruthResolution)

  /** The truths are valid, and each is indexed by the spot it is at. */
  ghost predicate ValidIndex(truths: map<Spot, ObservationTruth>) {
    forall spot :: spot in truths ==> ValidTruth(truths[spot]) && TruthSpot(truths[spot]) == spot
  }

  ghost predicate Members(key: CohortKey, members: seq<SelectedVintage>) {
    forall s :: s in members ==> KeyOf(s) == key && ValidForecast(s.forecast)
  }

  lemma {:induction false} MatchesAreComparable(key: CohortKey, members: seq<SelectedVintage>, truths: map<Spot, ObservationTruth>)
    requires Members(key, members) && ValidIndex(truths) && key.kind != Binary
    ensures Comparable(key.kind, Matches(members, truths))
    ensures forall m :: m in Matches(members, truths) ==>
      && ForecastSpot(m.forecast) == TruthSpot(m.truth) && m.forecast.unit == m.truth.unit
      && ForecastSpot(m.forecast) in truths && truths[ForecastSpot(m.forecast)] == m.truth
  {
    if members != [] {
      MatchesAreComparable(key, members[..|members| - 1], truths);
      assert members[|members| - 1] in members;
    }
  }

  function SourcesOf(matched: seq<Match>): set<string> { set m | m in matched :: m.truth.place.source }

  function RevisionsOf(matched: seq<Match>): set<string> { set m | m in matched :: m.truth.revision }

  predicate AnyProvisional(matched: seq<Match>) { exists m :: m in matched && m.truth.quality == Provisional }

  function CohortOf(key: CohortKey, members: seq<SelectedVintage>, truths: map<Spot, ObservationTruth>, expected: nat): Result<Cohort, Error>
    requires Members(key, members) && ValidIndex(truths) && key.kind != Binary
  {
    MatchesAreComparable(key, members, truths);
    var matched := Matches(members, truths);
    var scores := ScoresOf(key.variable, key.kind, matched);
    if scores.Err? then Err(scores.error)
    else Ok(Cohort(
      key, expected, |matched|,
      Losses(members, truths, MissingTruth), Losses(members, truths, IncompatibleUnit), Losses(members, truths, IncompatibleKind),
      EvidenceState(|matched|, expected, AnyProvisional(matched)), scores.value, SourcesOf(matched), RevisionsOf(matched)))
  }

  /** Every selected forecast of the cohort is scored or excluded for exactly one reason. */
  lemma {:induction false} CohortConserves(members: seq<SelectedVintage>, truths: map<Spot, ObservationTruth>)
    ensures |Matches(members, truths)| + Losses(members, truths, MissingTruth)
      + Losses(members, truths, IncompatibleUnit) + Losses(members, truths, IncompatibleKind) == |members|
  {
    if members != [] {
      CohortConserves(members[..|members| - 1], truths);
    }
  }

  /* ---------- cohorts against the universe and the selection ---------- */

  ghost predicate WithinUniverse(selected: seq<SelectedVintage>, grids: set<string>) {
    forall s :: s in selected ==> s.forecast.series.grid in grids
  }

  function GridOf(s: SelectedVintage): string { s.forecast.series.grid }

  /** Within a cohort no grid occurs twice, so a cohort is no larger than the universe. */
  lemma CohortFits(forecasts: seq<ForecastVintage>, v: VintageSelection, key: CohortKey, grids: set<string>)
    requires Selects(forecasts, Ok(v)) && WithinUniverse(v.selected, grids)
    ensures |Having(v.selected, KeyOf, key)| <= |grids|
  {
    hide KeyLe, Sorted, Eligible;
    var members := Having(v.selected, KeyOf, key);
    HavingDistinct(v.selected, KeyOf, key);
    DistinctSize(members);
    forall x, y | x in RowSet(members) && y in RowSet(members) && GridOf(x) == GridOf(y) ensures x == y {
      assert Wins(forecasts, x.vintage, x.forecast) && Wins(forecasts, y.vintage, y.forecast);
      assert x.forecast.series == y.forecast.series && x.vintage == y.vintage;
      WinnerIsUnique(forecasts, x.vintage, x.forecast, y.forecast);
    }
    ImageSize(RowSet(members), GridOf);
    SubsetSize(ImageOf(RowSet(members), GridOf), grids);
  }

  /** So coverage, the sample over the universe, is at most one. */
  lemma CoverageAtMostOne(
      forecasts: seq<ForecastVintage>, v: VintageSelection, key: CohortKey, grids: set<string>, truths: map<Spot, ObservationTruth>)
    requires Selects(forecasts, Ok(v)) && WithinUniverse(v.selected, grids) && ValidIndex(truths) && key.kind != Binary
    requires Members(key, Having(v.selected, KeyOf, key))
    requires CohortOf(key, Having(v.selected, KeyOf, key), truths, |grids|).Ok?
    ensures var c := CohortOf(key, Having(v.selected, KeyOf, key), truths, |grids|).value;
      && c.sample + c.missingTruth + c.incompatibleUnit + c.incompatibleKind == |Having(v.selected, KeyOf, key)|
      && c.sample <= c.expected
  {
    hide Selects, Losses, Matches, ScoresOf;
    CohortFits(forecasts, v, key, grids);
    CohortConserves(Having(v.selected, KeyOf, key), truths);
  }

  function SizeOfAll(selected: seq<SelectedVintage>, keys: seq<CohortKey>): nat {
    if keys == [] then 0 else |Having(selected, KeyOf, keys[0])| + SizeOfAll(selected, keys[1..])
  }

  lemma {:induction false} SizeGrows(selected: seq<SelectedVintage>, s: SelectedVintage, keys: seq<CohortKey>)
    requires Distinct(keys)
    ensures SizeOfAll(selected + [s], keys) == SizeOfAll(selected, keys) + if KeyOf(s) in keys then 1 else 0
  {
    if keys != [] {
      var more := selected + [s];
      assert more[..|more| - 1] == selected;
      SizeGrows(selected, s, keys[1..]);
    }
  }

  /** Every selected forecast is in exactly one cohort. */
  lemma {:induction false} CohortsPartition(selected: seq<SelectedVintage>, keys: seq<CohortKey>)
    requires Distinct(keys) && forall s :: s in selected ==> KeyOf(s) in keys
    ensures SizeOfAll(selected, keys) == |selected|
    decreases |selected|, |keys|
  {
    if selected != [] {
      var last, before := selected[|selected| - 1], selected[..|selected| - 1];
      assert selected == before + [last];
      SizeGrows(before, last, keys);
      CohortsPartition(before, keys);
    } else if keys != [] {
      CohortsPartition(selected, keys[1..]);
    }
  }

  /* ---------- the evaluation ---------- */

  /** Two accepted truths at one spot. */
  ghost predicate Ambiguous(truths: seq<ObservationTruth>) {
    exists t, u :: t in truths && u in truths && TruthSpot(t) == TruthSpot(u) && t.place.source != u.place.source
  }

  function TruthIndex(truths: seq<ObservationTruth>): map<Spot, ObservationTruth> {
    if truths == [] then map[]
    else
      var last := truths[|truths| - 1];
      TruthIndex(truths[..|truths| - 1])[TruthSpot(last) := last]
  }

  lemma {:induction false} IndexIsValid(truths: seq<ObservationTruth>)
    requires forall t :: t in truths ==> ValidTruth(t)
    ensures ValidIndex(TruthIndex(truths))
  {
    if truths != [] {
      IndexIsValid(truths[..|truths| - 1]);
      assert truths[|truths| - 1] in truths;
    }
  }

  ghost predicate Usable(selected: seq<SelectedVintage>) { forall s :: s in selected ==> ValidForecast(s.forecast) }

  function CohortsOf(selected: seq<SelectedVintage>, truths: map<Spot, ObservationTruth>, expected: nat, keys: seq<CohortKey>)
      : (r: Result<seq<Cohort>, Error>)
    requires Usable(selected) && ValidIndex(truths) && forall key :: key in keys ==> key.kind != Binary
  {
    if keys == [] then Ok([])
    else
      var before := CohortsOf(selected, truths, expected, keys[..|keys| - 1]);
      if before.Err? then before
      else
        var key := keys[|keys| - 1];
        var cohort := CohortOf(key, Having(selected, KeyOf, key), truths, expected);
        if cohort.Err? then Err(cohort.error) else Ok(before.value + [cohort.value])
  }

  /** The cohorts' keys, each once, in the order the report lists them. */
  ghost predicate KeyList(selected: seq<SelectedVintage>, keys: seq<CohortKey>) {
    Distinct(keys) && Sorted(keys, CohortOrder) && forall key :: key in keys <==> key in KeysOf(selected, KeyOf)
  }

  function GapCount(gaps: seq<VintageGap>, vintage: Vintage): nat {
    if gaps == [] then 0 else GapCount(gaps[..|gaps| - 1], vintage) + if gaps[|gaps| - 1].vintage == vintage then 1 else 0
  }

  function GapCounts(gaps: seq<VintageGap>): map<Vintage, nat> {
    map[D1 := GapCount(gaps, D1), D2 := GapCount(gaps, D2), D3 := GapCount(gaps, D3)]
  }

  lemma {:induction false} GapsAreCounted(gaps: seq<VintageGap>)
    ensures GapCount(gaps, D1) + GapCount(gaps, D2) + GapCount(gaps, D3) == |gaps|
  {
    if gaps != [] {
      GapsAreCounted(gaps[..|gaps| - 1]);
      EveryVintage(gaps[|gaps| - 1].vintage);
    }
  }

  /** The report on one selection and one resolution. */
  ghost predicate Assesses(v: VintageSelection, t: TruthResolution, grids: set<string>, keys: seq<CohortKey>, r: Result<Report, Error>)
    requires Usable(v.selected) && forall truth :: truth in t.selected ==> ValidTruth(truth)
  {
    KeyList(v.selected, keys) && (
      if Ambiguous(t.selected) then r == Err(AmbiguousSource)
      else if !WithinUniverse(v.selected, grids) then r == Err(ForeignGrid)
      else
        KeysAreUsable(v.selected, keys);
        IndexIsValid(t.selected);
        var cohorts := CohortsOf(v.selected, TruthIndex(t.selected), |grids|, keys);
        r == if cohorts.Err? then Err(cohorts.error) else Ok(Report(cohorts.value, GapCounts(v.gaps), t)))
  }

  lemma KeysAreUsable(selected: seq<SelectedVintage>, keys: seq<CohortKey>)
    requires Usable(selected) && KeyList(selected, keys)
    ensures forall key :: key in keys ==> key.kind != Binary
  {
  }

  ghost predicate ValidInput(forecasts: seq<ForecastVintage>, observations: seq<ObservationTruth>) {
    (forall f :: f in forecasts ==> ValidForecast(f)) && forall t :: t in observations ==> ValidTruth(t)
  }

  /** Everything evaluate_forecast_quality promises, through what selection and resolution promise. */
  ghost predicate Evaluates(
      forecasts: seq<ForecastVintage>, observations: seq<ObservationTruth>, grids: set<string>, now: int,
      rv: Result<VintageSelection, Selection.Error>, rt: Result<TruthResolution, Selection.Error>,
      keys: seq<CohortKey>, r: Result<Report, Error>)
    requires ValidInput(forecasts, observations)
  {
    if forecasts == [] then r == Err(NoForecasts)
    else
      Selects(forecasts, rv) && (
        if rv.Err? then r == Err(BadForecasts(rv.error))
        else
          Resolves(observations, now, rt) && (
            if rt.Err? then r == Err(BadTruth(rt.error))
            else
              Assesses(rv.value, rt.value, grids, keys, r)))
  }

  lemma KeyListIsUnique(selected: seq<SelectedVintage>, a: seq<CohortKey>, b: seq<CohortKey>)
    requires KeyList(selected, a) && KeyList(selected, b)
    ensures a == b
  {
    hide KeyLe, Sorted;
    forall x, y | x in a && y in a && CohortOrder(x) == CohortOrder(y) ensures x == y {
    }
    SameRowsSameTable(a, b, CohortOrder);
  }

  /** Reordering forecasts and observations changes nothing in the report or the refusal. */
  lemma EvaluationIgnoresOrder(
      fa: seq<ForecastVintage>, fb: seq<ForecastVintage>, oa: seq<ObservationTruth>, ob: seq<ObservationTruth>,
      grids: set<string>, now: int,
      va: Result<VintageSelection, Selection.Error>, vb: Result<VintageSelection, Selection.Error>,
      ta: Result<TruthResolution, Selection.Error>, tb: Result<TruthResolution, Selection.Error>,
      ka: seq<CohortKey>, kb: seq<CohortKey>, ra: Result<Report, Error>, rb: Result<Report, Error>)
    requires multiset(fa) == multiset(fb) && multiset(oa) == multiset(ob)
    requires ValidInput(fa, oa) && ValidInput(fb, ob)
    requires Evaluates(fa, oa, grids, now, va, ta, ka, ra) && Evaluates(fb, ob, grids, now, vb, tb, kb, rb)
    ensures ra == rb
  {
    hide Selects, Resolves, KeyList, CohortsOf, Ambiguous, WithinUniverse, GapCounts, TruthIndex;
    SameMembers(fa, fb);
    if fa == [] {
      assert |multiset(fb)| == 0;
    } else {
      assert fa[0] in fb;
      OrderDoesNotMatter(fa, fb, va, vb);
      if va.Ok? {
        TruthOrderDoesNotMatter(oa, ob, now, ta, tb);
        if ta.Ok? {
          KeyListIsUnique(va.value.selected, ka, kb);
        }
      }
    }
  }

  /** Observations dated or collected after the evaluation change no cohort and no refusal. */
  lemma EvaluationIsBlindToTheFuture(
      forecasts: seq<ForecastVintage>, observations: seq<ObservationTruth>, extra: seq<ObservationTruth>,
      grids: set<string>, now: int,
      va: Result<VintageSelection, Selection.Error>, vb: Result<VintageSelection, Selection.Error>,
      ta: Result<TruthResolution, Selection.Error>, tb: Result<TruthResolution, Selection.Error>,
      ka: seq<CohortKey>, kb: seq<CohortKey>, ra: Result<Report, Error>, rb: Result<Report, Error>)
    requires ValidInput(forecasts, observations) && ValidInput(forecasts, observations + extra)
    requires Unrepeated(observations + extra, TruthIdentity) && forall e :: e in extra ==> !Visible(e, now)
    requires Evaluates(forecasts, observations, grids, now, va, ta, ka, ra)
    requires Evaluates(forecasts, observations + extra, grids, now, vb, tb, kb, rb)
    ensures ra.Ok? <==> rb.Ok?
    ensures ra.Ok? ==> ra.value.cohorts == rb.value.cohorts && ra.value.gapCounts == rb.value.gapCounts
    ensures ra.Err? ==> ra == rb
  {
    hide Selects, Resolves, KeyList, CohortsOf, Ambiguous, WithinUniverse, GapCounts, TruthIndex;
    if forecasts != [] {
      OrderDoesNotMatter(forecasts, forecasts, va, vb);
      if va.Ok? {
        BlindToTheFuture(observations, extra, now, ta, tb);
        if ta.Ok? {
          KeyListIsUnique(va.value.selected, ka, kb);
        } else {
          OnlyConflictsRemain(observations, extra, now, ta, tb);
        }
      }
    }
  }

  lemma OnlyConflictsRemain(
      observations: seq<ObservationTruth>, extra: seq<ObservationTruth>, now: int,
      ta: Result<TruthResolution, Selection.Error>, tb: Result<TruthResolution, Selection.Error>)
    requires Resolves(observations, now, ta) && Resolves(observations + extra, now, tb) && ta.Err? && tb.Err?
    requires Unrepeated(observations + extra, TruthIdentity)
    ensures ta == tb
  {
    forall i, j | 0 <= i < j < |observations| ensures TruthIdentity(observations[i]) != TruthIdentity(observations[j]) {
      assert observations[i] == (observations + extra)[i] && observations[j] == (observations + extra)[j];
    }
  }

  /* ---------- the whole report conserves the forecasts ---------- */

  /** What the cohorts of a report account for. */
  function Accounted(cohorts: seq<Cohort>): nat {
    if cohorts == [] then 0
    else
      var c := cohorts[|cohorts| - 1];
      Accounted(cohorts[..|cohorts| - 1]) + c.sample + c.missingTruth + c.incompatibleUnit + c.incompatibleKind
  }

  lemma {:induction false} SizeOfAllLast(selected: seq<SelectedVintage>, keys: seq<CohortKey>)
    requires keys != []
    ensures SizeOfAll(selected, keys)
      == SizeOfAll(selected, keys[..|keys| - 1]) + |Having(selected, KeyOf, keys[|keys| - 1])|
  {
    if |keys| > 1 {
      SizeOfAllLast(selected, keys[1..]);
      assert keys[1..][..|keys| - 2] == keys[..|keys| - 1][1..];
    }
  }

  lemma {:induction false} CohortsAccount(selected: seq<SelectedVintage>, truths: map<Spot, ObservationTruth>, expected: nat, keys: seq<CohortKey>)
    requires Usable(selected) && ValidIndex(truths) && forall key :: key in keys ==> key.kind != Binary
    requires CohortsOf(selected, truths, expected, keys).Ok?
    requires forall key :: key in keys ==> |Having(selected, KeyOf, key)| <= expected
    ensures var cohorts := CohortsOf(selected, truths, expected, keys).value;
      Accounted(cohorts) == SizeOfAll(selected, keys) && forall c :: c in cohorts ==> c.sample <= c.expected == expected
  {
    hide Losses, Matches, ScoresOf, ValidForecast, ValidTruth;
    if keys != [] {
      var key, before := keys[|keys| - 1], keys[..|keys| - 1];
      CohortsAccount(selected, truths, expected, before);
      CohortConserves(Having(selected, KeyOf, key), truths);
      SizeOfAllLast(selected, keys);
      var cohorts := CohortsOf(selected, truths, expected, keys).value;
      assert cohorts[..|cohorts| - 1] == CohortsOf(selected, truths, expected, before).value;
    }
  }

  /**
   Every series of the input has three entries, and every entry is in the report: as a gap, as a
   sample, or as an exclusion. No sample is larger than the universe.
   */
  lemma ReportConserves(
      forecasts: seq<ForecastVintage>, v: VintageSelection, t: TruthResolution, grids: set<string>, keys: seq<CohortKey>,
      r: Result<Report, Error>)
    requires Selects(forecasts, Ok(v)) && |v.selected| + |v.gaps| == 3 * |KeysOf(forecasts, SeriesOf)|
    requires Usable(v.selected) && forall truth :: truth in t.selected ==> ValidTruth(truth)
    requires Assesses(v, t, grids, keys, r) && r.Ok?
    ensures Accounted(r.value.cohorts) + r.value.gapCounts[D1] + r.value.gapCounts[D2] + r.value.gapCounts[D3]
      == 3 * |KeysOf(forecasts, SeriesOf)|
    ensures forall c :: c in r.value.cohorts ==> c.sample <= c.expected == |grids|
  {
    hide Selects, Accounted, CohortsOf, GapCount, Ambiguous, TruthIndex, ValidForecast, ValidTruth;
    KeysAreUsable(v.selected, keys);
    IndexIsValid(t.selected);
    forall key ensures |Having(v.selected, KeyOf, key)| <= |grids| {
      CohortFits(forecasts, v, key, grids);
    }
    CohortsAccount(v.selected, TruthIndex(t.selected), |grids|, keys);
    ListedKeysCover(v.selected, keys);
    CohortsPartition(v.selected, keys);
    GapsAreCounted(v.gaps);
  }

  lemma ListedKeysCover(selected: seq<SelectedVintage>, keys: seq<CohortKey>)
    requires KeyList(selected, keys)
    ensures Distinct(keys) && forall s :: s in selected ==> KeyOf(s) in keys
  {
    forall s | s in selected ensures KeyOf(s) in keys {
      assert KeyOf(s) in KeysOf(selected, KeyOf);
    }
  }

  /* ---------- the loops ---------- */

  method FindAmbiguity(selected: seq<ObservationTruth>) returns (ambiguous: bool)
    ensures ambiguous <==> Ambiguous(selected)
  {
    hide TruthSpot;
    var sources: map<Spot, set<string>> := map[];
    for i := 0 to |selected|
      invariant sources.Keys == KeysOf(selected[..i], TruthSpot)
      invariant forall spot :: spot in sources ==> sources[spot] == SourcesAt(selected[..i], spot)
    {
      var row := selected[i];
      var spot := TruthSpot(row);
      assert selected[..i + 1] == selected[..i] + [row];
      KeysOfStep(selected, i, TruthSpot);
      sources := sources[spot := (if spot in sources then sources[spot] else {}) + {row.place.source}];
    }
    assert selected[..|selected|] == selected;
    ambiguous := exists spot :: spot in sources && |sources[spot]| > 1;
    if ambiguous {
      var spot :| spot in sources && |sources[spot]| > 1;
      TwoMembers(sources[spot]);
    } else {
      forall t, u | t in selected && u in selected && TruthSpot(t) == TruthSpot(u) ensures t.place.source == u.place.source {
        assert TruthSpot(t) in sources && |sources[TruthSpot(t)]| <= 1;
        AtMostOneMember(sources[TruthSpot(t)], t.place.source, u.place.source);
      }
    }
  }

  ghost function SourcesAt(rows: seq<ObservationTruth>, spot: Spot): set<string> {
    set t | t in rows && TruthSpot(t) == spot :: t.place.source
  }

  method IndexTruth(selected: seq<ObservationTruth>) returns (index: map<Spot, ObservationTruth>)
    ensures index == TruthIndex(selected)
  {
    index := map[];
    for i := 0 to |selected|
      invariant index == TruthIndex(selected[..i])
    {
      assert selected[..i + 1][..i] == selected[..i];
      index := index[TruthSpot(selected[i]) := selected[i]];
    }
    assert selected[..|selected|] == selected;
  }

  method AssessCohort(key: CohortKey, members: seq<SelectedVintage>, truths: map<Spot, ObservationTruth>, expected: nat)
      returns (r: Result<Cohort, Error>)
    requires Members(key, members) && ValidIndex(truths) && key.kind != Binary
    ensures r == CohortOf(key, members, truths, expected)
  {
    hide ScoresOf, EvidenceState, ValidForecast, ValidTruth;
    var matched, missing, unit, kind := [], 0, 0, 0;
    var provisional, sources, revisions := false, {}, {};
    for i := 0 to |members|
      invariant matched == Matches(members[..i], truths)
      invariant missing == Losses(members[..i], truths, MissingTruth)
      invariant unit == Losses(members[..i], truths, IncompatibleUnit)
      invariant kind == Losses(members[..i], truths, IncompatibleKind)
      invariant provisional == AnyProvisional(matched)
      invariant sources == SourcesOf(matched) && revisions == RevisionsOf(matched)
    {
      assert members[..i + 1][..i] == members[..i];
      var forecast := members[i].forecast;
      match FateOf(forecast, truths) {
        case MissingTruth => missing := missing + 1;
        case IncompatibleUnit => unit := unit + 1;
        case IncompatibleKind => kind := kind + 1;
        case Matched(truth) =>
          matched := matched + [Match(forecast, truth)];
          provisional := provisional || truth.quality == Provisional;
          sources := sources + {truth.place.source};
          revisions := revisions + {truth.revision};
      }
    }
    assert members[..|members|] == members;
    MatchesAreComparable(key, members, truths);
    var evidence := EvidenceState(|matched|, expected, provisional);
    var scores := ScoresOf(key.variable, key.kind, matched);
    if scores.Err? { return Err(scores.error); }
    return Ok(Cohort(key, expected, |matched|, missing, unit, kind, evidence, scores.value, sources, revisions));
  }

  method SortedKeys(members: set<CohortKey>) returns (keys: seq<CohortKey>)
    ensures Distinct(keys) && Sorted(keys, CohortOrder) && forall key :: key in keys <==> key in members
  {
    hide KeyLe;
    var pending, listed := members, [];
    while pending != {}
      invariant pending <= members && Distinct(listed)
      invariant forall key :: key in listed <==> key in members - pending
    {
      var key :| key in pending;
      DistinctJoin(listed, [key]);
      listed := listed + [key];
      pending := pending - {key};
    }
    keys := SortBy(listed, CohortOrder);
    SameMembers(keys, listed);
  }

  method Evaluate(forecasts: seq<ForecastVintage>, observations: seq<ObservationTruth>, grids: set<string>, now: int)
      returns (r: Result<Report, Error>,
               ghost rv: Result<VintageSelection, Selection.Error>, ghost rt: Result<TruthResolution, Selection.Error>,
               ghost keys: seq<CohortKey>)
    requires ValidInput(forecasts, observations)
    ensures Evaluates(forecasts, observations, grids, now, rv, rt, keys, r)
    ensures forecasts == [] ==> r == Err(NoForecasts)
    ensures r.Ok? ==> r.value.gapCounts.Keys == {D1, D2, D3}
    ensures r.Ok? ==>
      Accounted(r.value.cohorts) + r.value.gapCounts[D1] + r.value.gapCounts[D2] + r.value.gapCounts[D3]
      == 3 * |KeysOf(forecasts, SeriesOf)|
    ensures r.Ok? ==> forall c :: c in r.value.cohorts ==> c.sample <= c.expected == |grids|
  {
    hide Selects, Resolves, CohortsOf, GapCounts, TruthIndex;
    rv, rt, keys := Err(DuplicateForecast), Err(DuplicateTruth), [];
    if forecasts == [] { return Err(NoForecasts), rv, rt, keys; }
    var selection := SelectForecastVintages(forecasts);
    rv := selection;
    if selection.Err? { return Err(BadForecasts(selection.error)), rv, rt, keys; }
    var resolution := ResolveObservationTruth(observations, now);
    rt := resolution;
    if resolution.Err? { return Err(BadTruth(resolution.error)), rv, rt, keys; }
    SelectsIsSelection(forecasts, selection.value);
    ResolvesIsResolution(observations, now, resolution.value);
    var answer, listed := Assess(selection.value, resolution.value, grids);
    if answer.Ok? {
      ReportConserves(forecasts, selection.value, resolution.value, grids, listed, answer);
      ThreeGapCounts(selection.value.gaps);
    }
    return answer, rv, rt, listed;
  }

  lemma ThreeGapCounts(gaps: seq<VintageGap>)
    ensures GapCounts(gaps).Keys == {D1, D2, D3}
  {
    hide GapCount;
    assert GapCounts(gaps).Keys == {D1, D2, D3};
  }

  lemma SelectsIsSelection(forecasts: seq<ForecastVintage>, v: VintageSelection)
    requires Selects(forecasts, Ok(v))
    ensures IsSelection(forecasts, v)
  {
  }

  lemma ResolvesIsResolution(observations: seq<ObservationTruth>, now: int, t: TruthResolution)
    requires Resolves(observations, now, Ok(t))
    ensures IsResolution(observations, now, t)
  {
  }

  method Assess(v: VintageSelection, t: TruthResolution, grids: set<string>) returns (r: Result<Report, Error>, keys: seq<CohortKey>)
    requires Usable(v.selected) && forall truth :: truth in t.selected ==> ValidTruth(truth)
    ensures Assesses(v, t, grids, keys, r)
  {
    hide CohortOf, GapCounts, TruthIndex, Ambiguous, ValidTruth, ValidForecast;
    var groups := GroupBy(v.selected, KeyOf);
    keys := SortedKeys(groups.Keys);
    var ambiguous := FindAmbiguity(t.selected);
    if ambiguous { return Err(AmbiguousSource), keys; }
    var truths := IndexTruth(t.selected);
    if foreign :| foreign in v.selected && foreign.forecast.series.grid !in grids { return Err(ForeignGrid), keys; }
    KeysAreUsable(v.selected, keys);
    IndexIsValid(t.selected);
    var cohorts := [];
    for i := 0 to |keys|
      invariant CohortsOf(v.selected, truths, |grids|, keys[..i]) == Ok(cohorts)
    {
      var key := keys[i];
      assert keys[..i + 1][..i] == keys[..i];
      var cohort := AssessCohort(key, groups[key], truths, |grids|);
      if cohort.Err? {
        ErrorStops(v.selected, truths, |grids|, keys, i, cohort.error);
        return Err(cohort.error), keys;
      }
      cohorts := cohorts + [cohort.value];
    }
    assert keys[..|keys|] == keys;
    return Ok(Report(cohorts, GapCounts(v.gaps), t)), keys;
  }

  /** The first cohort that cannot be scored decides the refusal. */
  lemma {:induction false} ErrorStops(
      selected: seq<SelectedVintage>, truths: map<Spot, ObservationTruth>, expected: nat, keys: seq<CohortKey>, i: nat, error: Error)
    requires Usable(selected) && ValidIndex(truths) && i < |keys| && forall key :: key in keys ==> key.kind != Binary
    requires CohortsOf(selected, truths, expected, keys[..i]).Ok?
    requires CohortOf(keys[i], Having(selected, KeyOf, keys[i]), truths, expected) == Err(error)
    ensures CohortsOf(selected, truths, expected, keys) == Err(error)
    decreases |keys|
  {
    hide CohortOf, ValidForecast, ValidTruth, KeyOf, TruthSpot;
    var before := keys[..|keys| - 1];
    if i < |before| {
      assert before[..i] == keys[..i];
      ErrorStops(selected, truths, expected, before, i, error);
    } else {
      assert before == keys[..i];
    }
  }
}
