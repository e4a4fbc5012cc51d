/**
 Which source issues a collection run may work on, and the one it picks.
 Mirrors eligible_issues and the selection in collect_hosted, tools/weather_collect_hosted.py.
 Times are integer seconds of the fixed +9 h local clock.
 */
module IssueWindow {
  import opened Basics
  import opened Tables

  const MINUTE := 60
  const HOUR := 3600
  const DAY := 24 * HOUR
  const BASE_HOURS := [2, 5, 8, 11, 14, 17, 20, 23]

  /* ---------- eligible issues ---------- */

  /** Issues are three hours apart, at 02, 05, ..., 23 o'clock. */
  predicate IsIssueTime(t: int) { t % (3 * HOUR) == 2 * HOUR }

  predicate InWindow(t: int, now: int) { now - DAY < t <= now - 40 * MINUTE }

  predicate Ascending(issues: seq<int>) { forall i, j :: 0 <= i < j < |issues| ==> issues[i] < issues[j] }

  ghost predicate EligibleIssues(issues: seq<int>, now: int) {
    Ascending(issues) && forall t :: t in issues <==> IsIssueTime(t) && InWindow(t, now)
  }

  /** The `k`th issue time after the start of yesterday. */
  function Slot(now: int, k: int): int { (now / DAY - 1) * DAY + 2 * HOUR + k * 3 * HOUR }

  lemma SlotsAreIssueTimes(now: int, t: int)
    requires (now / DAY - 1) * DAY <= t < (now / DAY + 1) * DAY && IsIssueTime(t)
    ensures exists k :: 0 <= k < 16 && t == Slot(now, k)
  {
    hide IsIssueTime;
    var q := IssueQuotient(t);
    SlotOfQuotient(now / DAY - 1, now, t, q);
  }

  lemma SlotOfQuotient(yesterday: int, now: int, t: int, q: int)
    requires yesterday == now / DAY - 1 && t == 3 * HOUR * q + 2 * HOUR
    requires yesterday * DAY <= t < (yesterday + 2) * DAY
    ensures exists k :: 0 <= k < 16 && t == Slot(now, k)
  {
    var k := q - 8 * yesterday;
    assert 0 <= k < 16 && t == Slot(now, k);
  }

  lemma AppendAscends(issues: seq<int>, t: int)
    requires Ascending(issues) && forall s :: s in issues ==> s < t
    ensures Ascending(issues + [t])
  {
    var more := issues + [t];
    forall i, j | 0 <= i < j < |more| ensures more[i] < more[j] {
      assert more[i] in issues;
    }
  }

  method FindEligibleIssues(now: int) returns (issues: seq<int>)
    ensures EligibleIssues(issues, now)
    ensures 7 <= |issues| <= 8
  {
    issues := [];
    ghost var passed := 0;
    for offset := 0 to 2
      invariant passed == 8 * offset
      invariant Ascending(issues)
      invariant forall t :: t in issues <==> Reached(now, passed, t)
    {
      var day := (now - (1 - offset) * DAY) / DAY;
      for h := 0 to |BASE_HOURS|
        invariant passed == 8 * offset + h
        invariant Ascending(issues)
        invariant forall t :: t in issues <==> Reached(now, passed, t)
      {
        var issue := day * DAY + BASE_HOURS[h] * HOUR;
        assert BASE_HOURS[h] == 2 + 3 * h;
        assert issue == Slot(now, passed);
        AppendAscends(issues, issue);
        if now - DAY < issue <= now - 40 * MINUTE {
          issues := issues + [issue];
        }
        passed := passed + 1;
      }
    }
    AllReached(now);
    WindowHoldsSevenOrEight(now, issues);
  }

  /** `t` is one of the first `passed` slots and inside the window. */
  ghost predicate Reached(now: int, passed: int, t: int) {
    InWindow(t, now) && exists k :: 0 <= k < passed && t == Slot(now, k)
  }

  lemma SlotIsIssueTime(now: int, k: int)
    ensures IsIssueTime(Slot(now, k))
  {
    hide IsIssueTime;
    var q := 8 * (now / DAY - 1) + k;
    IssueAt(q);
    assert Slot(now, k) == 3 * HOUR * q + 2 * HOUR;
  }

  lemma WindowIsInTwoDays(now: int, t: int)
    requires InWindow(t, now)
    ensures (now / DAY - 1) * DAY <= t < (now / DAY + 1) * DAY
  {
  }

  lemma AllReached(now: int)
    ensures forall t :: Reached(now, 16, t) <==> IsIssueTime(t) && InWindow(t, now)
  {
    hide IsIssueTime, Slot, InWindow;
    forall t | IsIssueTime(t) && InWindow(t, now) ensures Reached(now, 16, t) {
      WindowIsInTwoDays(now, t);
      SlotsAreIssueTimes(now, t);
    }
    forall t | Reached(now, 16, t) ensures IsIssueTime(t) {
      var k :| 0 <= k < 16 && t == Slot(now, k);
      SlotIsIssueTime(now, k);
    }
  }

  /** `t` is `j` issues before `last`. */
  predicate Before(last: int, t: int, j: int) { t == last - j * (3 * HOUR) }

  /** The `n` issue times up to `last`. */
  function Recent(last: int, n: nat): (r: set<int>)
    ensures |r| == n
    ensures forall t :: t in r <==> exists j :: 0 <= j < n && Before(last, t, j)
  {
    if n == 0 then {}
    else
      assert Before(last, last - (n - 1) * (3 * HOUR), n - 1);
      Recent(last, n - 1) + {last - (n - 1) * (3 * HOUR)}
  }

  /** So the window is never empty: it always holds seven or eight issues. */
  lemma WindowHoldsSevenOrEight(now: int, issues: seq<int>)
    requires EligibleIssues(issues, now)
    ensures 7 <= |issues| <= 8
  {
    var end := now - 40 * MINUTE;
    var last := end - (end - 2 * HOUR) % (3 * HOUR);
    LastIssue(end, last);
    forall t | t in issues ensures t in Recent(last, 8) {
      IssueIsRecent(now, last, t);
    }
    forall t | t in Recent(last, 7) ensures t in issues {
      RecentIsIssue(now, last, t);
    }
    assert Distinct(issues);
    DistinctSize(issues);
    SubsetSize(RowSet(issues), Recent(last, 8));
    SubsetSize(Recent(last, 7), RowSet(issues));
  }

  lemma LastIssue(end: int, last: int)
    requires last == end - (end - 2 * HOUR) % (3 * HOUR)
    ensures IsIssueTime(last) && end - 3 * HOUR < last <= end
  {
    hide IsIssueTime;
    var q := (end - 2 * HOUR) / (3 * HOUR);
    IssueAt(q);
    assert last == 3 * HOUR * q + 2 * HOUR;
  }

  lemma IssueQuotient(t: int) returns (q: int)
    ensures IsIssueTime(t) ==> t == 3 * HOUR * q + 2 * HOUR
  {
    q := t / (3 * HOUR);
  }

  lemma IssueAt(q: int)
    ensures IsIssueTime(3 * HOUR * q + 2 * HOUR)
  {
  }

  lemma IssueIsRecent(now: int, last: int, t: int)
    requires IsIssueTime(t) && InWindow(t, now)
    requires IsIssueTime(last) && now - 40 * MINUTE - 3 * HOUR < last <= now - 40 * MINUTE
    ensures t in Recent(last, 8)
  {
    hide IsIssueTime;
    var p := IssueQuotient(t);
    var q := IssueQuotient(last);
    QuotientsNear(now, last, t, p, q);
  }

  lemma QuotientsNear(now: int, last: int, t: int, p: int, q: int)
    requires t == 3 * HOUR * p + 2 * HOUR && last == 3 * HOUR * q + 2 * HOUR && InWindow(t, now)
    requires now - 40 * MINUTE - 3 * HOUR < last <= now - 40 * MINUTE
    ensures 0 <= q - p < 8 && Before(last, t, q - p)
  {
  }

  lemma RecentIsIssue(now: int, last: int, t: int)
    requires t in Recent(last, 7)
    requires IsIssueTime(last) && now - 40 * MINUTE - 3 * HOUR < last <= now - 40 * MINUTE
    ensures IsIssueTime(t) && InWindow(t, now)
  {
    var j :| 0 <= j < 7 && Before(last, t, j);
    IssueBefore(now, last, t, j);
  }

  lemma IssueBefore(now: int, last: int, t: int, j: int)
    requires 0 <= j < 7 && Before(last, t, j)
    requires IsIssueTime(last) && now - 40 * MINUTE - 3 * HOUR < last <= now - 40 * MINUTE
    ensures IsIssueTime(t) && InWindow(t, now)
  {
    hide IsIssueTime;
    var q := IssueQuotient(last);
    IssueAt(q - j);
    assert t == 3 * HOUR * (q - j) + 2 * HOUR;
  }

  /* ---------- the issue to work on ---------- */

  /** What a load date holds for an issue: nothing, a complete cycle, or evidence that must be preserved. */
  datatype DayState = Absent | Whole | Bad

  datatype IssueState = Gap | Reused | Blocked

  /** Two complete manifests for one issue are as bad as a broken one. */
  method ClassifyIssue(days: seq<DayState>) returns (state: IssueState)
    ensures state == Reused <==> exists i :: WholeOnlyAt(days, i)
    ensures state == Gap <==> forall i :: 0 <= i < |days| ==> days[i] == Absent
  {
    var completed := false;
    ghost var at := 0;
    for i := 0 to |days|
      invariant completed ==> 0 <= at < i && days[at] == Whole
      invariant forall j :: 0 <= j < i ==> days[j] == if completed && j == at then Whole else Absent
    {
      if days[i] == Absent { continue; }
      if days[i] == Bad || completed { return Blocked; }
      completed := true;
      at := i;
    }
    if completed {
      assert WholeOnlyAt(days, at);
      return Reused;
    }
    return Gap;
  }

  ghost predicate WholeOnlyAt(days: seq<DayState>, i: int) {
    0 <= i < |days| && days[i] == Whole && forall j :: 0 <= j < |days| && j != i ==> days[j] == Absent
  }

  datatype Mode = Normal | OnlyLatest | Repair | Single(issue: int)

  datatype Survey = Survey(pending: Option<int>, reused: seq<int>, blocked: seq<int>, deferred: seq<int>)

  /** The issues the mode looks at, in the order it looks at them. */
  function Reversed(issues: seq<int>): (r: seq<int>)
    ensures |r| == |issues| && forall i :: 0 <= i < |r| ==> r[i] == issues[|issues| - 1 - i]
  {
    if issues == [] then [] else [issues[|issues| - 1]] + Reversed(issues[..|issues| - 1])
  }

  function LookedAt(mode: Mode, issues: seq<int>): Option<seq<int>>
    requires issues != []
  {
    match mode
    case Normal => Some(Reversed(issues))
    case OnlyLatest => Some([issues[|issues| - 1]])
    case Repair => Some(issues[..|issues| - 1])
    case Single(issue) => if issue in issues then Some([issue]) else None
  }

  /** The survey of the first `n` issues looked at. */
  ghost predicate Surveyed(mode: Mode, order: seq<int>, n: nat, state: int -> IssueState, deferred: int -> bool, v: Survey)
    requires n <= |order|
  {
    && (forall t :: t in v.reused <==> t in order[..n] && state(t) == Reused)
    && (forall t :: t in v.blocked <==> t in order[..n] && state(t) == Blocked)
    && (forall t :: t in v.deferred <==> t in order[..n] && state(t) == Gap && mode == Repair && deferred(t))
    && (v.pending.None? <==> forall i :: 0 <= i < n ==> !Workable(mode, order[i], state, deferred))
    && (v.pending.Some? ==> exists i :: FirstWorkable(mode, order, n, i, state, deferred) && v.pending.value == order[i])
  }

  predicate Workable(mode: Mode, issue: int, state: int -> IssueState, deferred: int -> bool) {
    state(issue) == Gap && !(mode == Repair && deferred(issue))
  }

  ghost predicate FirstWorkable(mode: Mode, order: seq<int>, n: nat, i: int, state: int -> IssueState, deferred: int -> bool) {
    && 0 <= i < n <= |order| && Workable(mode, order[i], state, deferred)
    && forall j :: 0 <= j < i ==> !Workable(mode, order[j], state, deferred)
  }

  /** The survey after one more issue. */
  function Note(mode: Mode, v: Survey, issue: int, state: int -> IssueState, deferred: int -> bool): Survey {
    match state(issue)
    case Blocked => v.(blocked := v.blocked + [issue])
    case Reused => v.(reused := v.reused + [issue])
    case Gap =>
      if mode == Repair && deferred(issue) then v.(deferred := v.deferred + [issue])
      else if v.pending.None? then v.(pending := Some(issue))
      else v
  }

  lemma NoteSurveys(mode: Mode, order: seq<int>, n: nat, state: int -> IssueState, deferred: int -> bool, v: Survey)
    requires n < |order| && Surveyed(mode, order, n, state, deferred, v)
    ensures Surveyed(mode, order, n + 1, state, deferred, Note(mode, v, order[n], state, deferred))
  {
    var issue, w := order[n], Note(mode, v, order[n], state, deferred);
    assert order[..n + 1] == order[..n] + [issue];
    if v.pending.Some? {
      var i :| FirstWorkable(mode, order, n, i, state, deferred) && v.pending.value == order[i];
      assert FirstWorkable(mode, order, n + 1, i, state, deferred);
    } else if w.pending.Some? {
      assert FirstWorkable(mode, order, n + 1, n, state, deferred);
    }
  }

  lemma NothingSurveyed(mode: Mode, order: seq<int>, state: int -> IssueState, deferred: int -> bool)
    ensures Surveyed(mode, order, 0, state, deferred, Survey(None, [], [], []))
  {
  }

  /** `looked` counts the issues examined: a repair stops at the first gap it can work on. */
  method SelectIssue(mode: Mode, issues: seq<int>, state: int -> IssueState, deferred: int -> bool)
      returns (v: Option<Survey>, ghost looked: nat)
    requires issues != [] && Ascending(issues)
    ensures v.None? <==> LookedAt(mode, issues).None?
    ensures v.Some? ==> looked <= |LookedAt(mode, issues).value|
    ensures v.Some? ==> Surveyed(mode, LookedAt(mode, issues).value, looked, state, deferred, v.value)
    ensures v.Some? && looked < |LookedAt(mode, issues).value| ==> mode == Repair && v.value.pending.Some?
    ensures v.Some? && mode == Repair ==>
      |v.value.reused| + |v.value.blocked| + |v.value.deferred| + (if v.value.pending.Some? then 1 else 0) == looked
  {
    hide Surveyed, LookedAt;
    var listed := LookedAt(mode, issues);
    if listed.None? { return None, 0; }
    var order := listed.value;
    var survey := Survey(None, [], [], []);
    NothingSurveyed(mode, order, state, deferred);
    for n := 0 to |order|
      invariant Surveyed(mode, order, n, state, deferred, survey)
      invariant mode == Repair ==> survey.pending.None? && |survey.reused| + |survey.blocked| + |survey.deferred| == n
    {
      var issue := order[n];
      NoteSurveys(mode, order, n, state, deferred, survey);
      if state(issue) == Blocked {
        survey := survey.(blocked := survey.blocked + [issue]);
      } else if state(issue) == Reused {
        survey := survey.(reused := survey.reused + [issue]);
      } else if mode == Repair && deferred(issue) {
        survey := survey.(deferred := survey.deferred + [issue]);
      } else {
        if survey.pending.None? { survey := survey.(pending := Some(issue)); }
        if mode == Repair { return Some(survey), n + 1; }
      }
    }
    return Some(survey), |order|;
  }

  /** An ordinary run takes the newest gap. */
  lemma NewestGapFirst(issues: seq<int>, looked: nat, state: int -> IssueState, deferred: int -> bool, v: Survey)
    requires issues != [] && Ascending(issues) && looked == |issues|
    requires Surveyed(Normal, Reversed(issues), looked, state, deferred, v)
    ensures v.pending.None? <==> forall t :: t in issues ==> state(t) != Gap
    ensures v.pending.Some? ==> v.pending.value in issues && forall t :: t in issues && state(t) == Gap ==> t <= v.pending.value
  {
    hide Surveyed, FirstWorkable;
    PendingMeans(Normal, Reversed(issues), looked, state, deferred, v);
    if v.pending.None? {
      forall t | t in issues ensures state(t) != Gap {
        var k :| 0 <= k < |issues| && issues[k] == t;
        assert Reversed(issues)[|issues| - 1 - k] == t;
        assert !Workable(Normal, Reversed(issues)[|issues| - 1 - k], state, deferred);
      }
    } else {
      var i :| 0 <= i < looked && FirstWorkable(Normal, Reversed(issues), looked, i, state, deferred) && v.pending.value == Reversed(issues)[i];
      FirstIsNewest(issues, i, state, deferred);
    }
  }

  lemma PendingMeans(mode: Mode, order: seq<int>, n: nat, state: int -> IssueState, deferred: int -> bool, v: Survey)
    requires n <= |order| && Surveyed(mode, order, n, state, deferred, v)
    ensures v.pending.None? ==> forall i :: 0 <= i < n ==> !Workable(mode, order[i], state, deferred)
    ensures v.pending.Some? ==> exists i :: 0 <= i < n && FirstWorkable(mode, order, n, i, state, deferred) && v.pending.value == order[i]
  {
  }

  lemma FirstIsNewest(issues: seq<int>, i: nat, state: int -> IssueState, deferred: int -> bool)
    requires Ascending(issues) && i < |issues| && FirstWorkable(Normal, Reversed(issues), |issues|, i, state, deferred)
    ensures state(Reversed(issues)[i]) == Gap && Reversed(issues)[i] in issues
    ensures forall t :: t in issues && state(t) == Gap ==> t <= Reversed(issues)[i]
  {
    forall t | t in issues && state(t) == Gap ensures t <= Reversed(issues)[i] {
      var k :| 0 <= k < |issues| && issues[k] == t;
      assert Reversed(issues)[|issues| - 1 - k] == t && Workable(Normal, t, state, deferred);
    }
  }

  /** A repair takes the oldest gap that is not cooling down, and never the newest issue. */
  lemma OldestGapFirst(issues: seq<int>, looked: nat, state: int -> IssueState, deferred: int -> bool, v: Survey)
    requires issues != [] && Ascending(issues) && looked < |issues|
    requires Surveyed(Repair, issues[..|issues| - 1], looked, state, deferred, v)
    requires looked < |issues| - 1 ==> v.pending.Some?
    ensures v.pending.Some? ==> v.pending.value in issues && v.pending.value < issues[|issues| - 1]
    ensures v.pending.Some? ==> state(v.pending.value) == Gap && !deferred(v.pending.value)
    ensures forall t :: t in issues && t != issues[|issues| - 1] && state(t) == Gap && !deferred(t) ==>
      v.pending.Some? && v.pending.value <= t
  {
    var order := issues[..|issues| - 1];
    forall t | t in issues && t != issues[|issues| - 1] && state(t) == Gap && !deferred(t)
      ensures v.pending.Some? && v.pending.value <= t
    {
      var k :| 0 <= k < |issues| && issues[k] == t;
      assert order[k] == t && Workable(Repair, order[k], state, deferred);
    }
  }
}
