/**
 * The "suggested daily plan": pending tasks ranked by urgency (priority
 * weight over days left), the first eight of them each given a share of a
 * five-hour day in proportion to their urgency, and never less than an hour.
 * Scores are exact rationals; `Math.round` is `Floor(x + 1/2)`.
 */
module DailyPlan {
  import opened Wrappers
  import opened Seqs
  import opened Tasks
  import opened Dates

  const DailyHours: real := 5.0
  const MaxEntries: nat := 8

  function Max(a: int, b: int): int { if a < b then b else a }
  function Min(a: int, b: int): int { if a < b then a else b }

  /** `{high: 3, medium: 2, low: 1}` */
  function Weight(p: Priority): (w: real)
    ensures w in {1.0, 2.0, 3.0}
    ensures p == High <==> w == 3.0
    ensures p == Low <==> w == 1.0
  {
    match p
    case High => 3.0
    case Medium => 2.0
    case Low => 1.0
  }

  /** `weights[priority] / Math.max(1, dl)`, where an undated task's `Infinity` gives 0. */
  function Score(p: Priority, dl: Option<int>): (s: real)
    ensures dl.None? ==> s == 0.0
    ensures dl.Some? ==> 0.0 < s <= Weight(p)
    ensures dl.Some? && dl.value <= 1 ==> s == Weight(p)
  {
    match dl
    case None => 0.0
    case Some(d) => Weight(p) / Max(1, d) as real
  }

  lemma {:induction false} ScoreNonIncreasingInDaysLeft(p: Priority, d1: int, d2: int)
    requires d1 <= d2
    ensures Score(p, Some(d1)) >= Score(p, Some(d2)) > Score(p, None)
  {
    DivideByLarger(Weight(p), Max(1, d1) as real, Max(1, d2) as real);
  }

  lemma DivideByLarger(w: real, m1: real, m2: real)
    requires w >= 0.0 && 0.0 < m1 <= m2
    ensures w / m1 >= w / m2
  {
    var a, b := w / m1, w / m2;
    assert a * m1 == w == b * m2;
    assert b >= 0.0;
    assert b * m2 >= b * m1;
    assert (b - a) * m1 <= 0.0;
    PositiveFactor(b - a, m1);
  }

  lemma PositiveFactor(x: real, m: real)
    requires m > 0.0 && x * m <= 0.0
    ensures x <= 0.0
  {
  }

  lemma {:induction false} ScoreIncreasingInWeight(p: Priority, q: Priority, d: int)
    requires Weight(p) < Weight(q)
    ensures Score(p, Some(d)) < Score(q, Some(d))
  {
    var m := Max(1, d) as real;
    assert Weight(p) / m * m == Weight(p) && Weight(q) / m * m == Weight(q);
  }

  /** A pending task with its score and days left (`{...t, score, dl}`). */
  datatype Scored = Scored(task: Task, score: real, dl: Option<int>)

  function ScoreTask(t: Task, now: Moment): (s: Scored)
    ensures s.task == t && s.score >= 0.0
    ensures s.dl.None? <==> t.due.None?
    ensures s.dl == DaysLeft(t.due, now) && s.score == Score(t.priority, s.dl)
  {
    var dl := DaysLeft(t.due, now);
    Scored(t, Score(t.priority, dl), dl)
  }

  /** The sign of `a.dl - b.dl`, where `Infinity - Infinity` (NaN) counts as equal. */
  function CompareDaysLeft(x: Option<int>, y: Option<int>): (r: int)
    ensures x.None? && y.None? ==> r == 0
    ensures x.None? && y.Some? ==> r > 0
    ensures x.Some? && y.None? ==> r < 0
    ensures x.Some? && y.Some? ==> (r < 0 <==> x.value < y.value) && (r == 0 <==> x.value == y.value)
  {
    match (x, y)
    case (None, None) => 0
    case (None, Some(_)) => 1
    case (Some(_), None) => -1
    case (Some(a), Some(b)) => a - b
  }

  /** The sign of `b.score - a.score || a.dl - b.dl`. */
  function CompareUrgency(a: Scored, b: Scored): (r: int)
    ensures a.score > b.score ==> r < 0
    ensures a.score < b.score ==> r > 0
    ensures a.score == b.score ==> r == CompareDaysLeft(a.dl, b.dl)
  {
    if a.score != b.score then (if b.score > a.score then 1 else -1)
    else CompareDaysLeft(a.dl, b.dl)
  }

  lemma UrgencyComparatorConsistent()
    ensures IsConsistentComparator(CompareUrgency)
  {
  }

  function Pending(tasks: seq<Task>): (r: seq<Task>)
    ensures forall i :: 0 <= i < |r| ==> !r[i].completed
    ensures forall t: Task :: !t.completed ==> multiset(r)[t] == multiset(tasks)[t]
    ensures IsSubsequence(r, tasks)
  {
    Filter(tasks, (t: Task) => !t.completed)
  }

  /** `list.map(t => ({...t, score, dl}))` */
  function ScoreAll(tasks: seq<Task>, now: Moment): (r: seq<Scored>)
    ensures |r| == |tasks| && forall i :: 0 <= i < |r| ==> r[i] == ScoreTask(tasks[i], now)
  {
    if tasks == [] then [] else [ScoreTask(tasks[0], now)] + ScoreAll(tasks[1..], now)
  }

  /** The scored pending tasks, most urgent first. */
  function Ranked(tasks: seq<Task>, now: Moment): (r: seq<Scored>)
    ensures SortedBy(r, CompareUrgency)
    ensures multiset(r) == multiset(ScoreAll(Pending(tasks), now))
    ensures |r| == |Pending(tasks)|
    ensures forall i :: 0 <= i < |r| ==> r[i].score >= 0.0 && !r[i].task.completed
  {
    UrgencyComparatorConsistent();
    var scored := ScoreAll(Pending(tasks), now);
    var r := SortBy(scored, CompareUrgency);
    assert |r| == |multiset(r)| == |multiset(scored)| == |scored|;
    forall i | 0 <= i < |r| ensures r[i].score >= 0.0 && !r[i].task.completed {
      assert r[i] in multiset(scored);
      var k :| 0 <= k < |scored| && scored[k] == r[i];
    }
    r
  }

  /** Every ranked entry carries its own task's days left and score `weight / max(1, dl)`. */
  lemma RankedScores(tasks: seq<Task>, now: Moment, k: int)
    requires 0 <= k < |Ranked(tasks, now)|
    ensures var s := Ranked(tasks, now)[k];
      && s.dl == DaysLeft(s.task.due, now)
      && s.score == Score(s.task.priority, DaysLeft(s.task.due, now))
  {
    var r := Ranked(tasks, now);
    var scored := ScoreAll(Pending(tasks), now);
    assert r[k] in multiset(scored);
    var j :| 0 <= j < |scored| && scored[j] == r[k];
  }

  /** In ranked order, scores never increase, and equal scores have non-decreasing days left. */
  lemma {:induction false} RankedOrder(tasks: seq<Task>, now: Moment, i: int, j: int)
    requires 0 <= i < j < |Ranked(tasks, now)|
    ensures Ranked(tasks, now)[i].score >= Ranked(tasks, now)[j].score
    ensures Ranked(tasks, now)[i].score == Ranked(tasks, now)[j].score ==>
      CompareDaysLeft(Ranked(tasks, now)[i].dl, Ranked(tasks, now)[j].dl) <= 0
  {
    var r := Ranked(tasks, now);
    assert CompareUrgency(r[i], r[j]) <= 0;
  }

  /** `scored.reduce((s, x) => s + x.score, 0)`: nonnegative scores never total less than zero. */
  function TotalScore(s: seq<Scored>): (total: real)
    ensures (forall k :: 0 <= k < |s| ==> s[k].score >= 0.0) ==> total >= 0.0
  {
    if s == [] then 0.0
    else
      assert forall k :: 0 <= k < |s| - 1 ==> s[..|s| - 1][k] == s[k];
      TotalScore(s[..|s| - 1]) + s[|s| - 1].score
  }

  lemma {:induction false} ScoreAtMostTotal(s: seq<Scored>, i: int)
    requires forall k :: 0 <= k < |s| ==> s[k].score >= 0.0
    requires 0 <= i <= |s|
    ensures 0.0 <= TotalScore(s[..i]) <= TotalScore(s)
    ensures i < |s| ==> s[i].score <= TotalScore(s)
  {
    if i < |s| {
      ScoreAtMostTotal(s[..|s| - 1], i);
      assert s[..|s| - 1][..i] == s[..i];
      if i < |s| - 1 {
        assert s[..|s| - 1][i] == s[i];
      }
    } else {
      assert s[..i] == s;
    }
  }

  /** `total || 1` */
  function Denominator(s: seq<Scored>): (d: real)
    requires forall k :: 0 <= k < |s| ==> s[k].score >= 0.0
    ensures d > 0.0
    ensures TotalScore(s) != 0.0 ==> d == TotalScore(s)
    ensures TotalScore(s) == 0.0 ==> d == 1.0
  {
    var total := TotalScore(s);
    if total == 0.0 then 1.0 else total
  }

  /** `Math.round`: the nearest integer, halves rounded up. */
  function Round(x: real): (n: int)
    ensures x - 0.5 < n as real <= x + 0.5
  {
    (x + 0.5).Floor
  }

  lemma RoundMonotone(x: real, y: real)
    requires x <= y
    ensures Round(x) <= Round(y)
  {
  }

  /** `Math.max(1, Math.round(score / denominator * 5))` */
  function Hours(score: real, denominator: real): (h: int)
    requires denominator > 0.0
    ensures h >= 1
    ensures 0.0 <= score <= denominator ==> h <= 5
  {
    FractionAtMostOne(score, denominator);
    Max(1, Round(score / denominator * DailyHours))
  }

  lemma FractionAtMostOne(score: real, denominator: real)
    requires denominator > 0.0
    ensures 0.0 <= score <= denominator ==> score / denominator <= 1.0
  {
  }

  lemma {:induction false} HoursMonotone(x: real, y: real, denominator: real)
    requires denominator > 0.0 && y <= x
    ensures Hours(y, denominator) <= Hours(x, denominator)
  {
    assert y / denominator <= x / denominator;
    RoundMonotone(y / denominator * DailyHours, x / denominator * DailyHours);
  }

  datatype PlanEntry = PlanEntry(title: string, due: Option<Day>, hours: int, priority: Priority)

  /** `{title, due, hours, priority}` for one ranked task. */
  function Entry(s: Scored, denominator: real): (e: PlanEntry)
    requires denominator > 0.0
    ensures e.title == s.task.title && e.due == s.task.due && e.priority == s.task.priority
    ensures e.hours == Hours(s.score, denominator)
    ensures e.hours >= 1
    ensures 0.0 <= s.score <= denominator ==> e.hours <= 5
  {
    PlanEntry(s.task.title, s.task.due, Hours(s.score, denominator), s.task.priority)
  }

  function SuggestDailyPlan(tasks: seq<Task>, now: Moment): (plan: seq<PlanEntry>)
    ensures |plan| == Min(MaxEntries, |Pending(tasks)|)
    ensures forall i :: 0 <= i < |plan| ==> 1 <= plan[i].hours <= 5
    ensures forall i, j :: 0 <= i < j < |plan| ==> plan[i].hours >= plan[j].hours
    ensures forall i :: 0 <= i < |plan| ==> plan[i].title == Ranked(tasks, now)[i].task.title
    ensures forall i :: 0 <= i < |plan| ==> plan[i].due == Ranked(tasks, now)[i].task.due
    ensures forall i :: 0 <= i < |plan| ==> plan[i].priority == Ranked(tasks, now)[i].task.priority
  {
    var ranked := Ranked(tasks, now);
    var plan := PlanOf(ranked);
    PlanOfRanked(tasks, now, ranked, plan);
    plan
  }

  /** The first eight ranked entries, each with its hours. */
  function PlanOf(ranked: seq<Scored>): (plan: seq<PlanEntry>)
    requires forall k :: 0 <= k < |ranked| ==> ranked[k].score >= 0.0
    ensures |plan| == Min(MaxEntries, |ranked|)
    ensures forall i :: 0 <= i < |plan| ==> plan[i] == Entry(ranked[i], Denominator(ranked))
  {
    Entries(ranked[..Min(MaxEntries, |ranked|)], Denominator(ranked))
  }

  /** `top.map(t => ({title, due, hours, priority}))` */
  function Entries(top: seq<Scored>, denominator: real): (r: seq<PlanEntry>)
    requires denominator > 0.0
    ensures |r| == |top| && forall i :: 0 <= i < |r| ==> r[i] == Entry(top[i], denominator)
  {
    if top == [] then [] else [Entry(top[0], denominator)] + Entries(top[1..], denominator)
  }

  lemma PlanOfRanked(tasks: seq<Task>, now: Moment, ranked: seq<Scored>, plan: seq<PlanEntry>)
    requires ranked == Ranked(tasks, now) && plan == PlanOf(ranked)
    ensures forall i :: 0 <= i < |plan| ==> 1 <= plan[i].hours <= 5
    ensures forall i, j :: 0 <= i < j < |plan| ==> plan[i].hours >= plan[j].hours
  {
    var denominator := Denominator(ranked);
    forall i | 0 <= i < |plan| ensures 1 <= plan[i].hours <= 5 {
      ScoreAtMostTotal(ranked, i);
      assert plan[i] == Entry(ranked[i], denominator);
    }
    forall i, j | 0 <= i < j < |plan| ensures plan[i].hours >= plan[j].hours {
      RankedOrder(tasks, now, i, j);
      HoursMonotone(ranked[i].score, ranked[j].score, denominator);
      assert plan[i] == Entry(ranked[i], denominator) && plan[j] == Entry(ranked[j], denominator);
    }
  }

  /** With every task completed there is nothing to suggest. */
  lemma {:induction false} AllCompletedGivesEmptyPlan(tasks: seq<Task>, now: Moment)
    requires forall i :: 0 <= i < |tasks| ==> tasks[i].completed
    ensures SuggestDailyPlan(tasks, now) == []
  {
  }

  /**
   * The hours are shares of the total score of ALL pending tasks, so the
   * scores of the entries that are paid out never exceed it.
   */
  lemma PlannedScoresWithinTotal(tasks: seq<Task>, now: Moment)
    ensures var ranked := Ranked(tasks, now);
      TotalScore(ranked[..Min(MaxEntries, |ranked|)]) <= TotalScore(ranked)
  {
    var ranked := Ranked(tasks, now);
    ScoreAtMostTotal(ranked, Min(MaxEntries, |ranked|));
  }

  function SumHours(plan: seq<PlanEntry>): int {
    if plan == [] then 0 else plan[0].hours + SumHours(plan[1..])
  }

  lemma {:induction false} TotalOfEqualScores(s: seq<Scored>, x: real)
    requires forall k :: 0 <= k < |s| ==> s[k].score == x
    ensures TotalScore(s) == |s| as real * x
  {
    if s != [] {
      TotalOfEqualScores(s[..|s| - 1], x);
    }
  }

  lemma DenominatorOfEqualScores(s: seq<Scored>, x: real, n: real)
    requires x > 0.0 && |s| > 0 && n == |s| as real
    requires forall k :: 0 <= k < |s| ==> s[k].score == x
    ensures Denominator(s) == n * x
  {
    TotalOfEqualScores(s, x);
  }

  lemma ShareOfEqualScores(x: real, n: real)
    requires x > 0.0 && n > 0.0
    ensures x / (n * x) == 1.0 / n
  {
    var y := n * x;
    assert y > 0.0;
    var q := x / y;
    assert q * y == x;
    assert (q * n - 1.0) * x == 0.0;
    ZeroFactor(q * n - 1.0, x);
  }

  lemma ZeroFactor(a: real, x: real)
    requires x > 0.0 && a * x == 0.0
    ensures a == 0.0
  {
  }

  /** With no task completed, every task is pending. */
  lemma NothingCompletedAllPending(tasks: seq<Task>)
    requires forall i :: 0 <= i < |tasks| ==> !tasks[i].completed
    ensures multiset(Pending(tasks)) == multiset(tasks)
  {
    var pending := Pending(tasks);
    forall t: Task ensures multiset(pending)[t] == multiset(tasks)[t] {
      if t.completed {
        assert t !in tasks;
      }
    }
  }

  /** Pending tasks of one priority and one due day all get the same score. */
  lemma {:induction false} RankedSameScore(tasks: seq<Task>, now: Moment, p: Priority, d: Day)
    requires forall i :: 0 <= i < |tasks| ==> tasks[i].priority == p && tasks[i].due == Some(d)
    ensures forall k :: 0 <= k < |Ranked(tasks, now)| ==>
      Ranked(tasks, now)[k].score == Score(p, DaysLeft(Some(d), now))
  {
    var pending := Pending(tasks);
    var ranked := Ranked(tasks, now);
    var scored := ScoreAll(pending, now);
    forall k | 0 <= k < |ranked| ensures ranked[k].score == Score(p, DaysLeft(Some(d), now)) {
      assert ranked[k] in multiset(scored);
      var j :| 0 <= j < |scored| && scored[j] == ranked[k];
      assert multiset(pending)[pending[j]] == multiset(tasks)[pending[j]];
      assert pending[j] in multiset(tasks);
      var i :| 0 <= i < |tasks| && tasks[i] == pending[j];
    }
  }

  /**
   * Three pending tasks of equal urgency get two hours each (5/3 rounded),
   * six in all: more than the five-hour day.
   */
  lemma {:induction false} ThreeEqualTasksGetSixHours(tasks: seq<Task>, now: Moment, p: Priority, d: Day)
    requires |tasks| == 3
    requires forall i :: 0 <= i < 3 ==> !tasks[i].completed && tasks[i].priority == p && tasks[i].due == Some(d)
    ensures var plan := SuggestDailyPlan(tasks, now);
      |plan| == 3 && (forall i :: 0 <= i < 3 ==> plan[i].hours == 2) && SumHours(plan) == 6
  {
    NothingCompletedAllPending(tasks);
    assert |Pending(tasks)| == |multiset(tasks)| == 3;
    var ranked := Ranked(tasks, now);
    var x := Score(p, DaysLeft(Some(d), now));
    RankedSameScore(tasks, now, p, d);
    PlanIsPlanOfRanked(tasks, now);
    ThirdOfTheDay(ranked, x, SuggestDailyPlan(tasks, now));
  }

  lemma PlanIsPlanOfRanked(tasks: seq<Task>, now: Moment)
    ensures SuggestDailyPlan(tasks, now) == PlanOf(Ranked(tasks, now))
  {
  }

  lemma ThirdOfTheDay(ranked: seq<Scored>, x: real, plan: seq<PlanEntry>)
    requires |ranked| == 3 && x > 0.0 && forall k :: 0 <= k < 3 ==> ranked[k].score == x
    requires plan == PlanOf(ranked)
    ensures |plan| == 3 && (forall i :: 0 <= i < 3 ==> plan[i].hours == 2) && SumHours(plan) == 6
  {
    DenominatorOfEqualScores(ranked, x, 3.0);
    var denominator := Denominator(ranked);
    HoursOfAThird(x, denominator);
    forall i | 0 <= i < 3 ensures plan[i].hours == 2 {
      assert plan[i] == Entry(ranked[i], denominator);
    }
    assert SumHours(plan) == plan[0].hours + SumHours(plan[1..]);
    assert SumHours(plan[1..]) == plan[1].hours + SumHours(plan[2..]);
    assert SumHours(plan[2..]) == plan[2].hours + SumHours(plan[3..]);
    assert plan[3..] == [];
  }

  /** A third of the total is `Math.round(5 / 3)`, two hours. */
  lemma HoursOfAThird(x: real, denominator: real)
    requires x > 0.0 && denominator == 3.0 * x
    ensures Hours(x, denominator) == 2
  {
    ShareOfEqualScores(x, 3.0);
    assert x / denominator * DailyHours == 5.0 / 3.0;
  }
}
