/**
 * The visible task list: the tasks narrowed by the category, priority and
 * date filters, incomplete tasks first and then by due date, undated last.
 */
module TaskList {
  import opened Wrappers
  import opened Seqs
  import opened Tasks

  /**
   * `a.completed !== b.completed ? (a.completed ? 1 : -1)` and then the due
   * dates, a missing one after a present one (`new Date(a.due) - new Date(b.due)`
   * has the sign of the difference of the day numbers).
   */
  function CompareTasks(a: Task, b: Task): (r: int)
    ensures a.completed && !b.completed ==> r > 0
    ensures !a.completed && b.completed ==> r < 0
    ensures a.completed == b.completed && a.due.None? && b.due.None? ==> r == 0
    ensures a.completed == b.completed && a.due.None? && b.due.Some? ==> r > 0
    ensures a.completed == b.completed && a.due.Some? && b.due.None? ==> r < 0
    ensures a.completed == b.completed && a.due.Some? && b.due.Some? ==>
      (r < 0 <==> a.due.value < b.due.value) && (r == 0 <==> a.due.value == b.due.value)
  {
    if a.completed != b.completed then (if a.completed then 1 else -1)
    else match (a.due, b.due)
      case (None, None) => 0
      case (None, Some(_)) => 1
      case (Some(_), None) => -1
      case (Some(x), Some(y)) => x - y
  }

  lemma TaskComparatorConsistent()
    ensures IsConsistentComparator(CompareTasks)
  {
  }

  /**
   * The values of the three filter controls. An empty or "all" category or
   * priority shows every task; an empty date field (`None`) too.
   */
  datatype ListFilter = ListFilter(category: string, priority: string, date: Option<Day>)

  const ShowAll := ListFilter("all", "all", None)

  predicate CategoryShown(t: Task, f: ListFilter) {
    f.category == "" || f.category == "all" || t.category == f.category
  }

  predicate PriorityShown(t: Task, f: ListFilter) {
    f.priority == "" || f.priority == "all" || PriorityName(t.priority) == f.priority
  }

  predicate DateShown(t: Task, f: ListFilter) {
    f.date.None? || t.due == f.date
  }

  predicate Matches(t: Task, f: ListFilter) {
    CategoryShown(t, f) && PriorityShown(t, f) && DateShown(t, f)
  }

  function ByCategory(f: ListFilter): Task -> bool { t => CategoryShown(t, f) }
  function ByPriority(f: ListFilter): Task -> bool { t => PriorityShown(t, f) }
  function ByDate(f: ListFilter): Task -> bool { t => DateShown(t, f) }
  function ByAll(f: ListFilter): Task -> bool { t => Matches(t, f) }

  /** The filter chain, each step skipped when its control is unset. */
  function Filtered(tasks: seq<Task>, f: ListFilter): (r: seq<Task>)
    ensures r == Filter(tasks, ByAll(f))
  {
    var l1 := if f.category == "" || f.category == "all" then tasks
      else Filter(tasks, (t: Task) => t.category == f.category);
    var l2 := if f.priority == "" || f.priority == "all" then l1
      else Filter(l1, (t: Task) => PriorityName(t.priority) == f.priority);
    var l3 := if f.date.None? then l2
      else Filter(l2, (t: Task) => t.due == f.date);
    FilterStep(tasks, l1, ByCategory(f), f.category == "" || f.category == "all",
      (t: Task) => t.category == f.category);
    FilterStep(l1, l2, ByPriority(f), f.priority == "" || f.priority == "all",
      (t: Task) => PriorityName(t.priority) == f.priority);
    FilterStep(l2, l3, ByDate(f), f.date.None?, (t: Task) => t.due == f.date);
    ChainIsConjunction(tasks, f);
    l3
  }

  lemma ChainIsConjunction(tasks: seq<Task>, f: ListFilter)
    ensures Filter(Filter(Filter(tasks, ByCategory(f)), ByPriority(f)), ByDate(f)) == Filter(tasks, ByAll(f))
  {
    FilterFilter(tasks, ByCategory(f), ByPriority(f));
    FilterFilter(tasks, Both(ByCategory(f), ByPriority(f)), ByDate(f));
    FilterSamePredicate(tasks, Both(Both(ByCategory(f), ByPriority(f)), ByDate(f)), ByAll(f));
  }

  /** A step that is skipped or filters by `cond` filters by `skip || cond`. */
  lemma FilterStep(before: seq<Task>, after: seq<Task>, p: Task -> bool, skip: bool, cond: Task -> bool)
    requires forall t :: p(t) == (skip || cond(t))
    requires after == if skip then before else Filter(before, cond)
    ensures after == Filter(before, p)
  {
    if skip {
      FilterKeepingAll(before, p);
    } else {
      FilterSamePredicate(before, cond, p);
    }
  }

  /** `getVisibleTasks`: the matching tasks, sorted. */
  function VisibleTasks(tasks: seq<Task>, f: ListFilter): (r: seq<Task>)
    ensures forall i :: 0 <= i < |r| ==> Matches(r[i], f)
    ensures forall t :: multiset(r)[t] == if Matches(t, f) then multiset(tasks)[t] else 0
    ensures SortedBy(r, CompareTasks)
  {
    TaskComparatorConsistent();
    var filtered := Filtered(tasks, f);
    var r := SortBy(filtered, CompareTasks);
    SortedSelection(tasks, f, filtered, r);
    r
  }

  lemma SortedSelection(tasks: seq<Task>, f: ListFilter, filtered: seq<Task>, r: seq<Task>)
    requires filtered == Filter(tasks, ByAll(f)) && multiset(r) == multiset(filtered)
    ensures forall i :: 0 <= i < |r| ==> Matches(r[i], f)
    ensures forall t :: multiset(r)[t] == if Matches(t, f) then multiset(tasks)[t] else 0
  {
    forall t ensures multiset(r)[t] == if Matches(t, f) then multiset(tasks)[t] else 0 {
      assert ByAll(f)(t) == Matches(t, f);
    }
    forall i | 0 <= i < |r| ensures Matches(r[i], f) {
      assert r[i] in multiset(r);
    }
  }

  /**
   * In the visible list incomplete tasks come first, and among tasks of the
   * same completion, dated ones come before undated ones, earliest first.
   */
  lemma {:induction false} VisibleOrder(tasks: seq<Task>, f: ListFilter, i: int, j: int)
    requires 0 <= i < j < |VisibleTasks(tasks, f)|
    ensures var r := VisibleTasks(tasks, f);
      && (r[i].completed ==> r[j].completed)
      && (r[i].completed == r[j].completed && r[i].due.None? ==> r[j].due.None?)
      && (r[i].completed == r[j].completed && r[i].due.Some? && r[j].due.Some? ==>
            r[i].due.value <= r[j].due.value)
  {
    var r := VisibleTasks(tasks, f);
    assert CompareTasks(r[i], r[j]) <= 0;
  }

  /** With every control unset, every task is listed (reordered). */
  lemma ShowAllListsEverything(tasks: seq<Task>)
    ensures multiset(VisibleTasks(tasks, ShowAll)) == multiset(tasks)
  {
    var r := VisibleTasks(tasks, ShowAll);
    forall t: Task ensures multiset(r)[t] == multiset(tasks)[t] {
      assert Matches(t, ShowAll);
    }
  }
}
