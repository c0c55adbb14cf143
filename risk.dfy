/**
 * The risk label shown for the selected task: a decision list over
 * completion, the presence of a due date, the days left and the priority,
 * in which the first rule that applies decides.
 */
module Risk {
  import opened Wrappers
  import opened Tasks
  import opened Dates

  datatype Risk = Done | NoDueDate | Overdue | HighRisk | AtRisk | OnTrack

  function Label(r: Risk): (s: string)
    ensures s in {"Done", "No due date", "Overdue", "High risk", "At risk", "On track"}
  {
    match r
    case Done => "Done"
    case NoDueDate => "No due date"
    case Overdue => "Overdue"
    case HighRisk => "High risk"
    case AtRisk => "At risk"
    case OnTrack => "On track"
  }

  lemma LabelInjective(r: Risk, r': Risk)
    ensures Label(r) == Label(r') <==> r == r'
  {
  }

  /** The rule table: each label holds exactly in its region of the inputs. */
  function TaskRisk(t: Task, now: Moment): (r: Risk)
    ensures r == Done <==> t.completed
    ensures r == NoDueDate <==> !t.completed && t.due.None?
    ensures r == Overdue <==> !t.completed && t.due.Some? && DaysLeft(t.due, now).value <= 0
    ensures r == HighRisk <==>
      !t.completed && t.due.Some? && 0 < DaysLeft(t.due, now).value <= 2 && t.priority == High
    ensures r == AtRisk <==>
      !t.completed && t.due.Some? && 0 < DaysLeft(t.due, now).value <= 3 &&
      !(DaysLeft(t.due, now).value <= 2 && t.priority == High)
    ensures r == OnTrack <==> !t.completed && t.due.Some? && DaysLeft(t.due, now).value > 3
  {
    var dl := DaysLeft(t.due, now);
    if t.completed then Done
    else if t.due.None? then NoDueDate
    else if dl.value <= 0 then Overdue
    else if dl.value <= 2 && t.priority == High then HighRisk
    else if dl.value <= 3 then AtRisk
    else OnTrack
  }

  /** Deadline pressure of the four labels a pending dated task can get. */
  function Severity(r: Risk): (n: nat)
    ensures n <= 3
    ensures r == Overdue <==> n == 3
    ensures r == HighRisk <==> n == 2
    ensures r == AtRisk <==> n == 1
  {
    match r
    case Overdue => 3
    case HighRisk => 2
    case AtRisk => 1
    case _ => 0
  }

  /**
   * In calendar days, for any moment but a day's last millisecond: a
   * pending task is overdue only once its due day has passed; due today or
   * tomorrow it is at high risk when its priority is high; due within the
   * next two days it is otherwise at risk; due later it is on track.
   */
  lemma {:induction false} RiskInCalendarDays(t: Task, now: Moment, d: Day)
    requires !t.completed && t.due == Some(d) && now.ms < DayMs - 1
    ensures TaskRisk(t, now) == Overdue <==> d < now.day
    ensures TaskRisk(t, now) == HighRisk <==> now.day <= d <= now.day + 1 && t.priority == High
    ensures TaskRisk(t, now) == AtRisk <==>
      now.day <= d <= now.day + 2 && !(d <= now.day + 1 && t.priority == High)
    ensures TaskRisk(t, now) == OnTrack <==> d > now.day + 2
  {
    DaysLeftInDays(d, now);
  }

  /** A pending high-priority task due today is at high risk, not overdue. */
  lemma {:induction false} DueTodayHighPriority(t: Task, now: Moment)
    requires !t.completed && t.due == Some(now.day) && t.priority == High && now.ms < DayMs - 1
    ensures TaskRisk(t, now) == HighRisk
  {
    DueTodayHasOneDayLeft(now);
  }

  /** Moving a pending task's due date earlier never lowers its risk. */
  lemma {:induction false} EarlierDueNeverSafer(t: Task, now: Moment, d1: Day, d2: Day)
    requires !t.completed && d1 <= d2
    ensures Severity(TaskRisk(t.(due := Some(d1)), now)) >= Severity(TaskRisk(t.(due := Some(d2)), now))
  {
    DaysLeftMonotone(d1, d2, now);
  }

  /** Raising a pending task's priority to high never lowers its risk. */
  lemma HighPriorityNeverSafer(t: Task, now: Moment)
    requires !t.completed
    ensures Severity(TaskRisk(t.(priority := High), now)) >= Severity(TaskRisk(t, now))
  {
  }
}
