/**
 * The per-task step of the dashboard backend: names are resolved through the
 * lookup dictionaries, the task is classified as done, cancelled, overdue or
 * in progress, the distances to its deadline are computed, and the global
 * counters are bumped.
 */
module Tasks {
  import opened Optional
  import opened Dates
  import opened Lookups

  /** The state value Odoo gives a cancelled task. */
  const CancelledState: string := "1_canceled"

  /** One entry of the payload's `tasks` list. The deadline is kept decoded. */
  datatype ProcessedTask = ProcessedTask(
    id: int,
    name: string,
    projectName: string,
    manager: string,
    stageId: Option<int>,
    stageName: string,
    projectStageId: Option<int>,
    projectStageName: string,
    deadline: Option<Instant>,
    assignees: seq<string>,
    isDone: bool,
    isCancelled: bool,
    isOverdue: bool,
    daysOverdue: nat,
    calendarDaysToDeadline: nat,
    workingDaysToDeadline: nat,
    isDeadlineToday: bool,
    isDeadlineWeekend: bool,
    taskState: Option<string>,
    taskStateLabel: string)

  /** The one counter a task bumps, by the priority done, cancelled, overdue. */
  datatype Status = Done | Cancelled | Overdue | InProgress

  function StatusOf(p: ProcessedTask): Status {
    if p.isDone then Done
    else if p.isCancelled then Cancelled
    else if p.isOverdue then Overdue
    else InProgress
  }

  /** A status filter: None keeps every task. */
  predicate HasStatus(p: ProcessedTask, s: Option<Status>) {
    s.None? || StatusOf(p) == s.value
  }

  /** The number of tasks that pass the filter. */
  function StatusCount(ps: seq<ProcessedTask>, s: Option<Status>): nat {
    if ps == [] then 0
    else StatusCount(ps[..|ps| - 1], s) + (if HasStatus(ps[|ps| - 1], s) then 1 else 0)
  }

  /** The stage of the task's project: None when the project is unknown or has no stage. */
  function ProjectStageOf(t: RawTask, lk: Lookups): Option<int> {
    if t.projectId.Some? && t.projectId.value in lk.projectStageMapping then lk.projectStageMapping[t.projectId.value] else None
  }

  /**
   * The processed form of one task, as the loop body builds it with `now`
   * standing for `datetime.now()`. A task with a deadline that is neither
   * done nor cancelled is overdue when its deadline date is before today;
   * the signed distance between the two dates then goes to `daysOverdue`,
   * and otherwise to `calendarDaysToDeadline`.
   */
  function Classify(t: RawTask, lk: Lookups, now: Instant): (p: ProcessedTask)
    // identity and name resolution, with the fixed fallbacks
    ensures p.id == t.id && p.name == t.name && p.deadline == t.deadline && p.taskState == t.state
    ensures p.stageId == t.stageId
    ensures p.projectName == (if t.projectId.Some? && t.projectId.value in lk.projectNames then lk.projectNames[t.projectId.value] else "No Project")
    ensures p.manager == (if t.projectId.Some? && t.projectId.value in lk.projectManagers then lk.projectManagers[t.projectId.value] else "Unknown")
    ensures p.stageName == (if t.stageId.Some? && t.stageId.value in lk.taskStageNames then lk.taskStageNames[t.stageId.value] else "No Stage")
    ensures p.projectStageId == ProjectStageOf(t, lk)
    ensures p.projectStageName == (if p.projectStageId.Some? && p.projectStageId.value in lk.projectStageNames then lk.projectStageNames[p.projectStageId.value] else "No Project Stage")
    ensures |p.assignees| == |t.userIds|
    ensures forall i :: 0 <= i < |t.userIds| ==> p.assignees[i] == (if t.userIds[i] in lk.userNames then lk.userNames[t.userIds[i]] else "User " + IntString(t.userIds[i]))
    ensures p.taskStateLabel == StateLabel(t.state)
    // classification
    ensures p.isDone == t.isClosed
    ensures p.isCancelled <==> t.state == Some(CancelledState)
    ensures p.isOverdue <==> !p.isDone && !p.isCancelled && t.deadline.Some? && DayOf(t.deadline.value) < DayOf(now)
    ensures p.isOverdue ==> p.daysOverdue == DayOf(now) - DayOf(t.deadline.value) >= 1
    ensures p.isOverdue ==> p.calendarDaysToDeadline == 0 && p.workingDaysToDeadline == 0 && !p.isDeadlineToday
    ensures !p.isOverdue ==> p.daysOverdue == 0
    ensures !p.isDone && !p.isCancelled && !p.isOverdue && t.deadline.Some? ==>
      && p.calendarDaysToDeadline == DayOf(t.deadline.value) - DayOf(now)
      && p.workingDaysToDeadline == WorkdayCount(now, t.deadline.value)
    ensures p.isDeadlineToday ==> p.calendarDaysToDeadline == 0
    ensures p.workingDaysToDeadline <= p.calendarDaysToDeadline + 1
    ensures (p.isDone || p.isCancelled || t.deadline.None?) ==> p.daysOverdue == p.calendarDaysToDeadline == p.workingDaysToDeadline == 0
    ensures p.isDeadlineToday <==> t.deadline.Some? && IsToday(t.deadline.value, now)
    ensures p.isDeadlineWeekend <==> t.deadline.Some? && IsWeekend(t.deadline.value)
  {
    var isDone := t.isClosed;
    var isCancelled := t.state == Some(CancelledState);
    var open := t.deadline.Some? && !isDone && !isCancelled;
    var isOverdue := open && DayOf(t.deadline.value) < DayOf(now);
    var upcoming := open && !isOverdue;
    var projectStageId := ProjectStageOf(t, lk);
    ProcessedTask(
      id := t.id,
      name := t.name,
      projectName := Get(lk.projectNames, t.projectId, "No Project"),
      manager := Get(lk.projectManagers, t.projectId, "Unknown"),
      stageId := t.stageId,
      stageName := Get(lk.taskStageNames, t.stageId, "No Stage"),
      projectStageId := projectStageId,
      projectStageName := Get(lk.projectStageNames, projectStageId, "No Project Stage"),
      deadline := t.deadline,
      assignees := seq(|t.userIds|, i requires 0 <= i < |t.userIds| => AssigneeName(lk.userNames, t.userIds[i])),
      isDone := isDone,
      isCancelled := isCancelled,
      isOverdue := isOverdue,
      daysOverdue := if isOverdue then DayOf(now) - DayOf(t.deadline.value) else 0,
      calendarDaysToDeadline := if upcoming then CalendarDays(now, t.deadline.value) else 0,
      workingDaysToDeadline :=
        if upcoming then
          WorkdaysAtMostCalendarDaysPlusOne(now, t.deadline.value);
          WorkdayCount(now, t.deadline.value)
        else 0,
      isDeadlineToday := t.deadline.Some? && IsToday(t.deadline.value, now),
      isDeadlineWeekend := t.deadline.Some? && IsWeekend(t.deadline.value),
      taskState := t.state,
      taskStateLabel := StateLabel(t.state))
  }

  /** The processed list: every task classified, in order. */
  function ClassifyAll(ts: seq<RawTask>, lk: Lookups, now: Instant): (ps: seq<ProcessedTask>)
    ensures |ps| == |ts|
  {
    if ts == [] then [] else ClassifyAll(ts[..|ts| - 1], lk, now) + [Classify(ts[|ts| - 1], lk, now)]
  }

  /** Entry i of the processed list is task i, classified. */
  lemma {:induction false} ClassifyAllAt(ts: seq<RawTask>, lk: Lookups, now: Instant, i: nat)
    requires i < |ts|
    ensures ClassifyAll(ts, lk, now)[i] == Classify(ts[i], lk, now)
  {
    if i < |ts| - 1 {
      ClassifyAllAt(ts[..|ts| - 1], lk, now, i);
    }
  }

  /** One iteration of the task loop: the fields of the processed task, computed in the loop's order. */
  method ProcessTask(task: RawTask, lk: Lookups, now: Instant) returns (p: ProcessedTask)
    ensures p == Classify(task, lk, now)
  {
    var projectStageId := ProjectStageOf(task, lk);
    var assignees := seq(|task.userIds|, i requires 0 <= i < |task.userIds| => AssigneeName(lk.userNames, task.userIds[i]));

    var isDone := task.isClosed;
    var isCancelled := task.state == Some(CancelledState);

    var isOverdue := false;
    var daysOverdue: nat := 0;
    var calendarDays: nat := 0;
    var workingDays: nat := 0;
    var isDeadlineToday := false;
    var isDeadlineWeekend := false;

    if task.deadline.Some? {
      var deadline := task.deadline.value;
      isDeadlineToday := IsToday(deadline, now);
      isDeadlineWeekend := IsWeekend(deadline);
      if !isDone && !isCancelled {
        if DayOf(deadline) < DayOf(now) {
          isOverdue := true;
          daysOverdue := DayOf(now) - DayOf(deadline);
        } else {
          calendarDays := CalendarDays(now, deadline);
          workingDays := WorkingDays(now, deadline);
        }
      }
    }

    p := ProcessedTask(
      id := task.id,
      name := task.name,
      projectName := Get(lk.projectNames, task.projectId, "No Project"),
      manager := Get(lk.projectManagers, task.projectId, "Unknown"),
      stageId := task.stageId,
      stageName := Get(lk.taskStageNames, task.stageId, "No Stage"),
      projectStageId := projectStageId,
      projectStageName := Get(lk.projectStageNames, projectStageId, "No Project Stage"),
      deadline := task.deadline,
      assignees := assignees,
      isDone := isDone,
      isCancelled := isCancelled,
      isOverdue := isOverdue,
      daysOverdue := daysOverdue,
      calendarDaysToDeadline := calendarDays,
      workingDaysToDeadline := workingDays,
      isDeadlineToday := isDeadlineToday,
      isDeadlineWeekend := isDeadlineWeekend,
      taskState := task.state,
      taskStateLabel := StateLabel(task.state));
  }

  /**
   * The task loop: processes every task in order and counts the done,
   * cancelled and overdue ones, each task bumping at most one counter.
   */
  method ProcessTasks(tasks: seq<RawTask>, lk: Lookups, now: Instant)
    returns (processed: seq<ProcessedTask>, doneCount: nat, cancelledCount: nat, overdueCount: nat)
    ensures processed == ClassifyAll(tasks, lk, now)
    ensures |processed| == |tasks|
    ensures doneCount == StatusCount(processed, Some(Done))
    ensures cancelledCount == StatusCount(processed, Some(Cancelled))
    ensures overdueCount == StatusCount(processed, Some(Overdue))
    ensures doneCount + cancelledCount + overdueCount <= |tasks|
  {
    processed := [];
    doneCount, cancelledCount, overdueCount := 0, 0, 0;
    for n := 0 to |tasks|
      invariant processed == ClassifyAll(tasks[..n], lk, now)
      invariant doneCount == StatusCount(processed, Some(Done))
      invariant cancelledCount == StatusCount(processed, Some(Cancelled))
      invariant overdueCount == StatusCount(processed, Some(Overdue))
    {
      var p := ProcessTask(tasks[n], lk, now);
      CountersStep(processed, p, doneCount, cancelledCount, overdueCount);
      if p.isDone {
        doneCount := doneCount + 1;
      } else if p.isCancelled {
        cancelledCount := cancelledCount + 1;
      } else if p.isOverdue {
        overdueCount := overdueCount + 1;
      }
      assert tasks[..n + 1][..n] == tasks[..n];
      processed := processed + [p];
    }
    assert tasks[..|tasks|] == tasks;
    StatusPartition(processed);
  }

  /** The counters after one more task, as the loop bumps them. */
  function Bumped(p: ProcessedTask, done: nat, cancelled: nat, overdue: nat): (nat, nat, nat) {
    if p.isDone then (done + 1, cancelled, overdue)
    else if p.isCancelled then (done, cancelled + 1, overdue)
    else if p.isOverdue then (done, cancelled, overdue + 1)
    else (done, cancelled, overdue)
  }

  lemma CountersStep(ps: seq<ProcessedTask>, p: ProcessedTask, done: nat, cancelled: nat, overdue: nat)
    requires done == StatusCount(ps, Some(Done))
    requires cancelled == StatusCount(ps, Some(Cancelled))
    requires overdue == StatusCount(ps, Some(Overdue))
    ensures Bumped(p, done, cancelled, overdue).0 == StatusCount(ps + [p], Some(Done))
    ensures Bumped(p, done, cancelled, overdue).1 == StatusCount(ps + [p], Some(Cancelled))
    ensures Bumped(p, done, cancelled, overdue).2 == StatusCount(ps + [p], Some(Overdue))
  {
    StatusCountAppend(ps, p, Some(Done));
    StatusCountAppend(ps, p, Some(Cancelled));
    StatusCountAppend(ps, p, Some(Overdue));
  }

  lemma StatusCountAppend(ps: seq<ProcessedTask>, p: ProcessedTask, s: Option<Status>)
    ensures StatusCount(ps + [p], s) == StatusCount(ps, s) + (if HasStatus(p, s) then 1 else 0)
  {
    assert (ps + [p])[..|ps|] == ps;
  }

  /** Every task has exactly one status, so the four status counts add up to the number of tasks. */
  lemma {:induction false} StatusPartition(ps: seq<ProcessedTask>)
    ensures StatusCount(ps, None) == |ps|
    ensures StatusCount(ps, Some(Done)) + StatusCount(ps, Some(Cancelled))
          + StatusCount(ps, Some(Overdue)) + StatusCount(ps, Some(InProgress)) == |ps|
  {
    if ps != [] {
      StatusPartition(ps[..|ps| - 1]);
    }
  }

  /** The `in_progress` statistic, total minus the three counters, is the number of tasks in progress. */
  lemma InProgressIsRemainder(ps: seq<ProcessedTask>)
    ensures |ps| - StatusCount(ps, Some(Done)) - StatusCount(ps, Some(Cancelled)) - StatusCount(ps, Some(Overdue))
         == StatusCount(ps, Some(InProgress)) >= 0
  {
    StatusPartition(ps);
  }
}
