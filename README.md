# Task dashboard backend: the payload computation

This project models the part of the Flask backend (`app.py`) that turns the
task, project, user and stage records read from Odoo into the JSON payload of
`/api/tasks`: the date helpers (`calculate_working_days`,
`calculate_calendar_days`, `is_today`, `is_weekend`), the collection of ids
for the reads, the lookup dictionaries, the per-task classification (done,
cancelled, overdue, in progress, with days overdue and days to the
deadline), the global counters and the per-project-stage statistics.

The records and the current time are parameters. An instant is a naive date
and time counted in microseconds from 1970-01-01 00:00; its date is the
floored day number and its weekday is `(day + 3) % 7`, Monday being 0.

Modules, one per part of `get_tasks_data` and its helpers:

- `Optional` (option.dfy): Odoo's "False or a value" fields and Python's None.
- `Dates` (dates.dfy): the four date helpers. `WorkingDays` is the `while`
  loop, proved against `WorkdayCount`, the number of day-steps before the end
  that fall Monday to Friday.
- `Lookups` (lookups.dfy): the raw records, the id-collection loops, the
  dictionary comprehensions (the last record with an id wins) and the state
  label mapping.
- `Tasks` (tasks.dfy): `Classify` specifies one iteration of the task loop;
  `ProcessTask` and `ProcessTasks` are that loop and its counters.
- `Stages` (stages.dfy): the `stage_stats` dictionary loop, and the proofs that
  per-stage counts add up to the stage total and, over all stages, to the
  global counts.
- `Payload` (payload.dfy): the `stage_percentages` filter (counts only) and
  `GetTasksData`, the whole computation after the reads.

The dashboard that displays the payload describes the statistics as
`done + overdue + in_progress == total`. The backend code also counts
cancelled tasks, in neither `done` nor `in_progress`, so the identity that
holds is `done + cancelled + overdue + in_progress == total`. The model
follows the code.

## Model

| member | source | states |
|---|---|---|
| `Dates.IsWeekend` | app.py:45-47 | holds exactly when the weekday is Saturday (5) or Sunday (6) |
| `Dates.IsToday` | app.py:41-43 | two instants with the same date are less than a day apart |
| `Dates.IsTodayIffNoCalendarDays` | app.py:32-43 | same date holds exactly when neither instant is a calendar day before the other |
| `Dates.CalendarDays` | app.py:32-39 | 0 when start is not before end; otherwise the number of whole days between the instants, or one more |
| `Dates.DaySteps` | app.py:22-28 | the number of loop iterations n: 0 when start >= end, else the least n with start + n days >= end |
| `Dates.StepBeforeEnd` | app.py:24-28 | step k is taken exactly when start + k days is before end |
| `Dates.WorkdaysAmong` | app.py:24-28 | the working days among n day-steps are at most n |
| `Dates.WorkingDays` | app.py:16-30 | the loop returns the number of day-steps before end that fall Monday to Friday; 0 when start >= end; never more than the steps taken; the loop terminates as each step moves one day towards end |
| `Dates.WeekdayAfter` | app.py:26-28 | adding k days advances the weekday by k modulo 7 |
| `Dates.WeekHoldsFiveWorkdays` | app.py:26-27 | any seven consecutive day-steps add exactly five working days |
| `Dates.FullWeeksAmong` | app.py:24-28 | 7w consecutive day-steps hold 5w working days |
| `Dates.FullWeeks` | app.py:16-30 | the working days from start to exactly w weeks later are 5w |
| `Dates.CalendarDaysWithinSteps` | app.py:18-39 | when start < end, the calendar days equal the loop's day-steps or one fewer |
| `Dates.WorkdaysAtMostCalendarDaysPlusOne` | app.py:322-323 | the working days to a deadline never exceed its calendar days by more than one |
| `Lookups.CollectIds` | app.py:139-150 | the project, user and task-stage id sets hold exactly the ids some task refers to |
| `Lookups.CollectProjectStageIds` | app.py:209-213 | the project-stage id set holds exactly the stages of the projects that have one |
| `Lookups.DictOfKeys` | app.py:236-259 | a dictionary comprehension has as keys exactly the keys of the records |
| `Lookups.DictOfLastWins` | app.py:236-259 | for a repeated key, the dictionary holds the value of the last record with it |
| `Lookups.NamedDictValues` | app.py:246-259 | an id-to-name dictionary maps each id to the name of the last record with that id |
| `Lookups.BuildLookups` | app.py:235-265 | the three project dictionaries share the project ids as keys; each entry is what the last project record with that id says, "No Manager" for a project without manager; the user, task-stage and project-stage dictionaries are keyed by their record ids and map each id to the name of the last record with it |
| `Lookups.StateLabel` | app.py:293-301 | the label is "Unknown" exactly for a missing or unknown state; "Cancelled" exactly for `1_canceled`, "Done" exactly for `1_done` |
| `Tasks.Classify` | app.py:274-355 | fallbacks "No Project", "Unknown", "No Stage", "No Project Stage"; assignees in `user_ids` order with "User {uid}" for unknown ids; done is `is_closed`, cancelled is state `1_canceled`; overdue exactly when open with a deadline date before today, then days overdue is the date difference (>= 1) and both days-to-deadline are 0; otherwise days overdue is 0 and an open task's calendar days are the date difference (0 on a deadline today) |
| `Tasks.ClassifyAll` | app.py:268-355 | the processed list has one entry per task |
| `Tasks.ClassifyAllAt` | app.py:274-355 | entry i of the processed list is task i classified |
| `Tasks.ProcessTask` | app.py:275-354 | the loop body's statement sequence builds exactly the classified task |
| `Tasks.ProcessTasks` | app.py:267-355 | the processed list is the tasks classified in order; the done, cancelled and overdue counters count the tasks of each status; together they never exceed the number of tasks |
| `Tasks.CountersStep` | app.py:325-331 | each task bumps at most one counter, by the priority done, cancelled, overdue |
| `Tasks.StatusPartition` | app.py:325-331 | the four statuses partition the tasks |
| `Tasks.InProgressIsRemainder` | app.py:399-405 | total minus done, cancelled and overdue is the number of tasks in progress, never negative |
| `Stages.OwnStageCounted` | app.py:358-370 | every task counts in the total of its own project stage |
| `Stages.StageNonEmptyIff` | app.py:358-370 | a stage's total is positive exactly when some task belongs to it |
| `Stages.StageOrderMembers` | app.py:358-368 | the dictionary's insertion order lists exactly the project-stage names of the tasks |
| `Stages.StageOrderDistinct` | app.py:358-368 | the insertion order lists each stage once |
| `Stages.StageOrderByFirstAppearance` | app.py:358-368 | a stage comes before another in the insertion order exactly as its first task comes before the other's: wherever a task of the later stage sits, a task of the earlier one sits before it |
| `Stages.StageStatistics` | app.py:357-379 | the dictionary holds exactly the stages some task belongs to with their counts; its insertion order is the order of first appearance among the tasks |
| `Stages.StageTotalIsSum` | app.py:370-379 | every stage's total is done + cancelled + overdue + in progress |
| `Stages.SumCountsIsStatusCount` | app.py:358-379 | summed over a list naming every stage once, the per-stage counts give the global count |
| `Stages.StageSumsMatchStatistics` | app.py:357-404 | summed over the stage dictionary, each counter equals the global count, and the totals sum to the number of tasks |
| `Payload.PositiveStagesMembers` | app.py:382-384 | a stage is emitted exactly when the dictionary lists it with a positive total |
| `Payload.PositiveStagesKeepOrder` | app.py:382-384 | the emitted stages keep the relative order they have in the dictionary |
| `Payload.PositiveStagesAll` | app.py:382-384 | when every listed stage has a positive total, every one is emitted, in the same order |
| `Payload.EmitStages` | app.py:381-395 | the emitted stages are exactly those with a positive total, with their counters, in dictionary order (the listed stages filtered by a positive total) |
| `Payload.EmittedStagesAgree` | app.py:381-406 | every stage is emitted with total > 0 and total = done + cancelled + overdue + in progress; the emitted sums equal the global statistics |
| `Payload.ProjectStagesRead` | app.py:209-233 | project-stage records are used only when some project has a stage |
| `Payload.GetTasksData` | app.py:235-407 | the payload's tasks are the classified tasks; its statistics are the status counts with in progress >= 0; its stage statistics hold exactly the non-empty stages with their counts, summing to the global statistics, in the order their first task appears |

## Left out

- The JSON-RPC helper and every Odoo call (app.py:70-97, 103-233): network I/O; their results are the parameters of `GetTasksData`, and the authentication check is not modelled.
- Loading and checking the environment variables (app.py:9-67): process environment.
- The Flask application, its routes, CORS and `app.run` (app.py:1-14, 424-439): framework plumbing.
- `datetime.now()` (app.py:272): the current time is the parameter `now`.
- Parsing the deadline string with `datetime.fromisoformat` after replacing `Z` (app.py:304): the deadline is an already decoded naive instant. Time zones are not modelled, so neither is the `TypeError` that comparing an aware deadline with the naive current time would raise; the raw deadline string of the payload is kept as the decoded instant.
- The percentage fields of `stage_percentages` (app.py:387-390): float division and rounding; only the integer counts are modelled.
- The broad `except` that returns an empty payload with an `error` string (app.py:409-422): it wraps the I/O failures, which are not modelled; missing record fields (a `KeyError`) are excluded by the record datatypes.
- `Dates.WorkingDays`: does not model the `OverflowError` Python raises when the day-steps pass the last representable date; instants are unbounded integers.
- `RawTask.isClosed`: `task.get("is_closed") == True` is modelled as a boolean field, a missing value being false.
- Flask's JSON encoding of the payload (key sorting, the `deadline` string) is not modelled; `stageOrder` records the dictionary's insertion order.
