/**
 * The payload of the task endpoint, computed from records that the Odoo
 * reads have already returned and from the current time.
 */
module Payload {
  import opened Optional
  import opened Dates
  import opened Lookups
  import opened Tasks
  import opened Stages

  /** The payload's `statistics`: `inProgress` is the total minus the three counters. */
  datatype Statistics = Statistics(total: int, done: int, cancelled: int, overdue: int, inProgress: int)

  /** The payload; `stageOrder` is the order of the `stage_statistics` dictionary. */
  datatype Payload = Payload(
    tasks: seq<ProcessedTask>,
    statistics: Statistics,
    stageOrder: seq<string>,
    stageStatistics: map<string, StageCounts>)

  /** The stages of `order`, in that order, that the dictionary holds with a positive total. */
  function PositiveStages(order: seq<string>, stats: map<string, StageCounts>): seq<string> {
    if order == [] then []
    else
      var kept := PositiveStages(order[..|order| - 1], stats);
      var stage := order[|order| - 1];
      if stage in stats && stats[stage].total > 0 then kept + [stage] else kept
  }

  /** A stage is kept exactly when it is listed and has a positive total. */
  lemma {:induction false} PositiveStagesMembers(order: seq<string>, stats: map<string, StageCounts>)
    ensures forall stage :: stage in PositiveStages(order, stats) <==> stage in order && stage in stats && stats[stage].total > 0
  {
    if order != [] {
      var init := order[..|order| - 1];
      PositiveStagesMembers(init, stats);
      assert order == init + [order[|order| - 1]];
    }
  }

  /** The kept stages keep their relative order: two kept stages come from increasing positions of `order`. */
  lemma {:induction false} PositiveStagesKeepOrder(order: seq<string>, stats: map<string, StageCounts>)
    ensures forall k, l :: 0 <= k < l < |PositiveStages(order, stats)| ==>
      exists a, b :: 0 <= a < b < |order| && order[a] == PositiveStages(order, stats)[k] && order[b] == PositiveStages(order, stats)[l]
  {
    if order != [] {
      var init := order[..|order| - 1];
      var kept, kept' := PositiveStages(order, stats), PositiveStages(init, stats);
      PositiveStagesKeepOrder(init, stats);
      PositiveStagesMembers(init, stats);
      forall k, l | 0 <= k < l < |PositiveStages(order, stats)|
        ensures exists a, b :: 0 <= a < b < |order| && order[a] == PositiveStages(order, stats)[k] && order[b] == PositiveStages(order, stats)[l]
      {
        assert kept[k] == kept'[k] && kept[k] in kept';
        if l < |kept'| {
          assert kept[l] == kept'[l];
          var a, b :| 0 <= a < b < |init| && init[a] == kept'[k] && init[b] == kept'[l];
          assert order[a] == init[a] && order[b] == init[b];
          assert 0 <= a < b < |order| && order[a] == kept[k] && order[b] == kept[l];
        } else {
          var a :| 0 <= a < |init| && init[a] == kept[k];
          assert order[a] == init[a];
          var b := |order| - 1;
          assert kept == kept' + [order[b]];
          assert 0 <= a < b < |order| && order[a] == kept[k] && order[b] == kept[l];
        }
      }
      assert forall k, l :: 0 <= k < l < |PositiveStages(order, stats)| ==>
        exists a, b :: 0 <= a < b < |order| && order[a] == PositiveStages(order, stats)[k] && order[b] == PositiveStages(order, stats)[l];
    } else {
      assert PositiveStages(order, stats) == [];
    }
  }

  /** When every listed stage has a positive total, all of them are kept. */
  lemma {:induction false} PositiveStagesAll(order: seq<string>, stats: map<string, StageCounts>)
    requires forall k :: 0 <= k < |order| ==> order[k] in stats && stats[order[k]].total > 0
    ensures PositiveStages(order, stats) == order
  {
    if order != [] {
      var init := order[..|order| - 1];
      assert forall k :: 0 <= k < |init| ==> init[k] == order[k];
      PositiveStagesAll(init, stats);
    }
  }

  /**
   * `stage_percentages`: the stages, in order, whose total is positive, with
   * their counters.
   */
  method EmitStages(order: seq<string>, stats: map<string, StageCounts>) returns (emittedOrder: seq<string>, emitted: map<string, StageCounts>)
    requires Distinct(order)
    requires forall k :: 0 <= k < |order| ==> order[k] in stats
    requires forall stage :: stage in stats ==> stage in order
    ensures emittedOrder == PositiveStages(order, stats)
    ensures Distinct(emittedOrder)
    ensures forall k :: 0 <= k < |emittedOrder| ==> emittedOrder[k] in emitted
    ensures forall stage :: stage in emitted ==> stage in emittedOrder
    ensures forall stage :: stage in emitted <==> stage in stats && stats[stage].total > 0
    ensures forall stage :: stage in emitted ==> stage in stats && emitted[stage] == stats[stage]
  {
    emittedOrder, emitted := [], map[];
    for i := 0 to |order|
      invariant emittedOrder == PositiveStages(order[..i], stats)
      invariant Distinct(emittedOrder)
      invariant forall k :: 0 <= k < |emittedOrder| ==> emittedOrder[k] in emitted
      invariant forall stage :: stage in emitted ==> stage in emittedOrder
      invariant forall stage :: stage in emitted <==> stage in stats && stage in order[..i] && stats[stage].total > 0
      invariant forall stage :: stage in emitted ==> emitted[stage] == stats[stage]
      invariant forall k :: 0 <= k < |emittedOrder| ==> emittedOrder[k] in order[..i]
    {
      var stage := order[i];
      assert order[..i + 1] == order[..i] + [stage];
      assert order[..i + 1][..i] == order[..i];
      assert stage !in order[..i] by {
        forall k | 0 <= k < i ensures order[..i][k] != stage {
          assert order[..i][k] == order[k];
        }
      }
      if stats[stage].total > 0 {
        emitted := emitted[stage := stats[stage]];
        emittedOrder := emittedOrder + [stage];
      }
    }
    assert order[..|order|] == order;
  }

  /**
   * What the emitted stage statistics say about the processed tasks: one
   * entry per stage that some task belongs to, with its counts, and the
   * counts summed over the stages equal to the global ones.
   */
  lemma EmittedStagesAgree(ps: seq<ProcessedTask>, stats: map<string, StageCounts>,
                           emittedOrder: seq<string>, emitted: map<string, StageCounts>)
    requires forall stage :: stage in stats <==> StageCount(ps, stage, None) > 0
    requires forall stage :: stage in stats ==> stats[stage] == CountsOf(ps, stage)
    requires Distinct(emittedOrder)
    requires forall k :: 0 <= k < |emittedOrder| ==> emittedOrder[k] in emitted
    requires forall stage :: stage in emitted ==> stage in emittedOrder
    requires forall stage :: stage in emitted <==> stage in stats && stats[stage].total > 0
    requires forall stage :: stage in emitted ==> stage in stats && emitted[stage] == stats[stage]
    ensures forall stage :: stage in emitted <==> exists i :: 0 <= i < |ps| && ps[i].projectStageName == stage
    ensures forall stage :: stage in emitted ==>
      && emitted[stage] == CountsOf(ps, stage)
      && emitted[stage].total > 0
      && emitted[stage].total == emitted[stage].done + emitted[stage].cancelled + emitted[stage].overdue + emitted[stage].inProgress
    ensures forall s: Option<Status> :: SumField(emittedOrder, emitted, s) == StatusCount(ps, s)
  {
    forall stage | stage in stats
      ensures stats[stage].total > 0
    {
      assert stats[stage] == CountsOf(ps, stage);
    }
    forall stage
      ensures stage in emitted <==> exists i :: 0 <= i < |ps| && ps[i].projectStageName == stage
    {
      StageNonEmptyIff(ps, stage);
    }
    forall stage | stage in emitted
      ensures emitted[stage].total == emitted[stage].done + emitted[stage].cancelled + emitted[stage].overdue + emitted[stage].inProgress
    {
      StageTotalIsSum(ps, stage);
    }
    forall s: Option<Status>
      ensures SumField(emittedOrder, emitted, s) == StatusCount(ps, s)
    {
      StageSumsMatchStatistics(ps, emittedOrder, emitted, s);
    }
  }

  /** The project-stage read is only made when some project has a stage; without it the list is empty. */
  method ProjectStagesRead(projects: seq<Project>, projectStages: seq<Named>) returns (used: seq<Named>)
    ensures used == if exists i :: 0 <= i < |projects| && projects[i].stageId.Some? then projectStages else []
  {
    var projectStageIds := CollectProjectStageIds(projects);
    used := [];
    if projectStageIds != {} {
      used := projectStages;
    }
    if exists i :: 0 <= i < |projects| && projects[i].stageId.Some? {
      var i :| 0 <= i < |projects| && projects[i].stageId.Some?;
      var stage := projects[i].stageId.value;
      assert projects[i].stageId == Some(stage);
      assert stage in projectStageIds;
    } else {
      assert forall stage :: stage !in projectStageIds;
      assert projectStageIds == {};
    }
  }

  /**
   * `get_tasks_data` once the reads are done. The project-stage read is
   * only made when some project has a stage; otherwise no stage record is
   * used.
   */
  method GetTasksData(tasks: seq<RawTask>, projects: seq<Project>, users: seq<Named>, taskStages: seq<Named>,
                      projectStages: seq<Named>, now: Instant)
    returns (payload: Payload)
    ensures payload.tasks == ClassifyAll(tasks, BuildLookups(projects, users, taskStages,
      if exists i :: 0 <= i < |projects| && projects[i].stageId.Some? then projectStages else []), now)
    // global statistics
    ensures payload.statistics.total == |payload.tasks| == |tasks|
    ensures payload.statistics.done == StatusCount(payload.tasks, Some(Done))
    ensures payload.statistics.cancelled == StatusCount(payload.tasks, Some(Cancelled))
    ensures payload.statistics.overdue == StatusCount(payload.tasks, Some(Overdue))
    ensures payload.statistics.inProgress == StatusCount(payload.tasks, Some(InProgress)) >= 0
    // stage statistics, in the order the stages first appear among the tasks
    ensures payload.stageOrder == StageOrder(payload.tasks)
    ensures Distinct(payload.stageOrder)
    ensures forall k :: 0 <= k < |payload.stageOrder| ==> payload.stageOrder[k] in payload.stageStatistics
    ensures forall stage :: stage in payload.stageStatistics ==> stage in payload.stageOrder
    ensures forall stage :: stage in payload.stageStatistics <==>
      exists i :: 0 <= i < |payload.tasks| && payload.tasks[i].projectStageName == stage
    ensures forall stage :: stage in payload.stageStatistics ==>
      && payload.stageStatistics[stage] == CountsOf(payload.tasks, stage)
      && payload.stageStatistics[stage].total > 0
      && payload.stageStatistics[stage].total == payload.stageStatistics[stage].done + payload.stageStatistics[stage].cancelled
         + payload.stageStatistics[stage].overdue + payload.stageStatistics[stage].inProgress
    ensures forall s: Option<Status> :: SumField(payload.stageOrder, payload.stageStatistics, s) == StatusCount(payload.tasks, s)
    ensures SumField(payload.stageOrder, payload.stageStatistics, None) == payload.statistics.total
  {
    var fetchedStages := ProjectStagesRead(projects, projectStages);
    var lk := BuildLookups(projects, users, taskStages, fetchedStages);

    var processed, doneCount, cancelledCount, overdueCount := ProcessTasks(tasks, lk, now);
    var order, stats := StageStatistics(processed);
    var emittedOrder, emitted := EmitStages(order, stats);

    InProgressIsRemainder(processed);
    StatusPartition(processed);
    var total := |processed|;
    payload := Payload(
      processed,
      Statistics(total, doneCount, cancelledCount, overdueCount, total - doneCount - cancelledCount - overdueCount),
      emittedOrder,
      emitted);

    EmittedStagesAgree(processed, stats, emittedOrder, emitted);
    forall k | 0 <= k < |order|
      ensures order[k] in stats && stats[order[k]].total > 0
    {
      assert stats[order[k]] == CountsOf(processed, order[k]);
    }
    PositiveStagesAll(order, stats);
  }
}
