/**
 * The per-project-stage statistics of the dashboard: every processed task is
 * counted under the name of its project's stage, in the total and in the one
 * status counter its priority selects.
 */
module Stages {
  import opened Optional
  import opened Tasks

  /** The counters of one stage. */
  datatype StageCounts = StageCounts(total: nat, done: nat, overdue: nat, inProgress: nat, cancelled: nat)

  /** The counters of a stage seen for the first time. */
  const Fresh := StageCounts(0, 0, 0, 0, 0)

  /** One task more in a stage: its total and the counter of its status go up by one. */
  function Bump(c: StageCounts, s: Status): StageCounts {
    match s
    case Done => c.(total := c.total + 1, done := c.done + 1)
    case Cancelled => c.(total := c.total + 1, cancelled := c.cancelled + 1)
    case Overdue => c.(total := c.total + 1, overdue := c.overdue + 1)
    case InProgress => c.(total := c.total + 1, inProgress := c.inProgress + 1)
  }

  /** The counter that a status filter reads: None reads the total. */
  function Field(c: StageCounts, s: Option<Status>): nat {
    match s
    case None => c.total
    case Some(Done) => c.done
    case Some(Cancelled) => c.cancelled
    case Some(Overdue) => c.overdue
    case Some(InProgress) => c.inProgress
  }

  /** The number of tasks of the named project stage that pass the status filter. */
  function StageCount(ps: seq<ProcessedTask>, stage: string, s: Option<Status>): nat {
    if ps == [] then 0
    else
      var p := ps[|ps| - 1];
      StageCount(ps[..|ps| - 1], stage, s) + (if p.projectStageName == stage && HasStatus(p, s) then 1 else 0)
  }

  /** What the counters of a stage should hold after the tasks ps. */
  function CountsOf(ps: seq<ProcessedTask>, stage: string): StageCounts {
    StageCounts(
      StageCount(ps, stage, None),
      StageCount(ps, stage, Some(Done)),
      StageCount(ps, stage, Some(Overdue)),
      StageCount(ps, stage, Some(InProgress)),
      StageCount(ps, stage, Some(Cancelled)))
  }

  lemma StageCountAppend(ps: seq<ProcessedTask>, p: ProcessedTask, stage: string, s: Option<Status>)
    ensures StageCount(ps + [p], stage, s) == StageCount(ps, stage, s) + (if p.projectStageName == stage && HasStatus(p, s) then 1 else 0)
  {
    assert (ps + [p])[..|ps|] == ps;
  }

  lemma CountsAppend(ps: seq<ProcessedTask>, p: ProcessedTask, stage: string)
    ensures CountsOf(ps + [p], stage) == if p.projectStageName == stage then Bump(CountsOf(ps, stage), StatusOf(p)) else CountsOf(ps, stage)
  {
    StageCountAppend(ps, p, stage, None);
    StageCountAppend(ps, p, stage, Some(Done));
    StageCountAppend(ps, p, stage, Some(Cancelled));
    StageCountAppend(ps, p, stage, Some(Overdue));
    StageCountAppend(ps, p, stage, Some(InProgress));
  }

  /** A filtered count never exceeds the stage total. */
  lemma {:induction false} StageCountAtMostTotal(ps: seq<ProcessedTask>, stage: string, s: Option<Status>)
    ensures StageCount(ps, stage, s) <= StageCount(ps, stage, None)
  {
    if ps != [] {
      StageCountAtMostTotal(ps[..|ps| - 1], stage, s);
    }
  }

  /** A stage with no tasks has all counters at zero. */
  lemma NoTasksNoCounts(ps: seq<ProcessedTask>, stage: string)
    requires StageCount(ps, stage, None) == 0
    ensures CountsOf(ps, stage) == Fresh
  {
    StageCountAtMostTotal(ps, stage, Some(Done));
    StageCountAtMostTotal(ps, stage, Some(Cancelled));
    StageCountAtMostTotal(ps, stage, Some(Overdue));
    StageCountAtMostTotal(ps, stage, Some(InProgress));
  }

  /** A task is counted in the total of its own stage. */
  lemma {:induction false} OwnStageCounted(ps: seq<ProcessedTask>, i: nat)
    requires i < |ps|
    ensures StageCount(ps, ps[i].projectStageName, None) > 0
  {
    if i < |ps| - 1 {
      OwnStageCounted(ps[..|ps| - 1], i);
    }
  }

  /** A stage has a positive total exactly when some task belongs to it. */
  lemma {:induction false} StageNonEmptyIff(ps: seq<ProcessedTask>, stage: string)
    ensures StageCount(ps, stage, None) > 0 <==> exists i :: 0 <= i < |ps| && ps[i].projectStageName == stage
  {
    if ps != [] {
      var ps' := ps[..|ps| - 1];
      StageNonEmptyIff(ps', stage);
      if StageCount(ps', stage, None) > 0 {
        var i :| 0 <= i < |ps'| && ps'[i].projectStageName == stage;
        assert ps[i] == ps'[i];
      }
      if exists i :: 0 <= i < |ps| && ps[i].projectStageName == stage {
        var i :| 0 <= i < |ps| && ps[i].projectStageName == stage;
        OwnStageCounted(ps, i);
      }
    }
  }

  /** No two positions of the sequence hold the same name. */
  predicate Distinct(names: seq<string>) {
    forall i, j :: 0 <= i < j < |names| ==> names[i] != names[j]
  }

  /**
   * The insertion order of the stage dictionary: the stage names of the
   * tasks, each once, in the order of their first appearance.
   */
  function StageOrder(ps: seq<ProcessedTask>): seq<string> {
    if ps == [] then []
    else
      var order := StageOrder(ps[..|ps| - 1]);
      var name := ps[|ps| - 1].projectStageName;
      if name in order then order else order + [name]
  }

  /** The order lists exactly the stage names of the tasks. */
  lemma {:induction false} StageOrderMembers(ps: seq<ProcessedTask>)
    ensures forall stage :: stage in StageOrder(ps) <==> exists i :: 0 <= i < |ps| && ps[i].projectStageName == stage
  {
    if ps != [] {
      var ps' := ps[..|ps| - 1];
      StageOrderMembers(ps');
      forall stage
        ensures stage in StageOrder(ps) <==> exists i :: 0 <= i < |ps| && ps[i].projectStageName == stage
      {
        if exists i :: 0 <= i < |ps'| && ps'[i].projectStageName == stage {
          var i :| 0 <= i < |ps'| && ps'[i].projectStageName == stage;
          assert ps[i] == ps'[i];
        }
        if exists i :: 0 <= i < |ps| && ps[i].projectStageName == stage {
          var i :| 0 <= i < |ps| && ps[i].projectStageName == stage;
          if i < |ps'| {
            assert ps'[i] == ps[i];
          }
        }
      }
    }
  }

  /** The order names each stage once. */
  lemma {:induction false} StageOrderDistinct(ps: seq<ProcessedTask>)
    ensures Distinct(StageOrder(ps))
  {
    if ps != [] {
      StageOrderDistinct(ps[..|ps| - 1]);
    }
  }

  /**
   * A stage comes before another in the order exactly as it appears first:
   * wherever a task of the later stage sits, a task of the earlier stage
   * sits before it.
   */
  lemma {:induction false} StageOrderByFirstAppearance(ps: seq<ProcessedTask>)
    ensures forall k, l, j :: 0 <= k < l < |StageOrder(ps)| && 0 <= j < |ps| && ps[j].projectStageName == StageOrder(ps)[l] ==>
      exists i :: 0 <= i < j && ps[i].projectStageName == StageOrder(ps)[k]
  {
    if ps != [] {
      var ps', p := ps[..|ps| - 1], ps[|ps| - 1];
      var order, order' := StageOrder(ps), StageOrder(ps');
      StageOrderByFirstAppearance(ps');
      StageOrderMembers(ps');
      forall k, l, j | 0 <= k < l < |order| && 0 <= j < |ps| && ps[j].projectStageName == order[l]
        ensures exists i :: 0 <= i < j && ps[i].projectStageName == order[k]
      {
        assert order[k] == order'[k] && order[k] in order';
        var i0 :| 0 <= i0 < |ps'| && ps'[i0].projectStageName == order[k];
        assert ps[i0] == ps'[i0];
        if l < |order'| {
          assert order[l] == order'[l] && order[l] in order';
          var j' := j;
          if j == |ps'| {
            j' :| 0 <= j' < |ps'| && ps'[j'].projectStageName == order[l];
          }
          assert ps'[j'].projectStageName == order'[l];
          var i :| 0 <= i < j' && ps'[i].projectStageName == order'[k];
          assert ps[i] == ps'[i];
        } else {
          assert order[l] == p.projectStageName && p.projectStageName !in order';
          assert j == |ps'|;
        }
      }
    }
  }

  /**
   * The stage loop. The map holds exactly the stages that some task belongs
   * to, with their counts; `order` lists them once each, in the order the
   * dictionary first saw them.
   */
  method StageStatistics(ps: seq<ProcessedTask>) returns (order: seq<string>, stats: map<string, StageCounts>)
    ensures order == StageOrder(ps)
    ensures Distinct(order)
    ensures forall k :: 0 <= k < |order| ==> order[k] in stats
    ensures forall stage :: stage in stats ==> stage in order
    ensures forall stage :: stage in stats <==> StageCount(ps, stage, None) > 0
    ensures forall stage :: stage in stats ==> stats[stage] == CountsOf(ps, stage)
  {
    order, stats := [], map[];
    for i := 0 to |ps|
      invariant order == StageOrder(ps[..i])
      invariant Distinct(order)
      invariant forall k :: 0 <= k < |order| ==> order[k] in stats
      invariant forall stage :: stage in stats ==> stage in order
      invariant forall stage :: stage in stats <==> StageCount(ps[..i], stage, None) > 0
      invariant forall stage :: stage in stats ==> stats[stage] == CountsOf(ps[..i], stage)
    {
      var p := ps[i];
      var name := p.projectStageName;
      assert ps[..i + 1] == ps[..i] + [p];
      assert ps[..i + 1][..i] == ps[..i];
      forall stage
        ensures CountsOf(ps[..i + 1], stage) == if name == stage then Bump(CountsOf(ps[..i], stage), StatusOf(p)) else CountsOf(ps[..i], stage)
        ensures StageCount(ps[..i + 1], stage, None) == StageCount(ps[..i], stage, None) + (if name == stage then 1 else 0)
      {
        CountsAppend(ps[..i], p, stage);
        StageCountAppend(ps[..i], p, stage, None);
      }
      if name !in stats {
        NoTasksNoCounts(ps[..i], name);
        stats := stats[name := Fresh];
        order := order + [name];
      }
      stats := stats[name := Bump(stats[name], StatusOf(p))];
    }
    assert ps[..|ps|] == ps;
  }

  /** Every stage's total is the sum of its four status counters. */
  lemma {:induction false} StageTotalIsSum(ps: seq<ProcessedTask>, stage: string)
    ensures CountsOf(ps, stage).total
         == CountsOf(ps, stage).done + CountsOf(ps, stage).cancelled + CountsOf(ps, stage).overdue + CountsOf(ps, stage).inProgress
  {
    if ps != [] {
      StageTotalIsSum(ps[..|ps| - 1], stage);
    }
  }

  /** The sum of one counter over the listed stages. */
  function SumField(order: seq<string>, stats: map<string, StageCounts>, s: Option<Status>): nat
    requires forall k :: 0 <= k < |order| ==> order[k] in stats
  {
    if order == [] then 0 else Field(stats[order[0]], s) + SumField(order[1..], stats, s)
  }

  /** The sum over the listed stages of the per-stage counts. */
  function SumCounts(order: seq<string>, ps: seq<ProcessedTask>, s: Option<Status>): nat {
    if order == [] then 0 else StageCount(ps, order[0], s) + SumCounts(order[1..], ps, s)
  }

  /** How many times the name is listed. */
  function Occurrences(order: seq<string>, stage: string): nat {
    if order == [] then 0 else (if order[0] == stage then 1 else 0) + Occurrences(order[1..], stage)
  }

  lemma {:induction false} OccurrencesOfDistinct(order: seq<string>, stage: string)
    requires Distinct(order)
    ensures Occurrences(order, stage) == if stage in order then 1 else 0
  {
    if order != [] {
      OccurrencesOfDistinct(order[1..], stage);
      if order[0] == stage {
        assert stage !in order[1..] by {
          forall k | 0 <= k < |order[1..]|
            ensures order[1..][k] != stage
          {
            assert order[1..][k] == order[k + 1];
          }
        }
      }
    }
  }

  lemma {:induction false} SumCountsAppend(order: seq<string>, ps: seq<ProcessedTask>, p: ProcessedTask, s: Option<Status>)
    ensures SumCounts(order, ps + [p], s) == SumCounts(order, ps, s) + (if HasStatus(p, s) then Occurrences(order, p.projectStageName) else 0)
  {
    if order != [] {
      SumCountsAppend(order[1..], ps, p, s);
      StageCountAppend(ps, p, order[0], s);
    }
  }

  /**
   * Summed over a list that names every stage of the tasks once, the
   * per-stage counts give the global count: each task is counted in exactly
   * one stage.
   */
  lemma {:induction false} SumCountsIsStatusCount(order: seq<string>, ps: seq<ProcessedTask>, s: Option<Status>)
    requires Distinct(order)
    requires forall i :: 0 <= i < |ps| ==> ps[i].projectStageName in order
    ensures SumCounts(order, ps, s) == StatusCount(ps, s)
  {
    if ps == [] {
      SumCountsEmpty(order, s);
    } else {
      var ps', p := ps[..|ps| - 1], ps[|ps| - 1];
      assert ps == ps' + [p];
      SumCountsIsStatusCount(order, ps', s);
      SumCountsAppend(order, ps', p, s);
      OccurrencesOfDistinct(order, p.projectStageName);
    }
  }

  lemma {:induction false} SumCountsEmpty(order: seq<string>, s: Option<Status>)
    ensures SumCounts(order, [], s) == 0
  {
    if order != [] {
      SumCountsEmpty(order[1..], s);
    }
  }

  lemma {:induction false} SumFieldIsSumCounts(order: seq<string>, stats: map<string, StageCounts>, ps: seq<ProcessedTask>, s: Option<Status>)
    requires forall k :: 0 <= k < |order| ==> order[k] in stats && stats[order[k]] == CountsOf(ps, order[k])
    ensures SumField(order, stats, s) == SumCounts(order, ps, s)
  {
    if order != [] {
      assert forall k :: 0 <= k < |order[1..]| ==> order[1..][k] == order[k + 1];
      SumFieldIsSumCounts(order[1..], stats, ps, s);
    }
  }

  /**
   * The stage statistics agree with the global ones: summed over all stages,
   * every counter (and the total) equals the global count of the tasks.
   */
  lemma StageSumsMatchStatistics(ps: seq<ProcessedTask>, order: seq<string>, stats: map<string, StageCounts>, s: Option<Status>)
    requires Distinct(order)
    requires forall k :: 0 <= k < |order| ==> order[k] in stats
    requires forall stage :: stage in stats ==> stage in order
    requires forall stage :: stage in stats <==> StageCount(ps, stage, None) > 0
    requires forall stage :: stage in stats ==> stats[stage] == CountsOf(ps, stage)
    ensures SumField(order, stats, s) == StatusCount(ps, s)
  {
    forall i | 0 <= i < |ps|
      ensures ps[i].projectStageName in order
    {
      OwnStageCounted(ps, i);
    }
    SumFieldIsSumCounts(order, stats, ps, s);
    SumCountsIsStatusCount(order, ps, s);
  }
}
