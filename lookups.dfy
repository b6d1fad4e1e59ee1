/**
 * The records that the Odoo reads return, the id sets collected from the
 * tasks to drive those reads, and the lookup dictionaries built from the
 * records (project names, managers and stages, user names, stage names).
 */
module Lookups {
  import opened Optional

  /** A `project.task` row: many2one fields are an id or False, `user_ids` a list of ids. */
  datatype RawTask = RawTask(
    id: int,
    name: string,
    projectId: Option<int>,
    stageId: Option<int>,
    deadline: Option<int>,
    userIds: seq<int>,
    state: Option<string>,
    isClosed: bool)

  /** A `project.project` row: its manager is the display name of `user_id`, or False. */
  datatype Project = Project(id: int, name: string, manager: Option<string>, stageId: Option<int>)

  /** A row of `res.users`, `project.task.type` or `project.project.stage`: an id and a name. */
  datatype Named = Named(id: int, name: string)

  /** `project_ids`, `user_ids` and `task_stage_ids`: every id the tasks refer to. */
  method CollectIds(tasks: seq<RawTask>) returns (projectIds: set<int>, userIds: set<int>, stageIds: set<int>)
    ensures forall p :: p in projectIds <==> exists i :: 0 <= i < |tasks| && tasks[i].projectId == Some(p)
    ensures forall u :: u in userIds <==> exists i :: 0 <= i < |tasks| && u in tasks[i].userIds
    ensures forall s :: s in stageIds <==> exists i :: 0 <= i < |tasks| && tasks[i].stageId == Some(s)
  {
    projectIds, userIds, stageIds := {}, {}, {};
    for i := 0 to |tasks|
      invariant forall p :: p in projectIds <==> exists j :: 0 <= j < i && tasks[j].projectId == Some(p)
      invariant forall u :: u in userIds <==> exists j :: 0 <= j < i && u in tasks[j].userIds
      invariant forall s :: s in stageIds <==> exists j :: 0 <= j < i && tasks[j].stageId == Some(s)
    {
      var task := tasks[i];
      if task.projectId.Some? {
        projectIds := projectIds + {task.projectId.value};
      }
      if task.userIds != [] {
        userIds := userIds + set u | u in task.userIds;
      }
      if task.stageId.Some? {
        stageIds := stageIds + {task.stageId.value};
      }
    }
  }

  /** `project_stage_ids`: the stage of every project that has one. */
  method CollectProjectStageIds(projects: seq<Project>) returns (stageIds: set<int>)
    ensures forall s :: s in stageIds <==> exists i :: 0 <= i < |projects| && projects[i].stageId == Some(s)
  {
    stageIds := {};
    for i := 0 to |projects|
      invariant forall s :: s in stageIds <==> exists j :: 0 <= j < i && projects[j].stageId == Some(s)
    {
      if projects[i].stageId.Some? {
        stageIds := stageIds + {projects[i].stageId.value};
      }
    }
  }

  /** No row after row i carries the same key, so row i is the one a dictionary keeps. */
  predicate IsLastWithKey<T>(rows: seq<T>, key: T -> int, i: int)
    requires 0 <= i < |rows|
  {
    forall j :: i < j < |rows| ==> key(rows[j]) != key(rows[i])
  }

  /** A dictionary comprehension `{key(r): value(r) for r in rows}`, built up row by row. */
  function DictOf<T, V>(rows: seq<T>, key: T -> int, value: T -> V): map<int, V> {
    if rows == [] then map[]
    else DictOf(rows[..|rows| - 1], key, value)[key(rows[|rows| - 1]) := value(rows[|rows| - 1])]
  }

  /** The keys of the dictionary are the keys of the rows. */
  lemma {:induction false} DictOfKeys<T, V>(rows: seq<T>, key: T -> int, value: T -> V)
    ensures DictOf(rows, key, value).Keys == set i | 0 <= i < |rows| :: key(rows[i])
  {
    if rows != [] {
      var init := rows[..|rows| - 1];
      DictOfKeys(init, key, value);
      assert forall i :: 0 <= i < |init| ==> init[i] == rows[i];
      var before := set i | 0 <= i < |init| :: key(init[i]);
      var after := set i | 0 <= i < |rows| :: key(rows[i]);
      assert after == before + {key(rows[|rows| - 1])} by {
        forall k | k in after ensures k in before + {key(rows[|rows| - 1])} {
          var i :| 0 <= i < |rows| && key(rows[i]) == k;
          if i < |init| {
            assert key(init[i]) == k;
          }
        }
      }
    }
  }

  /** Where a key repeats, the value of the last row with that key wins. */
  lemma {:induction false} DictOfLastWins<T, V>(rows: seq<T>, key: T -> int, value: T -> V, i: nat)
    requires i < |rows| && IsLastWithKey(rows, key, i)
    ensures key(rows[i]) in DictOf(rows, key, value) && DictOf(rows, key, value)[key(rows[i])] == value(rows[i])
  {
    if i < |rows| - 1 {
      var init := rows[..|rows| - 1];
      assert init[i] == rows[i];
      assert IsLastWithKey(init, key, i) by {
        forall j | i < j < |init| ensures key(init[j]) != key(init[i]) {
          assert init[j] == rows[j];
        }
      }
      DictOfLastWins(init, key, value, i);
      assert key(rows[|rows| - 1]) != key(rows[i]);
    }
  }

  /** In an `{r['id']: r['name'] for r in rows}` dictionary, each id maps to the name of the last row with it. */
  lemma NamedDictValues(rows: seq<Named>)
    ensures forall i :: 0 <= i < |rows| && IsLastWithKey(rows, RowId, i) ==>
      rows[i].id in DictOf(rows, RowId, RowName) && DictOf(rows, RowId, RowName)[rows[i].id] == rows[i].name
  {
    forall i | 0 <= i < |rows| && IsLastWithKey(rows, RowId, i)
      ensures rows[i].id in DictOf(rows, RowId, RowName) && DictOf(rows, RowId, RowName)[rows[i].id] == rows[i].name
    {
      DictOfLastWins(rows, RowId, RowName, i);
    }
  }

  /** The lookup dictionaries of the task loop. */
  datatype Lookups = Lookups(
    projectManagers: map<int, string>,
    projectNames: map<int, string>,
    userNames: map<int, string>,
    taskStageNames: map<int, string>,
    projectStageNames: map<int, string>,
    projectStageMapping: map<int, Option<int>>)

  function ProjectId(p: Project): int { p.id }
  function ProjectName(p: Project): string { p.name }
  function ProjectStage(p: Project): Option<int> { p.stageId }
  function RowId(n: Named): int { n.id }
  function RowName(n: Named): string { n.name }

  /** `proj['user_id'][1] if proj['user_id'] else "No Manager"`. */
  function ManagerOf(p: Project): string {
    if p.manager.Some? then p.manager.value else "No Manager"
  }

  /**
   * Builds the six lookup dictionaries. The three project dictionaries share
   * their keys, which are the ids of the projects; for an id, each holds what
   * the last project record with that id says.
   */
  function BuildLookups(projects: seq<Project>, users: seq<Named>, taskStages: seq<Named>, projectStages: seq<Named>): (lk: Lookups)
    ensures lk.projectManagers.Keys == lk.projectNames.Keys == lk.projectStageMapping.Keys == set i | 0 <= i < |projects| :: projects[i].id
    ensures lk.userNames.Keys == set i | 0 <= i < |users| :: users[i].id
    ensures lk.taskStageNames.Keys == set i | 0 <= i < |taskStages| :: taskStages[i].id
    ensures lk.projectStageNames.Keys == set i | 0 <= i < |projectStages| :: projectStages[i].id
    ensures forall i :: 0 <= i < |projects| && IsLastWithKey(projects, ProjectId, i) ==>
      && projects[i].id in lk.projectNames
      && lk.projectNames[projects[i].id] == projects[i].name
      && lk.projectManagers[projects[i].id] == (if projects[i].manager.Some? then projects[i].manager.value else "No Manager")
      && lk.projectStageMapping[projects[i].id] == projects[i].stageId
    ensures forall i :: 0 <= i < |users| && IsLastWithKey(users, RowId, i) ==>
      users[i].id in lk.userNames && lk.userNames[users[i].id] == users[i].name
    ensures forall i :: 0 <= i < |taskStages| && IsLastWithKey(taskStages, RowId, i) ==>
      taskStages[i].id in lk.taskStageNames && lk.taskStageNames[taskStages[i].id] == taskStages[i].name
    ensures forall i :: 0 <= i < |projectStages| && IsLastWithKey(projectStages, RowId, i) ==>
      projectStages[i].id in lk.projectStageNames && lk.projectStageNames[projectStages[i].id] == projectStages[i].name
  {
    var lk := Lookups(
      DictOf(projects, ProjectId, ManagerOf),
      DictOf(projects, ProjectId, ProjectName),
      DictOf(users, RowId, RowName),
      DictOf(taskStages, RowId, RowName),
      DictOf(projectStages, RowId, RowName),
      DictOf(projects, ProjectId, ProjectStage));
    DictOfKeys(projects, ProjectId, ManagerOf);
    DictOfKeys(projects, ProjectId, ProjectName);
    DictOfKeys(projects, ProjectId, ProjectStage);
    DictOfKeys(users, RowId, RowName);
    DictOfKeys(taskStages, RowId, RowName);
    DictOfKeys(projectStages, RowId, RowName);
    assert forall i :: 0 <= i < |projects| && IsLastWithKey(projects, ProjectId, i) ==>
      && projects[i].id in lk.projectNames
      && lk.projectNames[projects[i].id] == projects[i].name
      && lk.projectManagers[projects[i].id] == ManagerOf(projects[i])
      && lk.projectStageMapping[projects[i].id] == projects[i].stageId
    by {
      forall i | 0 <= i < |projects| && IsLastWithKey(projects, ProjectId, i)
        ensures projects[i].id in lk.projectNames
        ensures lk.projectNames[projects[i].id] == projects[i].name
        ensures lk.projectManagers[projects[i].id] == ManagerOf(projects[i])
        ensures lk.projectStageMapping[projects[i].id] == projects[i].stageId
      {
        DictOfLastWins(projects, ProjectId, ManagerOf, i);
        DictOfLastWins(projects, ProjectId, ProjectName, i);
        DictOfLastWins(projects, ProjectId, ProjectStage, i);
      }
    }
    NamedDictValues(users);
    NamedDictValues(taskStages);
    NamedDictValues(projectStages);
    lk
  }

  /** `d.get(k, default)` where the key may be None, which no dictionary here holds. */
  function Get<V>(m: map<int, V>, k: Option<int>, fallback: V): V {
    if k.Some? && k.value in m then m[k.value] else fallback
  }

  /** The state values the backend knows, with their display labels. */
  const StateLabels: map<string, string> := map[
    "01_in_progress" := "In Progress",
    "02_changes_requested" := "Changes Requested",
    "03_approved" := "Approved",
    "1_canceled" := "Cancelled",
    "1_done" := "Done",
    "04_waiting_normal" := "Waiting"]

  /** `task_state_label`: the label of a known state, "Unknown" for any other or a missing one. */
  function StateLabel(state: Option<string>): (shown: string)
    ensures shown != "Unknown" <==> state.Some? && state.value in StateLabels
    ensures shown == "Cancelled" <==> state == Some("1_canceled")
    ensures shown == "Done" <==> state == Some("1_done")
  {
    if state.Some? && state.value in StateLabels then StateLabels[state.value] else "Unknown"
  }

  function DigitChar(d: nat): char
    requires d < 10
  {
    ['0', '1', '2', '3', '4', '5', '6', '7', '8', '9'][d]
  }

  function NatString(n: nat): (s: string)
    ensures |s| >= 1
  {
    if n < 10 then [DigitChar(n)] else NatString(n / 10) + [DigitChar(n % 10)]
  }

  /** Python's `str` of an integer. */
  function IntString(i: int): string {
    if i < 0 then "-" + NatString(-i) else NatString(i)
  }

  /** `user_names.get(uid, f"User {uid}")`. */
  function AssigneeName(userNames: map<int, string>, uid: int): string {
    if uid in userNames then userNames[uid] else "User " + IntString(uid)
  }
}
