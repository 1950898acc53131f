/**
 * `sync_github_issue_to_clickup_task`: for an issue that already has a
 * task, bring description and status up to date; when no task's name is
 * exactly the issue's title, create one in status "TO DO".
 */
module IssueSync {
  import opened Wrappers
  import opened Records
  import opened Creation

  /**
   * The `updates` dictionary for `issue` and its matching `task`, or the
   * exception raised while building it: a missing `body` or `description`
   * key, or a `null` body concatenated with the link.
   */
  function UpdatesFor(issue: Issue, task: Task): (r: Result<map<string, string>, Fault>)
    ensures r.Err? <==> (issue.hasDescriptionKey &&
      (issue.body.Missing? || task.description.Missing? || (issue.body.Null? && issue.body != task.description)))
    ensures r.Ok? ==> r.value.Keys <= {"description", "status"}
    ensures r.Ok? ==> ("status" in r.value <==> issue.state == "closed" && task.status != "complete")
    ensures r.Ok? && "status" in r.value ==> r.value["status"] == "complete"
    ensures r.Ok? ==> ("description" in r.value <==> issue.hasDescriptionKey && issue.body != task.description)
    ensures r.Ok? && "description" in r.value ==>
      issue.body.Text? && r.value["description"] == issue.body.text + LinkSuffix(issue.htmlUrl)
  {
    var description: Result<map<string, string>, Fault> :=
      if !issue.hasDescriptionKey then Ok(map[])
      else if issue.body.Missing? then Err(MissingKey("body"))
      else if task.description.Missing? then Err(MissingKey("description"))
      else if issue.body == task.description then Ok(map[])
      else if issue.body.Null? then Err(NoneConcatenated)
      else Ok(map["description" := issue.body.text + LinkSuffix(issue.htmlUrl)]);
    match description
    case Err(f) => Err(f)
    case Ok(u) =>
      Ok(if issue.state == "closed" && task.status != "complete" then u["status" := "complete"] else u)
  }

  /** The update issued for the matched task: one `update_clickup_task` call, only when there is something to update. */
  function UpdateStep(issue: Issue, task: Task): (t: Trace)
    ensures t.outcome.Finished? <==> UpdatesFor(issue, task).Ok?
    ensures |t.actions| <= 1
    ensures |t.actions| == 1 <==> UpdatesFor(issue, task).Ok? && UpdatesFor(issue, task).value != map[]
    ensures |t.actions| == 1 ==> t.actions[0] == UpdateTask(task.id, UpdatesFor(issue, task).value)
  {
    match UpdatesFor(issue, task)
    case Err(f) => Fail([], Raised(f))
    case Ok(updates) => if updates == map[] then Done([]) else Done([UpdateTask(task.id, updates)])
  }

  /** What syncing `issue` against `tasks` does: the first exactly-named task decides. */
  function SyncPlan(issue: Issue, tasks: seq<Task>, svc: Services): Trace
  {
    if tasks == [] then Create(issue, Some("TO DO"), svc.moduleFieldId, svc).trace
    else if tasks[0].name.None? then Fail([], Raised(MissingKey("name")))
    else if tasks[0].name.value == issue.title then UpdateStep(issue, tasks[0])
    else SyncPlan(issue, tasks[1..], svc)
  }

  /** The tasks before `i` all have names and none is exactly `title`. */
  predicate NoExactBefore(tasks: seq<Task>, title: string, i: int)
    requires 0 <= i <= |tasks|
  {
    forall j :: 0 <= j < i ==> tasks[j].name.Some? && tasks[j].name.value != title
  }

  /** Only the first task whose name equals the title exactly is considered. */
  lemma {:induction false} SyncFirstExactMatch(issue: Issue, tasks: seq<Task>, svc: Services, i: int)
    requires 0 <= i < |tasks| && NoExactBefore(tasks, issue.title, i)
    requires tasks[i].name == Some(issue.title)
    ensures SyncPlan(issue, tasks, svc) == UpdateStep(issue, tasks[i])
  {
    if i > 0 {
      assert tasks[1..][i - 1] == tasks[i];
      assert NoExactBefore(tasks[1..], issue.title, i - 1) by {
        forall j | 0 <= j < i - 1 ensures tasks[1..][j] == tasks[j + 1] { }
      }
      SyncFirstExactMatch(issue, tasks[1..], svc, i - 1);
    }
  }

  /** Without an exact match the issue is created in status "TO DO". */
  lemma {:induction false} SyncWithoutExactMatch(issue: Issue, tasks: seq<Task>, svc: Services)
    requires NoExactBefore(tasks, issue.title, |tasks|)
    ensures SyncPlan(issue, tasks, svc) == Create(issue, Some("TO DO"), svc.moduleFieldId, svc).trace
  {
    if tasks != [] {
      assert NoExactBefore(tasks[1..], issue.title, |tasks| - 1) by {
        forall j | 0 <= j < |tasks| - 1 ensures tasks[1..][j] == tasks[j + 1] { }
      }
      SyncWithoutExactMatch(issue, tasks[1..], svc);
    }
  }

  /** A task without a name ahead of the first exact match raises `KeyError`. */
  lemma {:induction false} SyncNamelessTask(issue: Issue, tasks: seq<Task>, svc: Services, i: int)
    requires 0 <= i < |tasks| && NoExactBefore(tasks, issue.title, i) && tasks[i].name.None?
    ensures SyncPlan(issue, tasks, svc) == Fail([], Raised(MissingKey("name")))
  {
    if i > 0 {
      assert tasks[1..][i - 1] == tasks[i];
      assert NoExactBefore(tasks[1..], issue.title, i - 1) by {
        forall j | 0 <= j < i - 1 ensures tasks[1..][j] == tasks[j + 1] { }
      }
      SyncNamelessTask(issue, tasks[1..], svc, i - 1);
    }
  }

  /** `sync_github_issue_to_clickup_task`, with its `exists` flag, in-place `updates` and `break`. */
  method SyncIssue(issue: Issue, tasks: seq<Task>, svc: Services) returns (t: Trace)
    ensures t == SyncPlan(issue, tasks, svc)
  {
    var found := false;
    var i := 0;
    t := Done([]);
    while i < |tasks|
      invariant 0 <= i <= |tasks|
      invariant !found
      invariant SyncPlan(issue, tasks, svc) == SyncPlan(issue, tasks[i..], svc)
    {
      var task := tasks[i];
      assert tasks[i..][0] == task && tasks[i..][1..] == tasks[i + 1..];
      if task.name.None? {
        return Fail([], Raised(MissingKey("name")));
      }
      if task.name.value == issue.title {
        found := true;
        var updates: map<string, string> := map[];
        if issue.hasDescriptionKey {
          if issue.body.Missing? {
            return Fail([], Raised(MissingKey("body")));
          }
          if task.description.Missing? {
            return Fail([], Raised(MissingKey("description")));
          }
          if issue.body != task.description {
            if issue.body.Null? {
              return Fail([], Raised(NoneConcatenated));
            }
            updates := updates["description" := issue.body.text + LinkSuffix(issue.htmlUrl)];
          }
        }
        if issue.state == "closed" && task.status != "complete" {
          updates := updates["status" := "complete"];
        }
        if updates != map[] {
          t := Done([UpdateTask(task.id, updates)]);
        }
        break;
      }
      i := i + 1;
    }
    if !found {
      assert tasks[i..] == [];
      var c := Create(issue, Some("TO DO"), svc.moduleFieldId, svc);
      t := c.trace;
    }
  }
}
