/**
 * `sync_github_to_clickup`: one pass over the listed issues against the
 * task list fetched once at the start, followed by the closure of tasks
 * whose issue is gone.
 */
module Orchestrator {
  import opened Wrappers
  import opened Text
  import opened Records
  import opened Matching
  import opened Creation
  import opened IssueSync
  import opened Deleted

  /** The request-type custom-field id the run passes to new tasks. */
  const RunFieldId: string := "0f3ee9db-dd7d-4893-80ae-3f2f816043d4"

  /** Some task's name is exactly `title`. */
  predicate Mirrored(title: string, tasks: seq<Task>)
  {
    exists k :: 0 <= k < |tasks| && tasks[k].name == Some(title)
  }

  /**
   * One iteration of the issue loop: sync when `task_exists`, otherwise
   * create; the run reads the created task's `id`, so a create that returns
   * nothing raises.
   */
  function IssueStep(issue: Issue, tasks: seq<Task>, status: Option<string>, svc: Services): Trace
  {
    if TaskExists(issue, tasks) then SyncPlan(issue, tasks, svc)
    else
      var c := Create(issue, status, Some(RunFieldId), svc);
      if c.trace.outcome.Finished? && c.returned.None? then Fail(c.trace.actions, Raised(NoneSubscripted))
      else c.trace
  }

  /** The issue loop, stopping at the first exception. */
  function IssuesPlan(issues: seq<Issue>, tasks: seq<Task>, status: Option<string>, svc: Services): Trace
  {
    if issues == [] then Done([])
    else Then(IssuesPlan(issues[..|issues| - 1], tasks, status, svc), IssueStep(issues[|issues| - 1], tasks, status, svc))
  }

  /**
   * The whole pass. Listing the task names for the debug line raises on a
   * task without a name; the status choice raises on a nameless first status.
   */
  function RunPlan(issues: seq<Issue>, tasks: seq<Task>, statuses: seq<StatusEntry>, svc: Services): Trace
  {
    if !AllNamed(tasks) then Fail([], Raised(MissingKey("name")))
    else
      match InitialStatus(statuses)
      case Err(f) => Fail([], Raised(f))
      case Ok(status) => Then(IssuesPlan(issues, tasks, status, svc), Closures(Titles(issues), tasks))
  }

  /** `sync_github_to_clickup`, with the fetched lists and statuses as inputs. */
  method SyncRun(issues: seq<Issue>, tasks: seq<Task>, statuses: seq<StatusEntry>, svc: Services) returns (t: Trace)
    ensures t == RunPlan(issues, tasks, statuses, svc)
  {
    if !AllNamed(tasks) {
      return Fail([], Raised(MissingKey("name")));
    }
    var initial := InitialStatus(statuses);
    if initial.Err? {
      return Fail([], Raised(initial.error));
    }
    var status := initial.value;
    t := Done([]);
    var i := 0;
    while i < |issues|
      invariant 0 <= i <= |issues|
      invariant t == IssuesPlan(issues[..i], tasks, status, svc)
      invariant t.outcome.Finished?
    {
      var step := ProcessIssue(issues[i], tasks, status, svc);
      IssuesPlanSnoc(issues, tasks, status, svc, i);
      t := Then(t, step);
      i := i + 1;
      if t.outcome.Stopped? {
        IssuesStoppedStays(issues, tasks, status, svc, i);
        return t;
      }
    }
    assert issues[..i] == issues;
    var closing := HandleDeleted(issues, tasks);
    t := Then(t, closing);
  }

  /**
   * The body of the issue loop: an issue `task_exists` finds is synced, any
   * other is created in the chosen status with the run's field id, and the
   * iteration finishes only when ClickUp handed back the new task.
   */
  method ProcessIssue(issue: Issue, tasks: seq<Task>, status: Option<string>, svc: Services) returns (step: Trace)
    ensures step == IssueStep(issue, tasks, status, svc)
    ensures TaskExists(issue, tasks) ==> step == SyncPlan(issue, tasks, svc)
    ensures var p := PayloadFor(issue, status, Some(RunFieldId));
      !TaskExists(issue, tasks) && step.outcome.Finished? ==>
        && |step.actions| > 0 && step.actions[0] == CreateTask(p)
        && CountCreates(step.actions) == 1
        && svc.create(p).Created?
    ensures Mirrored(issue.title, tasks) ==> CountCreates(step.actions) == 0
    ensures NoUploads(step.actions)
  {
    SyncUploadsNothing(issue, tasks, svc);
    if Mirrored(issue.title, tasks) {
      MirroredExists(issue, tasks);
      SyncMirroredCreatesNothing(issue, tasks, svc);
    }
    if TaskExists(issue, tasks) {
      step := SyncIssue(issue, tasks, svc);
    } else {
      var c := Create(issue, status, Some(RunFieldId), svc);
      if c.trace.outcome.Finished? && c.returned.None? {
        step := Fail(c.trace.actions, Raised(NoneSubscripted));
      } else {
        step := c.trace;
      }
    }
  }

  /** The issue loop over one more issue runs that issue's step after the others. */
  lemma IssuesPlanSnoc(issues: seq<Issue>, tasks: seq<Task>, status: Option<string>, svc: Services, i: int)
    requires 0 <= i < |issues|
    ensures IssuesPlan(issues[..i + 1], tasks, status, svc)
         == Then(IssuesPlan(issues[..i], tasks, status, svc), IssueStep(issues[i], tasks, status, svc))
  {
    assert issues[..i + 1][..i] == issues[..i];
  }

  /** Once the issue loop has stopped, later issues change nothing. */
  lemma {:induction false} IssuesStoppedStays(issues: seq<Issue>, tasks: seq<Task>, status: Option<string>, svc: Services, i: int)
    requires 0 <= i <= |issues| && IssuesPlan(issues[..i], tasks, status, svc).outcome.Stopped?
    ensures IssuesPlan(issues, tasks, status, svc) == IssuesPlan(issues[..i], tasks, status, svc)
    decreases |issues| - i
  {
    if i < |issues| {
      assert issues[..i + 1][..i] == issues[..i];
      IssuesStoppedStays(issues, tasks, status, svc, i + 1);
    } else {
      assert issues[..i] == issues;
    }
  }

  /** Syncing an issue that has an exactly-named task never creates. */
  lemma {:induction false} SyncMirroredCreatesNothing(issue: Issue, tasks: seq<Task>, svc: Services)
    requires Mirrored(issue.title, tasks)
    ensures CountCreates(SyncPlan(issue, tasks, svc).actions) == 0
    ensures NoUploads(SyncPlan(issue, tasks, svc).actions)
  {
    if tasks[0].name.None? || tasks[0].name.value != issue.title {
      if tasks[0].name.Some? {
        var k :| 0 <= k < |tasks| && tasks[k].name == Some(issue.title);
        assert tasks[1..][k - 1] == tasks[k];
        SyncMirroredCreatesNothing(issue, tasks[1..], svc);
      }
    } else {
      var t := UpdateStep(issue, tasks[0]);
      CountCreatesNone(t.actions);
    }
  }

  /** A sync never uploads an image. */
  lemma {:induction false} SyncUploadsNothing(issue: Issue, tasks: seq<Task>, svc: Services)
    ensures NoUploads(SyncPlan(issue, tasks, svc).actions)
  {
    if tasks != [] && tasks[0].name.Some? && tasks[0].name.value != issue.title {
      SyncUploadsNothing(issue, tasks[1..], svc);
    }
  }

  /** An exact name match is also a match after normalisation. */
  lemma MirroredExists(issue: Issue, tasks: seq<Task>)
    requires Mirrored(issue.title, tasks)
    ensures TaskExists(issue, tasks)
  {
    var k :| 0 <= k < |tasks| && tasks[k].name == Some(issue.title);
    assert NameMatches(tasks[k], issue.title);
  }

  /**
   * An issue whose title matches a task only after normalisation is not
   * updated but created again, in status "TO DO": `task_exists` finds it,
   * the exact comparison of the sync does not.
   */
  lemma NormalisedOnlyMatchCreates(issue: Issue, tasks: seq<Task>, status: Option<string>, svc: Services)
    requires AllNamed(tasks) && TaskExists(issue, tasks) && !Mirrored(issue.title, tasks)
    ensures IssueStep(issue, tasks, status, svc) == Create(issue, Some("TO DO"), svc.moduleFieldId, svc).trace
  {
    SyncWithoutExactMatch(issue, tasks, svc);
  }

  /** A finished iteration creates exactly once for an issue without an exactly-named task, else never. */
  lemma IssueStepCreates(issue: Issue, tasks: seq<Task>, status: Option<string>, svc: Services)
    requires AllNamed(tasks)
    ensures IssueStep(issue, tasks, status, svc).outcome.Finished? ==>
      CountCreates(IssueStep(issue, tasks, status, svc).actions) == if Mirrored(issue.title, tasks) then 0 else 1
    ensures Mirrored(issue.title, tasks) ==> CountCreates(IssueStep(issue, tasks, status, svc).actions) == 0
    ensures NoUploads(IssueStep(issue, tasks, status, svc).actions)
  {
    if Mirrored(issue.title, tasks) {
      MirroredExists(issue, tasks);
      SyncMirroredCreatesNothing(issue, tasks, svc);
    } else if TaskExists(issue, tasks) {
      NormalisedOnlyMatchCreates(issue, tasks, status, svc);
    }
    SyncUploadsNothing(issue, tasks, svc);
  }

  /** The number of issues without an exactly-named task. */
  function Unmirrored(issues: seq<Issue>, tasks: seq<Task>): nat
  {
    if issues == [] then 0
    else Unmirrored(issues[..|issues| - 1], tasks) + (if Mirrored(issues[|issues| - 1].title, tasks) then 0 else 1)
  }

  /** A finished issue loop creates once per issue without an exactly-named task. */
  lemma {:induction false} IssuesPlanCreates(issues: seq<Issue>, tasks: seq<Task>, status: Option<string>, svc: Services)
    requires AllNamed(tasks)
    requires IssuesPlan(issues, tasks, status, svc).outcome.Finished?
    ensures CountCreates(IssuesPlan(issues, tasks, status, svc).actions) == Unmirrored(issues, tasks)
  {
    if issues != [] {
      var n := |issues| - 1;
      var prefix := IssuesPlan(issues[..n], tasks, status, svc);
      var step := IssueStep(issues[n], tasks, status, svc);
      assert prefix.outcome.Finished? && step.outcome.Finished?;
      IssuesPlanCreates(issues[..n], tasks, status, svc);
      IssueStepCreates(issues[n], tasks, status, svc);
      CountCreatesAppend(prefix.actions, step.actions);
    }
  }

  /** An issue loop over issues that all have an exactly-named task creates nothing. */
  lemma {:induction false} MirroredIssuesCreateNothing(issues: seq<Issue>, tasks: seq<Task>, status: Option<string>, svc: Services)
    requires AllNamed(tasks)
    requires forall k :: 0 <= k < |issues| ==> Mirrored(issues[k].title, tasks)
    ensures CountCreates(IssuesPlan(issues, tasks, status, svc).actions) == 0
  {
    if issues != [] {
      var n := |issues| - 1;
      var prefix := IssuesPlan(issues[..n], tasks, status, svc);
      var step := IssueStep(issues[n], tasks, status, svc);
      assert IssuesPlan(issues, tasks, status, svc) == Then(prefix, step);
      assert forall k :: 0 <= k < n ==> Mirrored(issues[..n][k].title, tasks) by {
        forall k | 0 <= k < n ensures Mirrored(issues[..n][k].title, tasks) {
          assert issues[..n][k] == issues[k];
        }
      }
      MirroredIssuesCreateNothing(issues[..n], tasks, status, svc);
      assert CountCreates(step.actions) == 0 by {
        assert Mirrored(issues[n].title, tasks);
        IssueStepCreates(issues[n], tasks, status, svc);
      }
      if prefix.outcome.Finished? {
        CountCreatesAppend(prefix.actions, step.actions);
      }
    }
  }

  /** No issue loop uploads an image. */
  lemma {:induction false} IssuesPlanUploadsNothing(issues: seq<Issue>, tasks: seq<Task>, status: Option<string>, svc: Services)
    requires AllNamed(tasks)
    ensures NoUploads(IssuesPlan(issues, tasks, status, svc).actions)
  {
    if issues != [] {
      var n := |issues| - 1;
      IssuesPlanUploadsNothing(issues[..n], tasks, status, svc);
      IssueStepCreates(issues[n], tasks, status, svc);
    }
  }

  lemma {:induction false} OrphanedCreatesNothing(titles: set<string>, tasks: seq<Task>)
    requires AllNamed(tasks)
    ensures CountCreates(Orphaned(titles, tasks)) == 0
    ensures NoUploads(Orphaned(titles, tasks))
  {
    var o := Orphaned(titles, tasks);
    forall k | 0 <= k < |o| ensures o[k].UpdateTask? {
      OrphanedMembers(titles, tasks, o[k]);
    }
    CountCreatesNone(o);
  }

  /**
   * A run that finishes creates once per issue that has no task named
   * exactly its title: the task list is never refreshed, so two such issues
   * with the same title both create.
   */
  lemma RunCreatesPerUnmirroredIssue(issues: seq<Issue>, tasks: seq<Task>, statuses: seq<StatusEntry>, svc: Services)
    requires RunPlan(issues, tasks, statuses, svc).outcome.Finished?
    ensures CountCreates(RunPlan(issues, tasks, statuses, svc).actions) == Unmirrored(issues, tasks)
  {
    var status := InitialStatus(statuses).value;
    assert IssuesPlan(issues, tasks, status, svc).outcome.Finished?;
    IssuesPlanCreates(issues, tasks, status, svc);
    ClosuresOfNamedTasks(Titles(issues), tasks);
    OrphanedCreatesNothing(Titles(issues), tasks);
    CountCreatesAppend(IssuesPlan(issues, tasks, status, svc).actions, Orphaned(Titles(issues), tasks));
  }

  /**
   * Idempotence: when every issue already has a task named exactly its
   * title, the run creates nothing, however it ends.
   */
  lemma RunOnMirroredIssuesCreatesNothing(issues: seq<Issue>, tasks: seq<Task>, statuses: seq<StatusEntry>, svc: Services)
    requires forall k :: 0 <= k < |issues| ==> Mirrored(issues[k].title, tasks)
    ensures CountCreates(RunPlan(issues, tasks, statuses, svc).actions) == 0
  {
    if AllNamed(tasks) && InitialStatus(statuses).Ok? {
      var status := InitialStatus(statuses).value;
      MirroredIssuesCreateNothing(issues, tasks, status, svc);
      ClosuresOfNamedTasks(Titles(issues), tasks);
      OrphanedCreatesNothing(Titles(issues), tasks);
      CountCreatesAppend(IssuesPlan(issues, tasks, status, svc).actions, Orphaned(Titles(issues), tasks));
    } else {
      CountCreatesNone([]);
    }
  }

  /** No run ever uploads an image: an issue with images raises before its task is posted. */
  lemma RunUploadsNothing(issues: seq<Issue>, tasks: seq<Task>, statuses: seq<StatusEntry>, svc: Services)
    ensures NoUploads(RunPlan(issues, tasks, statuses, svc).actions)
  {
    if AllNamed(tasks) && InitialStatus(statuses).Ok? {
      var status := InitialStatus(statuses).value;
      IssuesPlanUploadsNothing(issues, tasks, status, svc);
      ClosuresOfNamedTasks(Titles(issues), tasks);
      OrphanedCreatesNothing(Titles(issues), tasks);
    }
  }

  /**
   * A task whose name differs from the issue title only in letter case
   * (say "fix crash" for "Fix crash") is found by `task_exists`, and the
   * issue is created again.
   */
  lemma CaseVariantCreatedAgain(issue: Issue, task: Task, status: Option<string>, svc: Services)
    requires task.name.Some? && task.name.value != issue.title
    requires Lower(task.name.value) == Lower(issue.title)
    ensures TaskExists(issue, [task])
    ensures IssueStep(issue, [task], status, svc) == Create(issue, Some("TO DO"), svc.moduleFieldId, svc).trace
  {
    NormalizeIgnoresCase(task.name.value, issue.title);
    assert [task][0] == task;
    assert NameMatches([task][0], issue.title);
    NormalisedOnlyMatchCreates(issue, [task], status, svc);
  }

  /** Two new issues with one title, against an empty task list, both create. */
  lemma DuplicateTitlesBothCreate(a: Issue, b: Issue, statuses: seq<StatusEntry>, svc: Services)
    requires a.title == b.title
    requires RunPlan([a, b], [], statuses, svc).outcome.Finished?
    ensures CountCreates(RunPlan([a, b], [], statuses, svc).actions) == 2
  {
    RunCreatesPerUnmirroredIssue([a, b], [], statuses, svc);
    assert [a, b][..1] == [a];
    assert [a][..0] == [];
    assert !Mirrored(a.title, []) && !Mirrored(b.title, []);
    assert Unmirrored([a], []) == 1;
  }
}
