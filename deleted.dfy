/**
 * `handle_deleted_issues`: every task whose name is not the exact title of
 * a listed issue is marked complete.
 */
module Deleted {
  import opened Records

  /** The update that closes a task. */
  const Complete: map<string, string> := map["status" := "complete"]

  /** `{issue["title"] for issue in github_issues}`. */
  function Titles(issues: seq<Issue>): (s: set<string>)
    ensures forall k :: 0 <= k < |issues| ==> issues[k].title in s
    ensures forall x :: x in s ==> exists k :: 0 <= k < |issues| && issues[k].title == x
  {
    set k | 0 <= k < |issues| :: issues[k].title
  }

  /** One iteration of the loop: the closure of `task`, if any. */
  function CloseOne(titles: set<string>, task: Task): Trace
  {
    if task.name.None? then Fail([], Raised(MissingKey("name")))
    else if task.name.value in titles then Done([])
    else Done([UpdateTask(task.id, Complete)])
  }

  /** The loop over `tasks`, stopping at the first `KeyError`. */
  function Closures(titles: set<string>, tasks: seq<Task>): Trace
  {
    if tasks == [] then Done([])
    else Then(Closures(titles, tasks[..|tasks| - 1]), CloseOne(titles, tasks[|tasks| - 1]))
  }

  /** Reference definition: the closures of the orphaned tasks, in task order. */
  function Orphaned(titles: set<string>, tasks: seq<Task>): (r: seq<Action>)
    requires AllNamed(tasks)
  {
    if tasks == [] then []
    else (if tasks[0].name.value in titles then [] else [UpdateTask(tasks[0].id, Complete)])
         + Orphaned(titles, tasks[1..])
  }

  lemma {:induction false} OrphanedSnoc(titles: set<string>, tasks: seq<Task>)
    requires tasks != [] && AllNamed(tasks)
    ensures Orphaned(titles, tasks) == Orphaned(titles, tasks[..|tasks| - 1]) +
      (if tasks[|tasks| - 1].name.value in titles then [] else [UpdateTask(tasks[|tasks| - 1].id, Complete)])
  {
    if |tasks| > 1 {
      var init, rest := tasks[..|tasks| - 1], tasks[1..];
      var last := tasks[|tasks| - 1];
      var close := if last.name.value in titles then [] else [UpdateTask(last.id, Complete)];
      var first := if tasks[0].name.value in titles then [] else [UpdateTask(tasks[0].id, Complete)];
      assert rest[..|rest| - 1] == init[1..] && init[0] == tasks[0] && rest[|rest| - 1] == last;
      OrphanedSnoc(titles, rest);
      assert Orphaned(titles, init) == first + Orphaned(titles, init[1..]);
      assert first + (Orphaned(titles, init[1..]) + close) == (first + Orphaned(titles, init[1..])) + close;
    }
  }

  /** With every task named, the loop finishes and closes exactly the orphaned tasks. */
  lemma {:induction false} ClosuresOfNamedTasks(titles: set<string>, tasks: seq<Task>)
    requires AllNamed(tasks)
    ensures Closures(titles, tasks) == Done(Orphaned(titles, tasks))
  {
    if tasks != [] {
      ClosuresOfNamedTasks(titles, tasks[..|tasks| - 1]);
      OrphanedSnoc(titles, tasks);
    }
  }

  /** A task without a name stops the loop with `KeyError`. */
  lemma {:induction false} ClosuresOfNamelessTask(titles: set<string>, tasks: seq<Task>)
    requires !AllNamed(tasks)
    ensures Closures(titles, tasks).outcome == Stopped(Raised(MissingKey("name")))
  {
    var n := |tasks| - 1;
    if tasks[n].name.Some? {
      assert !AllNamed(tasks[..n]) by {
        var k :| 0 <= k < |tasks| && tasks[k].name.None?;
        assert tasks[..n][k] == tasks[k];
      }
      ClosuresOfNamelessTask(titles, tasks[..n]);
    } else if AllNamed(tasks[..n]) {
      ClosuresOfNamedTasks(titles, tasks[..n]);
    } else {
      ClosuresOfNamelessTask(titles, tasks[..n]);
    }
  }

  /** An action is planned exactly for each task whose name is not an issue title. */
  lemma {:induction false} OrphanedMembers(titles: set<string>, tasks: seq<Task>, a: Action)
    requires AllNamed(tasks)
    ensures a in Orphaned(titles, tasks) <==>
      exists k :: 0 <= k < |tasks| && tasks[k].name.value !in titles && a == UpdateTask(tasks[k].id, Complete)
  {
    if tasks != [] {
      assert AllNamed(tasks[1..]) by {
        forall k | 0 <= k < |tasks| - 1 ensures tasks[1..][k] == tasks[k + 1] { }
      }
      OrphanedMembers(titles, tasks[1..], a);
      forall k | 1 <= k < |tasks| ensures tasks[k] == tasks[1..][k - 1] { }
      if a in Orphaned(titles, tasks[1..]) {
        var k :| 0 <= k < |tasks[1..]| && tasks[1..][k].name.value !in titles && a == UpdateTask(tasks[1..][k].id, Complete);
        assert tasks[k + 1] == tasks[1..][k];
      }
    }
  }

  /** When every task's name is an issue title, nothing is closed. */
  lemma NothingOrphaned(titles: set<string>, tasks: seq<Task>)
    requires AllNamed(tasks)
    requires forall k :: 0 <= k < |tasks| ==> tasks[k].name.value in titles
    ensures Closures(titles, tasks) == Done([])
  {
    ClosuresOfNamedTasks(titles, tasks);
    if Orphaned(titles, tasks) != [] {
      OrphanedMembers(titles, tasks, Orphaned(titles, tasks)[0]);
    }
  }

  /** `handle_deleted_issues(issues, tasks)`. */
  method HandleDeleted(issues: seq<Issue>, tasks: seq<Task>) returns (t: Trace)
    ensures t == Closures(Titles(issues), tasks)
  {
    var titles := Titles(issues);
    var actions: seq<Action> := [];
    var i := 0;
    while i < |tasks|
      invariant 0 <= i <= |tasks|
      invariant Closures(titles, tasks[..i]) == Done(actions)
    {
      var task := tasks[i];
      assert tasks[..i + 1][..i] == tasks[..i];
      if task.name.None? {
        StoppedStays(titles, tasks, i + 1);
        return Fail(actions, Raised(MissingKey("name")));
      }
      if task.name.value !in titles {
        actions := actions + [UpdateTask(task.id, Complete)];
      }
      i := i + 1;
    }
    assert tasks[..i] == tasks;
    t := Done(actions);
  }

  /** Once the loop has stopped, later tasks change nothing. */
  lemma {:induction false} StoppedStays(titles: set<string>, tasks: seq<Task>, i: int)
    requires 0 <= i <= |tasks| && Closures(titles, tasks[..i]).outcome.Stopped?
    ensures Closures(titles, tasks) == Closures(titles, tasks[..i])
    decreases |tasks| - i
  {
    if i < |tasks| {
      assert tasks[..i + 1][..i] == tasks[..i];
      StoppedStays(titles, tasks, i + 1);
    } else {
      assert tasks[..i] == tasks;
    }
  }
}
