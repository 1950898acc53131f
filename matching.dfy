/**
 * Duplicate detection (`task_exists`) and the choice of the status new
 * tasks start in (`get_valid_status`).
 */
module Matching {
  import opened Wrappers
  import opened Text
  import opened Records

  /** `task`'s name, normalised, equals `title` normalised. */
  predicate NameMatches(task: Task, title: string)
  {
    task.name.Some? && Normalize(task.name.value) == Normalize(title)
  }

  /** Some task from position `from` on matches `title`. */
  predicate MatchFrom(tasks: seq<Task>, title: string, from: nat)
  {
    exists k :: from <= k < |tasks| && NameMatches(tasks[k], title)
  }

  lemma MatchFromTail(tasks: seq<Task>, title: string)
    requires tasks != []
    ensures MatchFrom(tasks[1..], title, 0) <==> MatchFrom(tasks, title, 1)
  {
    if MatchFrom(tasks[1..], title, 0) {
      var k :| 0 <= k < |tasks[1..]| && NameMatches(tasks[1..][k], title);
      assert tasks[k + 1] == tasks[1..][k];
    }
    if MatchFrom(tasks, title, 1) {
      var k :| 1 <= k < |tasks| && NameMatches(tasks[k], title);
      assert tasks[1..][k - 1] == tasks[k];
    }
  }

  /**
   * `task_exists`: some task that has a name matches the issue's title
   * after stripping and lower-casing both.
   */
  function TaskExists(issue: Issue, tasks: seq<Task>): (b: bool)
    ensures b <==> MatchFrom(tasks, issue.title, 0)
  {
    if tasks == [] then false
    else if NameMatches(tasks[0], issue.title) then true
    else
      MatchFromTail(tasks, issue.title);
      TaskExists(issue, tasks[1..])
  }

  /** Changing the title's letter case does not change the answer. */
  lemma TaskExistsIgnoresCase(issue: Issue, title: string, tasks: seq<Task>)
    requires Lower(title) == Lower(issue.title)
    ensures TaskExists(issue.(title := title), tasks) == TaskExists(issue, tasks)
  {
    NormalizeIgnoresCase(title, issue.title);
  }

  /** Adding whitespace around the title does not change the answer. */
  lemma TaskExistsIgnoresPadding(issue: Issue, w: string, w': string, tasks: seq<Task>)
    requires AllSpace(w) && AllSpace(w')
    ensures TaskExists(issue.(title := w + issue.title + w'), tasks) == TaskExists(issue, tasks)
  {
    NormalizeIgnoresPadding(w, issue.title, w');
  }

  /** A status entry of a ClickUp list; `None` when it has no `status` key. */
  type StatusEntry = Option<string>

  /** The entry's text counts as "TO DO" under upper-casing. */
  predicate IsToDo(entry: StatusEntry)
  {
    entry.Some? && Upper(entry.value) == "TO DO"
  }

  /** `k` is the first position of a "TO DO" entry. */
  predicate FirstToDoAt(statuses: seq<StatusEntry>, k: int)
  {
    0 <= k < |statuses| && IsToDo(statuses[k]) && forall j :: 0 <= j < k ==> !IsToDo(statuses[j])
  }

  /** The first entry whose upper-cased text is "TO DO", in its own spelling. */
  function FirstToDo(statuses: seq<StatusEntry>): (r: Option<string>)
    ensures r.Some? <==> exists k :: 0 <= k < |statuses| && IsToDo(statuses[k])
    ensures r.Some? ==> exists k :: FirstToDoAt(statuses, k) && statuses[k] == r
  {
    if statuses == [] then None
    else if IsToDo(statuses[0]) then statuses[0]
    else
      var r := FirstToDo(statuses[1..]);
      assert forall k :: 1 <= k < |statuses| ==> statuses[k] == statuses[1..][k - 1];
      assert r.Some? ==> exists k :: FirstToDoAt(statuses, k) && statuses[k] == r by {
        if r.Some? {
          var k :| FirstToDoAt(statuses[1..], k) && statuses[1..][k] == r;
          assert statuses[k + 1] == statuses[1..][k];
          assert FirstToDoAt(statuses, k + 1);
        }
      }
      r
  }

  /**
   * `get_valid_status` once the list's statuses are known: the "TO DO"
   * entry, else the first entry (a `KeyError` when it has no `status` key),
   * else `None`.
   */
  function InitialStatus(statuses: seq<StatusEntry>): (r: Result<Option<string>, Fault>)
    ensures r.Ok? && r.value.None? <==> statuses == []
    ensures r.Err? <==> (forall k :: 0 <= k < |statuses| ==> !IsToDo(statuses[k]))
                        && statuses != [] && statuses[0].None?
    ensures r.Err? ==> r.error == MissingKey("status")
    ensures (exists k :: 0 <= k < |statuses| && IsToDo(statuses[k])) ==> r.Ok? && r.value.Some? && IsToDo(r.value)
    ensures r.Ok? && r.value.Some? && !IsToDo(r.value) ==> r.value == statuses[0]
    ensures r.Ok? && r.value.Some? && IsToDo(r.value) ==> exists k :: FirstToDoAt(statuses, k) && statuses[k] == r.value
  {
    match FirstToDo(statuses)
    case Some(s) => Ok(Some(s))
    case None =>
      if statuses == [] then Ok(None)
      else if statuses[0].None? then Err(MissingKey("status"))
      else Ok(statuses[0])
  }

  /** A list without a "TO DO" status starts new tasks in its first status. */
  lemma NoToDoStatusUsesFirst()
    ensures InitialStatus([Some("Open"), Some("In Progress"), Some("Complete")]) == Ok(Some("Open"))
  {
    var s := [Some("Open"), Some("In Progress"), Some("Complete")];
    assert Upper("Open") == "OPEN";
    assert Upper("In Progress")[0] == 'I';
    assert Upper("Complete")[0] == 'C';
    assert !IsToDo(s[0]) && !IsToDo(s[1]) && !IsToDo(s[2]);
  }

  /** The matching status keeps its own spelling. */
  lemma ToDoKeepsSpelling()
    ensures InitialStatus([Some("Open"), Some("to do")]) == Ok(Some("to do"))
  {
    assert Upper("Open") == "OPEN";
    assert Upper("to do") == "TO DO";
  }
}
