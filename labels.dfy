/**
 * Label resolution: which ClickUp request type and which priority a new
 * task gets from its GitHub issue's labels (`get_request_type_value`,
 * `get_priority_value`).
 */
module Labels {
  import opened Wrappers
  import opened Text

  const BugId: string := "bb6de1dc-da65-4a85-9d0e-5065919fede5"
  const EnhancementId: string := "15c61688-3ad5-4dc5-bb7f-17b6c6ff30d9"
  const QuestionId: string := "3328c6c2-06f8-41e4-a76c-4fb435df2bb2"
  const TaskId: string := "7abfef5b-9190-4726-8ed5-d5e317eb9c93"

  /** Lower-cased label name to request-type id. */
  const RequestTypeIds: map<string, string> :=
    map["bug" := BugId, "enhancement" := EnhancementId, "question" := QuestionId, "task" := TaskId]

  /** Lower-cased label name to ClickUp priority (1 urgent, 2 high, 3 normal). */
  const PriorityByLabel: map<string, int> :=
    map["p0" := 1, "p1" := 2, "bug" := 2, "enhancement" := 3]

  /** Some label, lower-cased, is a key of `m`. */
  predicate AnyKey<V(==)>(labels: seq<string>, m: map<string, V>)
  {
    exists i :: 0 <= i < |labels| && Lower(labels[i]) in m
  }

  /**
   * The value of the first label, in list order, whose lower-cased name is a
   * key of `m`; `None` when no label is.
   */
  function FirstHit<V(==)>(labels: seq<string>, m: map<string, V>): (r: Option<V>)
    ensures r.Some? <==> AnyKey(labels, m)
    ensures r.Some? ==> r.value in m.Values
    ensures r.Some? ==> exists i :: 0 <= i < |labels| && Lower(labels[i]) in m && r.value == m[Lower(labels[i])]
  {
    if labels == [] then None
    else if Lower(labels[0]) in m then Some(m[Lower(labels[0])])
    else
      var rest := FirstHit(labels[1..], m);
      assert AnyKey(labels, m) ==> AnyKey(labels[1..], m) by {
        if AnyKey(labels, m) {
          var i :| 0 <= i < |labels| && Lower(labels[i]) in m;
          assert labels[1..][i - 1] == labels[i];
        }
      }
      assert AnyKey(labels[1..], m) ==> AnyKey(labels, m) by {
        if AnyKey(labels[1..], m) {
          var i :| 0 <= i < |labels[1..]| && Lower(labels[1..][i]) in m;
          assert labels[i + 1] == labels[1..][i];
        }
      }
      rest
  }

  /** The label at `i` decides when it is the first one that is a key. */
  lemma {:induction false} FirstHitAt<V>(labels: seq<string>, m: map<string, V>, i: int)
    requires 0 <= i < |labels| && Lower(labels[i]) in m
    requires forall j :: 0 <= j < i ==> Lower(labels[j]) !in m
    ensures FirstHit(labels, m) == Some(m[Lower(labels[i])])
  {
    if i > 0 {
      assert labels[1..][i - 1] == labels[i];
      forall j | 0 <= j < i - 1 ensures Lower(labels[1..][j]) !in m {
        assert labels[1..][j] == labels[j + 1];
      }
      FirstHitAt(labels[1..], m, i - 1);
    }
  }

  /** `get_request_type_value`: the first mapped label's id, else the "task" id. */
  function RequestTypeOf(labels: seq<string>): (r: string)
    ensures r in RequestTypeIds.Values
  {
    match FirstHit(labels, RequestTypeIds)
    case Some(id) => id
    case None => assert RequestTypeIds["task"] == TaskId; TaskId
  }

  /**
   * `get_priority_value`: the first label in the priority map decides;
   * otherwise the request type does (bug 1, enhancement/task/question 3,
   * anything else 2).
   */
  function PriorityOf(labels: seq<string>, requestType: string): (r: int)
    ensures 1 <= r <= 3
  {
    match FirstHit(labels, PriorityByLabel)
    case Some(p) => p
    case None =>
      if requestType == RequestTypeIds["bug"] then 1
      else if requestType in [RequestTypeIds["enhancement"], RequestTypeIds["task"], RequestTypeIds["question"]] then 3
      else 2
  }

  /** Request type is the id of the first label that names a request type, or the task id. */
  lemma RequestTypeFirstMatch(labels: seq<string>, i: int)
    requires 0 <= i < |labels| && Lower(labels[i]) in RequestTypeIds
    requires forall j :: 0 <= j < i ==> Lower(labels[j]) !in RequestTypeIds
    ensures RequestTypeOf(labels) == RequestTypeIds[Lower(labels[i])]
  {
    FirstHitAt(labels, RequestTypeIds, i);
  }

  /** With no label naming a request type, the task id is used. */
  lemma RequestTypeDefault(labels: seq<string>)
    requires forall i :: 0 <= i < |labels| ==> Lower(labels[i]) !in RequestTypeIds
    ensures RequestTypeOf(labels) == TaskId
  {
  }

  /** Priority is decided by the first label in the priority map. */
  lemma PriorityFirstMatch(labels: seq<string>, requestType: string, i: int)
    requires 0 <= i < |labels| && Lower(labels[i]) in PriorityByLabel
    requires forall j :: 0 <= j < i ==> Lower(labels[j]) !in PriorityByLabel
    ensures PriorityOf(labels, requestType) == PriorityByLabel[Lower(labels[i])]
  {
    FirstHitAt(labels, PriorityByLabel, i);
  }

  /** Without a priority label the request type decides. */
  lemma PriorityFallback(labels: seq<string>, requestType: string)
    requires forall i :: 0 <= i < |labels| ==> Lower(labels[i]) !in PriorityByLabel
    ensures requestType == BugId ==> PriorityOf(labels, requestType) == 1
    ensures requestType in {EnhancementId, TaskId, QuestionId} ==> PriorityOf(labels, requestType) == 3
    ensures requestType !in {BugId, EnhancementId, TaskId, QuestionId} ==> PriorityOf(labels, requestType) == 2
  {
  }

  /**
   * As `create_clickup_task` calls them, with the request type resolved from
   * the same labels, the type fallback never yields 1 or 2: a `bug` label
   * that makes the request type "bug" is itself in the priority map. So a
   * new task's priority is the first priority label's value, or 3.
   */
  lemma PriorityForNewTask(labels: seq<string>)
    ensures PriorityOf(labels, RequestTypeOf(labels)) ==
      match FirstHit(labels, PriorityByLabel)
      case Some(p) => p
      case None => 3
  {
    if FirstHit(labels, PriorityByLabel).None? {
      var rt := FirstHit(labels, RequestTypeIds);
      if rt.Some? {
        var i :| 0 <= i < |labels| && Lower(labels[i]) in RequestTypeIds && rt.value == RequestTypeIds[Lower(labels[i])];
        assert Lower(labels[i]) !in PriorityByLabel;
        assert Lower(labels[i]) == "question" || Lower(labels[i]) == "task";
      }
    }
  }

  /** Label order decides: `bug` before `p0` gives 2, not 1. */
  lemma BugBeforeP0()
    ensures PriorityOf(["bug", "p0"], RequestTypeOf(["bug", "p0"])) == 2
  {
    assert Lower("bug") == "bug";
    FirstHitAt(["bug", "p0"], PriorityByLabel, 0);
  }

  lemma P0BeforeBug()
    ensures PriorityOf(["p0", "bug"], RequestTypeOf(["p0", "bug"])) == 1
    ensures RequestTypeOf(["p0", "bug"]) == BugId
  {
    assert Lower("p0") == "p0";
    assert Lower("bug") == "bug";
    FirstHitAt(["p0", "bug"], PriorityByLabel, 0);
    FirstHitAt(["p0", "bug"], RequestTypeIds, 1);
  }

  lemma EnhancementOnly()
    ensures RequestTypeOf(["enhancement"]) == EnhancementId
    ensures PriorityOf(["enhancement"], EnhancementId) == 3
  {
    assert Lower("enhancement") == "enhancement";
    FirstHitAt(["enhancement"], PriorityByLabel, 0);
    FirstHitAt(["enhancement"], RequestTypeIds, 0);
  }
}
