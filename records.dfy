/**
 * The records the sync script reads and the effects it produces.
 *
 * GitHub issues and ClickUp tasks are JSON objects in the script; here they
 * are records whose optional keys are explicit. Every call the script makes
 * against ClickUp or Slack becomes an `Action`; a run is the sequence of
 * actions it issues and the way it ended.
 */
module Records {
  import opened Wrappers

  /** A JSON string-valued key: absent, present with `null`, or present with text. */
  datatype Field = Missing | Null | Text(text: string)

  /**
   * A GitHub issue as listed. `hasDescriptionKey` records whether the JSON
   * object carries a `description` key (GitHub issues normally do not).
   */
  datatype Issue = Issue(
    number: int,
    title: string,
    body: Field,
    htmlUrl: string,
    state: string,
    labels: seq<string>,
    hasDescriptionKey: bool)

  /** A ClickUp task as listed; `name` is `None` when the key is absent. */
  datatype Task = Task(
    id: string,
    name: Option<string>,
    description: Field,
    status: string)

  /** Every task carries a `name` key. */
  predicate AllNamed(tasks: seq<Task>)
  {
    forall k :: 0 <= k < |tasks| ==> tasks[k].name.Some?
  }

  /** A Python exception other than a requests failure. */
  datatype Fault =
    | MissingKey(key: string)   // KeyError on a dictionary lookup
    | NoneConcatenated          // TypeError: `None + str`
    | UnboundImageUrl           // UnboundLocalError: `url` read before assignment
    | NoneHasNoGet              // AttributeError: `None.get(...)`
    | NoneSubscripted           // TypeError: `None[...]`

  /** Why a run stopped early. */
  datatype Halt =
    | RequestFailed        // a requests exception: the orchestrator catches it and returns
    | Raised(fault: Fault) // any other exception: it propagates out of the script

  datatype Outcome = Finished | Stopped(halt: Halt)

  /** The JSON body posted to ClickUp to create a task (`assignees` is always empty). */
  datatype Payload = Payload(
    name: string,
    description: string,
    status: Option<string>,
    priority: int,
    customFieldId: Option<string>,
    customFieldValue: string)

  /** A call against ClickUp or Slack. */
  datatype Action =
    | CreateTask(payload: Payload)
    | UpdateTask(taskId: string, updates: map<string, string>)
    | UploadImage(taskId: string, imageUrl: string)
    | NotifySlack(issueUrl: string, taskName: string, taskUrl: string)

  /** The calls issued, in order, and how the sequence ended. */
  datatype Trace = Trace(actions: seq<Action>, outcome: Outcome)

  function Done(actions: seq<Action>): Trace
  {
    Trace(actions, Finished)
  }

  function Fail(actions: seq<Action>, halt: Halt): Trace
  {
    Trace(actions, Stopped(halt))
  }

  /** Runs `b` after `a`, unless `a` stopped early. */
  function Then(a: Trace, b: Trace): (r: Trace)
    ensures a.actions <= r.actions
    ensures r.outcome.Finished? <==> a.outcome.Finished? && b.outcome.Finished?
    ensures |r.actions| <= |a.actions| + |b.actions|
  {
    if a.outcome.Finished? then Trace(a.actions + b.actions, b.outcome) else a
  }

  /** The `priority` key of ClickUp's reply: absent, `null`, or an object with an optional `id`. */
  datatype PriorityField = PriorityAbsent | PriorityNull | PriorityObject(id: Option<string>)

  /** ClickUp's reply to a task creation. */
  datatype CreateResponse =
    | Created(id: string, url: string, name: string, priority: PriorityField)  // status 200
    | HttpError        // status 400 and above: `raise_for_status` raises
    | OtherStatus      // any other status: `raise_for_status` passes, nothing is returned

  /** The issue-details fetch followed by image-URL extraction from its body. */
  datatype DetailsResult =
    | DetailsFailed            // status 400 and above: `raise_for_status` raises
    | DetailsNone              // any other non-200 status: the fetch returns `None`
    | ImageUrls(urls: seq<string>)

  /**
   * The external services and configuration a run depends on.
   * `details` answers the per-issue details fetch, `create` is ClickUp's
   * reply to a submitted payload, and `moduleFieldId` is the module-level
   * request-type custom-field id (from the environment, possibly
   * overwritten by the custom-field listing at import time).
   */
  datatype Services = Services(
    details: int -> DetailsResult,
    create: Payload -> CreateResponse,
    moduleFieldId: Option<string>)

  /** Number of task creations among `actions`. */
  function CountCreates(actions: seq<Action>): (n: nat)
    ensures n <= |actions|
  {
    if actions == [] then 0
    else CountCreates(actions[..|actions| - 1]) + (if actions[|actions| - 1].CreateTask? then 1 else 0)
  }

  /** No attachment upload among `actions`. */
  predicate NoUploads(actions: seq<Action>)
  {
    forall k :: 0 <= k < |actions| ==> !actions[k].UploadImage?
  }

  lemma {:induction false} CountCreatesAppend(a: seq<Action>, b: seq<Action>)
    ensures CountCreates(a + b) == CountCreates(a) + CountCreates(b)
  {
    if b == [] {
      assert a + b == a;
    } else {
      assert (a + b)[..|a + b| - 1] == a + b[..|b| - 1];
      CountCreatesAppend(a, b[..|b| - 1]);
    }
  }

  lemma {:induction false} CountCreatesNone(a: seq<Action>)
    requires forall k :: 0 <= k < |a| ==> !a[k].CreateTask?
    ensures CountCreates(a) == 0
  {
    if a != [] {
      CountCreatesNone(a[..|a| - 1]);
    }
  }
}
