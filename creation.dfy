/**
 * `create_clickup_task`: the payload posted for a new task and the calls
 * that follow ClickUp's reply (image upload and Slack notification).
 */
module Creation {
  import opened Wrappers
  import opened Records
  import opened Labels

  const NoBodyKeyText: string := "No Description provided"
  const EmptyBodyText: string := "No description provided"

  /** The text appended to every mirrored description. */
  function LinkSuffix(htmlUrl: string): string
  {
    "\n\nOriginal GitHub Issue: " + htmlUrl
  }

  /** `issue.get("body", "No Description provided") or "No description provided"`. */
  function BodyContent(body: Field): string
  {
    match body
    case Missing => NoBodyKeyText
    case Null => EmptyBodyText
    case Text(s) => if s == "" then EmptyBodyText else s
  }

  /** The task description: the body (or its fallback) followed by the issue link. */
  function DescriptionOf(issue: Issue): (d: string)
    ensures |d| >= |LinkSuffix(issue.htmlUrl)|
    ensures d[|d| - |LinkSuffix(issue.htmlUrl)|..] == LinkSuffix(issue.htmlUrl)
  {
    BodyContent(issue.body) + LinkSuffix(issue.htmlUrl)
  }

  /** Cutting the link off a description gives back the non-empty body, or the fallback. */
  lemma DescriptionRecoversBody(issue: Issue)
    ensures var d := DescriptionOf(issue);
      var b := d[..|d| - |LinkSuffix(issue.htmlUrl)|];
      && (issue.body.Text? && issue.body.text != "" ==> b == issue.body.text)
      && (issue.body.Missing? ==> b == NoBodyKeyText)
      && (issue.body.Null? || issue.body == Text("") ==> b == EmptyBodyText)
  {
    var d := DescriptionOf(issue);
    assert d[..|d| - |LinkSuffix(issue.htmlUrl)|] == BodyContent(issue.body);
  }

  /** The JSON posted to create the task mirroring `issue`. */
  function PayloadFor(issue: Issue, status: Option<string>, fieldId: Option<string>): (p: Payload)
    ensures p.name == issue.title && p.status == status && p.customFieldId == fieldId
    ensures p.description == DescriptionOf(issue)
    ensures p.customFieldValue == RequestTypeOf(issue.labels)
    ensures p.customFieldValue in {BugId, EnhancementId, QuestionId, TaskId}
    ensures p.priority == match FirstHit(issue.labels, PriorityByLabel)
                         case Some(v) => v
                         case None => 3
  {
    var requestType := RequestTypeOf(issue.labels);
    PriorityForNewTask(issue.labels);
    Payload(issue.title, DescriptionOf(issue), status, PriorityOf(issue.labels, requestType), fieldId, requestType)
  }

  /** One attachment upload per extracted image URL. */
  function Uploads(taskId: string, urls: seq<string>): (r: seq<Action>)
    ensures |r| == |urls|
  {
    seq(|urls|, i requires 0 <= i < |urls| => UploadImage(taskId, urls[i]))
  }

  /** The calls `create_clickup_task` makes, and the id of the task it returns (if it returns one). */
  datatype Creation = Creation(trace: Trace, returned: Option<string>)

  /** ClickUp's reply carries priority id "1" or "2". */
  predicate UrgentOrHigh(reply: CreateResponse)
  {
    reply.Created? && reply.priority.PriorityObject? && reply.priority.id in {Some("1"), Some("2")}
  }

  /**
   * `create_clickup_task(issue, status, fieldId)`. The details fetch and
   * image extraction come first; any extracted image makes line 193 read
   * `url` before it is assigned, so the task is never posted.
   */
  function Create(issue: Issue, status: Option<string>, fieldId: Option<string>, svc: Services): (c: Creation)
    ensures var p := PayloadFor(issue, status, fieldId);
      var posted := svc.details(issue.number) == ImageUrls([]);
      && (posted ==> |c.trace.actions| > 0 && c.trace.actions[0] == CreateTask(p))
      && CountCreates(c.trace.actions) == (if posted then 1 else 0)
      && NoUploads(c.trace.actions)
      && ((exists k :: 0 <= k < |c.trace.actions| && c.trace.actions[k].NotifySlack?) <==> posted && UrgentOrHigh(svc.create(p)))
      && (c.returned.Some? <==> posted && svc.create(p).Created? && !svc.create(p).priority.PriorityNull?)
      && (c.returned.Some? ==> c.returned.value == svc.create(p).id && c.trace.outcome.Finished?)
      && (c.trace.outcome.Stopped? <==> !posted || svc.create(p).HttpError? ||
                                         (svc.create(p).Created? && svc.create(p).priority.PriorityNull?))
  {
    match svc.details(issue.number)
    case DetailsFailed => Creation(Fail([], RequestFailed), None)
    case DetailsNone => Creation(Fail([], Raised(NoneSubscripted)), None)
    case ImageUrls(urls) =>
      if |urls| > 0 then Creation(Fail([], Raised(UnboundImageUrl)), None)
      else
        var p := PayloadFor(issue, status, fieldId);
        var posted := [CreateTask(p)];
        assert CountCreates(posted) == 1 by { assert posted[..0] == []; }
        match svc.create(p)
        case HttpError => Creation(Fail(posted, RequestFailed), None)
        case OtherStatus => Creation(Done(posted), None)
        case Created(id, url, name, priority) =>
          match priority
          case PriorityNull => Creation(Fail(posted, Raised(NoneHasNoGet)), None)
          case PriorityAbsent => Creation(Done(posted), Some(id))
          case PriorityObject(priorityId) =>
            if priorityId in {Some("1"), Some("2")} then
              var uploads := Uploads(id, urls);
              var all := posted + uploads + [NotifySlack(issue.htmlUrl, name, url)];
              assert uploads == [];
              CountCreatesAppend(posted, [NotifySlack(issue.htmlUrl, name, url)]);
              assert CountCreates([NotifySlack(issue.htmlUrl, name, url)]) == 0 by {
                CountCreatesNone([NotifySlack(issue.htmlUrl, name, url)]);
              }
              assert all == posted + [NotifySlack(issue.htmlUrl, name, url)];
              Creation(Done(all), Some(id))
            else
              Creation(Done(posted), Some(id))
  }

  /**
   * A details fetch that fails, returns `None`, or finds an image ends the
   * creation before anything is posted: with a requests exception, a
   * `TypeError` on `None["body"]`, or the unbound `url` respectively.
   */
  lemma CreateStopsBeforePosting(issue: Issue, status: Option<string>, fieldId: Option<string>, svc: Services)
    requires svc.details(issue.number) != ImageUrls([])
    ensures var c := Create(issue, status, fieldId, svc);
      && c.trace.actions == [] && c.returned.None?
      && c.trace.outcome == Stopped(match svc.details(issue.number)
                                    case DetailsFailed => RequestFailed
                                    case DetailsNone => Raised(NoneSubscripted)
                                    case ImageUrls(_) => Raised(UnboundImageUrl))
  {
  }

  /** The "Add dark mode" issue (#42) becomes a normal-priority enhancement task. */
  lemma DarkModeScenario(url: string, status: Option<string>, fieldId: Option<string>)
    ensures var issue := Issue(42, "Add dark mode", Text("Please add a dark theme."), url, "open", ["enhancement"], false);
      PayloadFor(issue, status, fieldId) ==
        Payload("Add dark mode", "Please add a dark theme." + LinkSuffix(url), status, 3, fieldId, EnhancementId)
  {
    var issue := Issue(42, "Add dark mode", Text("Please add a dark theme."), url, "open", ["enhancement"], false);
    EnhancementOnly();
    assert BodyContent(issue.body) == "Please add a dark theme.";
    assert DescriptionOf(issue) == "Please add a dark theme." + LinkSuffix(url);
  }
}
