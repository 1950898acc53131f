# GitHub issues to ClickUp: the sync decision layer

This project models the decision logic of `github_issues_main.py`, the script that mirrors a GitHub repository's issues into a ClickUp task list. The script itself is mostly REST calls to GitHub, ClickUp and Slack. What it decides is modelled with functions over records:

- the request type and priority given to a new task, from the issue's labels;
- whether an issue already has a task, by comparing the trimmed, lower-cased title with each task name;
- the status new tasks start in;
- the updates for an issue whose task exists;
- which tasks are closed because their issue is gone;
- the payload posted for a new task, and whether a Slack notification follows.

Every call against ClickUp or Slack becomes an `Action`: `CreateTask`, `UpdateTask`, `UploadImage` or `NotifySlack`. A whole pass is a `Trace`: the actions issued, in order, plus how the pass ended. There are three endings:

- it finished;
- it stopped on a requests exception, which the orchestrator catches;
- it stopped on any other Python exception (`KeyError`, `TypeError`, `UnboundLocalError`, `AttributeError`), which crashes the script.

Network input is passed in as parameters:

- the listed issues, the listed tasks and the list's statuses are sequences;
- the per-issue details fetch, together with image-URL extraction, is a function `details` from issue number to a list of URLs, a failure, or `None`;
- ClickUp's reply to a create request is a function `create` from payload to reply;
- the module-level custom-field id is a value `moduleFieldId`.

Modules, one per concern of the script:

- `Text`: what Python's `strip()`, `lower()` and `upper()` do, and the title normalisation `strip().lower()`.
- `Records`: issues, tasks, payloads, actions, traces and faults.
- `Labels`: `get_request_type_value` and `get_priority_value`, with the label maps of the main file.
- `Matching`: `task_exists` and the status scan of `get_valid_status`.
- `Creation`: `create_clickup_task`.
- `IssueSync`: `sync_github_issue_to_clickup_task`, a loop method proved equal to a first-match specification function.
- `Deleted`: `handle_deleted_issues`, a loop method proved equal to a left-to-right specification, plus a reference filter.
- `Orchestrator`: `sync_github_to_clickup`, a loop method proved equal to a specification of the pass, plus lemmas counting the creates.

Where the code's behaviour differs from its evident intent, the model follows the code:

- Priority comes from the first label, in list order, that is in the priority map. `["bug", "p0"]` gives 2, not 1 (`Labels.BugBeforeP0`).
- `create_clickup_task` resolves the request type from the same labels it uses for priority. So the request-type fallback never gives 1 or 2: a new task's priority is the first priority label's value, or 3 (`Labels.PriorityForNewTask`).
- `task_exists` compares normalised titles, but the sync compares names exactly. An issue whose title matches a task only after normalisation is therefore created again, in status "TO DO" (`Orchestrator.NormalisedOnlyMatchCreates`).
- Line 193 reads `url` before line 217 assigns it. So any issue with an extracted image raises before its task is posted, and no run ever uploads an image (`Orchestrator.RunUploadsNothing`).
- Line 353 reads the `name` of every task. So one task without a name stops the run before any action.
- The `update` payload goes through the `'description' in issue` test. GitHub issue objects have no `description` key, so this branch fires only for issues that carry one (the `hasDescriptionKey` field).

## Model

| member | source | states |
|---|---|---|
| `Text.TrimStart` | github_issues_main.py:162 | the result is a suffix of the input; everything removed is whitespace, and the result does not start with whitespace |
| `Text.TrimEnd` | github_issues_main.py:162 | the result is a prefix of the input; everything removed is whitespace, and the result does not end with whitespace |
| `Text.LowerChar` | github_issues_main.py:162 | lower-casing a character never turns whitespace into a non-space or back, so stripping and lower-casing commute |
| `Text.StripPadding` | github_issues_main.py:162 | `strip()` ignores any whitespace added before or after the string |
| `Text.StripLower` | github_issues_main.py:162-164 | `s.lower().strip()` equals `s.strip().lower()` |
| `Text.NormalizeIgnoresCase` | github_issues_main.py:162-164 | two titles with the same lower-case form normalise alike |
| `Text.NormalizeIgnoresPadding` | github_issues_main.py:162-164 | a title padded with whitespace on either side normalises like the bare title |
| `Labels.FirstHit` | github_issues_main.py:141-143 | the first-match lookup returns a value exactly when some lower-cased label is a key, and that value is the map's value for some such label |
| `Labels.FirstHitAt` | github_issues_main.py:148-150 | the first label, in list order, whose lower-cased name is a key decides the lookup |
| `Labels.RequestTypeOf` | github_issues_main.py:139-144 | the request type is always one of the four ids of the main file's map |
| `Labels.RequestTypeFirstMatch` | github_issues_main.py:141-143 | the request type is the id of the first label that names a request type |
| `Labels.RequestTypeDefault` | github_issues_main.py:144 | with no label naming a request type, the result is the "task" id |
| `Labels.PriorityOf` | github_issues_main.py:146-158 | the priority is always 1, 2 or 3 |
| `Labels.PriorityFirstMatch` | github_issues_main.py:148-150 | the first label in the priority map decides the priority |
| `Labels.PriorityFallback` | github_issues_main.py:151-158 | without a priority label: the bug id gives 1, the enhancement, task and question ids give 3, anything else gives 2 |
| `Labels.PriorityForNewTask` | github_issues_main.py:185-186 | with the request type resolved from the same labels, priority is the first priority label's value, else 3 |
| `Labels.BugBeforeP0` | github_issues_main.py:146-150 | labels `["bug", "p0"]` give priority 2 |
| `Labels.P0BeforeBug` | github_issues_main.py:139-150 | labels `["p0", "bug"]` give priority 1 and the bug request type |
| `Labels.EnhancementOnly` | github_issues_main.py:139-158 | the single label `enhancement` gives the enhancement id and priority 3 |
| `Matching.MatchFromTail` | github_issues_main.py:160-166 | a match at position 1 or later in the task list is a match anywhere in the list with its first task removed, and the other way round |
| `Matching.TaskExists` | github_issues_main.py:160-166 | true exactly when some task that has a name matches the title after strip and lower-case on both sides |
| `Matching.TaskExistsIgnoresCase` | github_issues_main.py:162 | changing the letter case of the title does not change the answer |
| `Matching.TaskExistsIgnoresPadding` | github_issues_main.py:162 | adding whitespace around the title does not change the answer |
| `Matching.FirstToDo` | github_issues_main.py:120-122 | returns an entry exactly when some entry upper-cases to "TO DO", and then the first such entry, in its own spelling |
| `Matching.InitialStatus` | github_issues_main.py:119-123 | gives the first "TO DO" entry if any; else the first entry; `None` exactly for an empty list; `KeyError('status')` exactly when there is no "TO DO" entry and the first entry has no `status` key |
| `Matching.NoToDoStatusUsesFirst` | github_issues_main.py:123 | statuses "Open", "In Progress", "Complete" give "Open" |
| `Matching.ToDoKeepsSpelling` | github_issues_main.py:121-122 | "to do" is chosen over an earlier "Open" and keeps its lower-case spelling |
| `Creation.DescriptionOf` | github_issues_main.py:189 | every description ends with `"\n\nOriginal GitHub Issue: " + html_url` |
| `Creation.DescriptionRecoversBody` | github_issues_main.py:188-189 | the description minus the link is the body when the body is non-empty text; "No Description provided" when the key is absent; "No description provided" when the body is null or empty |
| `Creation.PayloadFor` | github_issues_main.py:185-206 | the payload name is the issue title; the description is `DescriptionOf(issue)`, the body or its fallback followed by the issue link; status and field id are passed through; the field value is the resolved request type, one of the four ids; the priority is the first priority label's value or 3 |
| `Creation.CreateStopsBeforePosting` | github_issues_main.py:66-74 | a details fetch that raises, returns `None` or (lines 190-193) finds an image ends the call with no action and no task: a requests exception, a `TypeError` on `None["body"]`, or the unbound `url` |
| `Creation.Create` | github_issues_main.py:185-224 | a task is posted exactly when the details fetch succeeds and finds no image, and then it is the first action and the only create. Nothing is ever uploaded. Slack is notified exactly when the post was made and ClickUp's reply has priority id "1" or "2". A task id is returned exactly when the reply is a 200 whose priority is not null. The call stops early exactly when the fetch fails or returns `None`, an image was found, the post raised an HTTP error, or the reply's priority is null |
| `Creation.DarkModeScenario` | github_issues_main.py:185-206 | issue #42 "Add dark mode" labelled `enhancement` becomes a task with that name, its body plus the link as description, priority 3 and the enhancement id |
| `IssueSync.UpdatesFor` | github_issues_main.py:272-276 | `status: complete` is set exactly when the issue is closed and the task's status is not "complete". `description` is set exactly when the issue has a `description` key and its body differs from the task's description, and then it is the body plus the link. No other key is set. It raises exactly on a missing `body` or `description` key, or on a null body that differs from the task's description |
| `IssueSync.UpdateStep` | github_issues_main.py:277-278 | at most one update call, issued exactly when the updates are non-empty, carrying the task id and those updates |
| `IssueSync.SyncFirstExactMatch` | github_issues_main.py:268-279 | only the first task whose name equals the title exactly is considered |
| `IssueSync.SyncWithoutExactMatch` | github_issues_main.py:280-281 | with no exact match, the issue is created in status "TO DO" with the module-level field id |
| `IssueSync.SyncNamelessTask` | github_issues_main.py:269 | a task without a name before the first exact match raises `KeyError('name')` |
| `IssueSync.SyncIssue` | github_issues_main.py:266-281 | the loop with its `exists` flag, in-place `updates` and `break` does exactly what the first-match specification says |
| `Deleted.Titles` | github_issues_main.py:285 | the title set holds exactly the listed issues' titles |
| `Deleted.HandleDeleted` | github_issues_main.py:284-288 | the loop issues exactly the closures its specification gives, in task order, and stops at a task without a name |
| `Deleted.ClosuresOfNamedTasks` | github_issues_main.py:286-288 | with every task named, the loop finishes and closes, in task order, exactly the tasks whose name is not an issue title |
| `Deleted.ClosuresOfNamelessTask` | github_issues_main.py:287 | a task without a name makes the loop raise `KeyError('name')` |
| `Deleted.OrphanedMembers` | github_issues_main.py:286-288 | an action is planned exactly when it is `status: complete` for a task whose name is not an issue title |
| `Deleted.NothingOrphaned` | github_issues_main.py:286-288 | when every task name is an issue title, nothing is closed |
| `Orchestrator.SyncRun` | github_issues_main.py:347-370 | the pass does exactly what its specification says: stop on a nameless task or a nameless first status, then the issue loop, then closure of deleted issues |
| `Orchestrator.ProcessIssue` | github_issues_main.py:359-368 | an issue `task_exists` finds goes through the exact-name sync. Any other issue finishes only when its task was posted first, with the run's status and field id, it is the only create, and ClickUp answered with a task. An issue with an exactly-named task creates nothing, and no iteration uploads |
| `Orchestrator.SyncMirroredCreatesNothing` | github_issues_main.py:268-279 | syncing an issue that has an exactly-named task never creates |
| `Orchestrator.NormalisedOnlyMatchCreates` | github_issues_main.py:360-362 | an issue matched only after normalisation goes through the sync and is created there, in status "TO DO" |
| `Orchestrator.CaseVariantCreatedAgain` | github_issues_main.py:160-166 | a task named like the title up to letter case, such as "fix crash" for "Fix crash", is found by `task_exists`, yet the issue is created again |
| `Orchestrator.IssueStepCreates` | github_issues_main.py:359-368 | a finished iteration creates once for an issue without an exactly-named task and never otherwise; an exactly-named issue never creates; no iteration uploads |
| `Orchestrator.IssuesPlanCreates` | github_issues_main.py:359-368 | a finished issue loop creates exactly once per issue that has no task named exactly its title |
| `Orchestrator.MirroredIssuesCreateNothing` | github_issues_main.py:359-368 | when every issue has a task named exactly its title, the issue loop creates nothing, however it ends |
| `Orchestrator.IssuesPlanUploadsNothing` | github_issues_main.py:359-368 | the issue loop never uploads an image, however it ends |
| `Orchestrator.RunCreatesPerUnmirroredIssue` | github_issues_main.py:351-369 | a finished run creates exactly once per issue with no task named exactly its title. Tasks are not re-fetched, so this counts issues, not titles |
| `Orchestrator.RunOnMirroredIssuesCreatesNothing` | github_issues_main.py:359-369 | when every issue has a task named exactly its title, a run creates nothing, however it ends; this is idempotence under unchanged input |
| `Orchestrator.RunUploadsNothing` | github_issues_main.py:192-193 | no run ever uploads an image |
| `Orchestrator.DuplicateTitlesBothCreate` | github_issues_main.py:359-368 | two new issues with one title, against an empty task list, give two creates in a finished run |

## Left out

- HTTP plumbing is replaced by inputs and emitted actions, because it is network I/O. This covers `fetch_github_issues`, `fetch_issue_details`, `fetch_clickup_list_details`, `fetch_clickup_tasks`, `upload_image_to_clickup_task`, `send_slack_notification` and `update_clickup_task` (github_issues_main.py:56-114, 239-263). The initial fetches of issues, tasks and list details are taken as having succeeded. The per-issue details fetch and the task creation may raise, and then the run ends with a requests exception. A details fetch with a non-200 status below 400 returns `None`, and then reading its body raises `TypeError` (`Creation.CreateStopsBeforePosting`).
- The comment-mirroring functions (github_issues_main.py:291-342) are not modelled: they are network calls, and the active code path never calls them.
- The module-level custom-field listing (github_issues_main.py:226-235) is a network call. Its effect is the input `moduleFieldId`.
- `github_issues_config.py` only loads the environment and a JSON file. Its default maps are shadowed by the main file's maps, which the model uses (the main file has no `task` priority entry).
- `extract_image_urls` is not modelled. Its regular-expression semantics are a foreign call, so the extracted URLs are an input. A details body of `null`, which would make `re.findall` raise, cannot be expressed.
- ClickUp's reply is modelled as a fixed function of the submitted payload. Two identical submissions therefore get the same reply.
- `Text.LowerChar`: only ASCII letters change case, unlike Python's Unicode `lower()` and `upper()`, because full Unicode case tables are out of scope. Whitespace for `strip()` is Python's full `isspace` set.
- A missing key is modelled only where the records give it an absent case: a task `name` or `description`, an issue `body`, a status `status` and the reply's `priority`. Whether an issue has a `description` key is a flag. Every other key is a plain value with no absent case, because the model takes the listed JSON as well-formed. So the `KeyError` from these missing keys is not modelled: a label `name` (github_issues_main.py:142, 149), an issue `title` (162, 199, 268, 285), `html_url` (189), `number` (190) or `state` (275), a task `id` or `status` (275, 278, 288), and a reply `url`, `id` or `name` (211-213).
- JSON `null` where the code calls a string method is not modelled: a task `name`, an issue `title`, a label `name`. Each would raise `AttributeError`. A `null` body is modelled, because the code handles it.
- `update_clickup_task` and `send_slack_notification` are modelled as calls that always return. In the source, their `requests.put` (258) and `requests.post` (247) can raise a requests exception, which line 371 catches. The run would then end at that call, and after a failed update the remaining updates and `handle_deleted_issues` would not run. Neither function checks the status code beyond printing, so only a transport-level failure has this effect.
- Task `status` is a string, as the code compares it. ClickUp returns an object there, so in practice the comparison with "complete" always differs.
- Line 356 (`valid_statuses[0]`) takes the first character of the status and never uses it. It is left out.
- The constant empty `assignees` list of the payload is left out of `Payload`.
- Printing, logging, scheduling and exception messages (github_issues_main.py:207, 353, 363-372, 406-411) are left out: they are output and timing with no decision in them.
