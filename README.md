# Issue viewer event handling, in Dafny

This project models the event-handling core of a small web application that shows the issues of a GitLab project and keeps every open browser page in step with the tracker. The core has five pieces:

- **The GitLab webhook endpoint** (`WebhooksController.indexPost`). It:
  - checks the `x-gitlab-token` header;
  - drops payloads that are not issue events;
  - copies an issue snapshot out of `object_attributes`;
  - chooses the push event (`issueCreated`, `issueClosed` or `issueUpdated`);
  - broadcasts the event and acknowledges with 200.
- **The issue action handlers** (`closeIssue`, `reopenIssue`, `updateChecklist`). Each asks the tracker to change the issue. Only after the tracker accepts does it broadcast the change and answer; otherwise it answers 500. The checklist handler rewrites the issue description line by line: every line that contains the item's text becomes a task-list line `- [x] text` or `- [ ] text`.
- **The WebSocket hub's `broadcast`**. It builds one message `{event, data}` and sends it to every client whose connection is OPEN.
- **The issue detail page script** (`showIssue.js`). It:
  - normalises the state it receives;
  - writes it into the status element;
  - replaces the single action button;
  - feeds the answer to its own close or reopen request into the same update.
- **The issue list page script** (`Issues.js`). It puts a new entry in front on `issueCreated`. On a status event it updates the first status span whose `data-id` matches.

How JavaScript is modelled (`JsValues`):

- Values are a datatype with `undefined`, `null`, booleans, integers, strings and plain objects.
- Each JavaScript rule the code relies on is written out: property access throws on `undefined`/`null`, truthiness, `String(v)`, and `textContent = v` clearing the text for nullish `v`.
- An HTTP handler is a method that changes nothing. It returns the sequence of its observable steps, in call order: each `broadcast` call and the response (`Protocol.Effect`).
- The tracker's GET and PUT are inputs: a fetched value or an error, and a success or a failure with its message.

Modelling of the stateful parts:

- The hub is a `Server` class over a sequence of `Client` objects. Each client has a `readyState` and an outbox. `Broadcast` is a loop proved against the function `Fanout`.
- The two pages are classes (`DetailPage`, `ListPage`) whose fields are the DOM parts the scripts touch. Each method is tied, in its `ensures`, to a pure function (`Render`, `OnPush`, `Updated`), and the properties are proved about those functions.
- `Scenarios` states traces through the parts, derived from their contracts alone: webhook to list page, and click to hub to both detail pages.

Some behaviour of the code differs from what a reader of the handlers might expect; the model follows the code:

- **Classification.** Under a close-first rule order, a closed state would take precedence over the action. In the code, the test on `action` is a second, separate `if` (`src/controllers/WebhookController.js:46-50`). So an `open`/`create` action gives `issueCreated` even for an issue whose state is `closed`. `Webhook.ClassifyCloseFirst` states the close-first order. `Webhook.ClassifyDiffersFromCloseFirst` shows the two disagree exactly on closed issues with action `open` or `create`.
- **Non-issue webhooks** are not acknowledged. The code returns without sending any response, not even a 200 (`src/controllers/WebhookController.js:35`).
- **Refused close.** A refused close renders a missing state; a refused reopen changes nothing. A refused close is answered with a JSON error body that has no `state`, and the detail page renders that missing state. Its status text is emptied, its `data-state` becomes `undefined` and its button becomes "Close Issue", wherever these elements exist (`Scenarios.RefusedCloseBlanksStatus`). A refused reopen is answered in plain text, `response.json()` rejects, and the page is unchanged (`Scenarios.RefusedReopenKeepsPage`).
- **Close and reopen pushes miss the list page.** These pushes carry `issueId` and no `id`. The list page looks up `data.id`, so its selector asks for `data-id="undefined"` and no entry is updated unless one has `data-id="undefined"` (`Scenarios.ActionPushMissesList`). Such an entry appears when an issue payload without `iid` is listed; a later close push for any issue then marks that entry closed, and a reopen push rewrites it in the same way (`Scenarios.ActionPushHitsUndefinedEntry`).
- **Detail pages react to every issue's push.** The detail page does not look at the issue id of a push. Every open detail page renders every status push (`ShowIssue.OnPushIgnoresIssueId`).
- **Checklist pushes blank the status.** The checklist push carries no `state`, so any open detail page renders `undefined` (`Scenarios.ChecklistPushBlanksStatus`).

## Model

| member | source | states |
|---|---|---|
| Webhook.Classify | src/controllers/WebhookController.js:44-50 | the event is `issueCreated` iff the action is `open` or `create`, whatever the state. It is `issueClosed` iff the state is `closed` and the action is neither. It is `issueUpdated` otherwise. It is never `issueReopened` |
| Webhook.ClassifyDiffersFromCloseFirst | src/controllers/WebhookController.js:46-50 | the handler's order and the close-first order disagree exactly when the state is `closed` and the action is `open`/`create`; the handler then says `issueCreated` |
| Webhook.Snapshot | src/controllers/WebhookController.js:37-42 | the push data has exactly the keys id, title, state and description, copied from `iid`, `title`, `state` and `description` of `object_attributes` |
| Webhook.IndexPost | src/controllers/WebhookController.js:23-61 | a missing, empty or mismatched token gives 403 with the forbidden body and nothing else. A nullish body or a non-`issue` event gives no broadcast and no response. An issue event without `object_attributes` throws and gives nothing. Otherwise exactly one broadcast of the classified event with the snapshot, then 200 "Webhook received". No broadcast is ever `issueReopened` |
| Protocol.Broadcasts | src/controllers/issuesController.js:106 | a helper over the model's own step log, used by the contract of every handler (each `broadcast` call, here and at `src/controllers/WebhookController.js:53`, is one step): a message is among the broadcasts extracted from a handler's steps iff the handler made a `Broadcast` step with it; there are no more broadcasts than steps |
| Protocol.BroadcastsAppend | src/controllers/issuesController.js:106-108 | the broadcasts of two consecutive sequences of steps are those of the first followed by those of the second, so extraction keeps call order and repeats |
| Protocol.BroadcastsOne | src/controllers/issuesController.js:106 | a single `broadcast` step contributes its message and a single response step contributes nothing |
| Checklist.Split | src/controllers/issuesController.js:86 | `split('\n')` gives at least one piece, and no piece contains a newline |
| Checklist.JoinSplit | src/controllers/issuesController.js:86-97 | joining the pieces of a split with `'\n'` gives the string back |
| Checklist.Join | src/controllers/issuesController.js:97 | `join('\n')` starts with the first line, and a newline follows it when there are more lines |
| Checklist.SplitJoin | src/controllers/issuesController.js:86-97 | splitting the join of newline-free lines gives the lines back |
| Checklist.Includes | src/controllers/issuesController.js:90 | `line.includes(text)` needs `text` no longer than the line, holds for the empty text, and for a text as long as the line holds only when they are equal |
| Checklist.IncludesIffOccurs | src/controllers/issuesController.js:90 | the scan `line.includes(text)` holds exactly when `text` occurs in `line` at some position |
| Checklist.IncludesSuffix | src/controllers/issuesController.js:90-91 | a rewritten line `- [x] text` still includes `text`, because every string includes its own suffix |
| Checklist.IncludesKeepsChars | src/controllers/issuesController.js:90 | a line that includes `text` contains every character of `text` |
| Checklist.RewriteLine | src/controllers/issuesController.js:89-94 | a line that does not contain `text` is kept; a rewritten line still contains `text`; the rewrite brings in no newline that was not in the line or the text |
| Checklist.RewriteLines | src/controllers/issuesController.js:89-94 | the map keeps the line count, and each line is rewritten on its own |
| Checklist.Description | src/controllers/issuesController.js:83-86 | nullish `response.data` throws. A falsy description reads as `''` and a string reads as itself. A truthy non-string throws at `split`. It succeeds exactly in the two reading cases |
| Checklist.NewlineTextMatchesNoLine | src/controllers/issuesController.js:86-94 | an item text containing a newline matches no line, so every line is kept |
| Checklist.Rewrite | src/controllers/issuesController.js:86-97 | the lines of the rewritten description are the rewritten lines. The count is kept. A line containing `text` becomes `Marker(checked) + text`, and any other line is kept character for character |
| Checklist.RewriteWithoutMatch | src/controllers/issuesController.js:89-97 | when no line contains `text`, the description is unchanged |
| Checklist.RewriteLastWriteWins | src/controllers/issuesController.js:89-94 | rewriting the same item twice equals rewriting it once with the second `checked` value |
| Checklist.RewriteIdempotent | src/controllers/issuesController.js:89-94 | rewriting the same item with the same value twice equals rewriting once |
| Checklist.RewriteEmptyText | src/controllers/issuesController.js:90-91 | with an empty `text` every line matches and becomes the bare marker, and the line count is kept |
| IssuesController.CloseIssue | src/controllers/issuesController.js:127-146 | on an accepted PUT: one `issueClosed` broadcast of `{issueId, state: 'closed'}`, then the 200 JSON answer, and the two agree on `issueId` and `state`. On a refused PUT: only the 500 JSON `{error, details}`. There is a broadcast iff the PUT succeeded |
| IssuesController.ReopenIssue | src/controllers/issuesController.js:159-177 | on an accepted PUT: one `issueReopened` broadcast of `{issueId, state: 'opened'}`, then the JSON answer with the same id and state. On a refused PUT: only the 500 text "Error reopening issue: " + message. There is a broadcast iff the PUT succeeded |
| IssuesController.UpdateChecklist | src/controllers/issuesController.js:73-113 | a failed GET, a description that throws, or a failed PUT gives only the 500 text "Error updating checklist: " + message. The description written is the line rewrite of the fetched description with `String(text)` and the truthiness of `checked`. On success: one `issueUpdated` broadcast of `{issueId, text, checked}`, then 200 "Checklist updated". A broadcast implies the PUT succeeded |
| WebSocketServer.Fanout | src/config/webSocketServer.js:25-33 | one broadcast keeps the number of clients and every readyState. Every OPEN client gets the one message appended; every other client is unchanged |
| WebSocketServer.FanoutCharacterised | src/config/webSocketServer.js:28-32 | any client table that keeps every readyState, appends the message to exactly the OPEN clients' outboxes and leaves the others alone is the result of one broadcast |
| WebSocketServer.FanoutInOrder | src/config/webSocketServer.js:28-30 | two broadcasts append both messages to each OPEN client in call order, and leave every other client unchanged |
| WebSocketServer.FanoutCountsOne | src/config/webSocketServer.js:28-30 | each broadcast adds exactly one message to an OPEN client and none to any other, keeping the earlier messages as a prefix |
| WebSocketServer.Server.Broadcast | src/config/webSocketServer.js:25-33 | the loop over the client set leaves every client's state and outbox as `Fanout` of the old ones with the message `{event, data}`. The client set is unchanged |
| Dom.Toggle | public/js/showIssue.js:75-76 | `classList.toggle(name, force)`: `name` is present iff `force`, and every other class is untouched |
| Dom.MarkState | public/js/Issues.js:70-71 | class `closed` is present iff the state is `'closed'` and `open` iff it is `'opened'`; other classes are untouched |
| Dom.MarkStateLastWins | public/js/Issues.js:70-71 | marking a second time replaces the first mark |
| ShowIssue.NormalizeCode | public/js/showIssue.js:49-50 | a pushed state 1 becomes `'opened'` and 0 becomes `'closed'`; any other value is kept |
| ShowIssue.NormalizeStatus | public/js/showIssue.js:68-69 | `'close'` becomes `'closed'` and `'open'` becomes `'opened'`; any other value is kept |
| ShowIssue.ActionButton | public/js/showIssue.js:86-98 | the new button carries the page's issue id and class `button`. It reads "Reopen Issue", has `reopen-btn` and reopens on click iff the status is `'closed'`. Otherwise, including undefined or unknown statuses, it reads "Close Issue", has `close-btn` and closes on click |
| ShowIssue.ReplaceFirstButton | public/js/showIssue.js:80-101 | the first button is removed and the new one appended, so a container with at most one button holds exactly the new one |
| ShowIssue.ShowStatus | public/js/showIssue.js:72-77 | the status element's text is the status as `textContent` shows it, `data-state` is the status as a string, class `closed` is present iff the status is `'closed'`, `open` iff it is `'opened'`, and its other classes are kept |
| ShowIssue.Render | public/js/showIssue.js:66-102 | the update creates no element: a missing status element or container stays missing and a present one stays present. A container with at most one button ends holding only the new button for the normalised status |
| ShowIssue.RenderShows | public/js/showIssue.js:66-102 | if there is a status element, its text and `data-state` are the normalised status, it carries exactly the matching `closed`/`open` mark and keeps its other classes. If there is a container, it has lost its first button and ends with the new one |
| ShowIssue.RenderLastWins | public/js/showIssue.js:66-102 | with at most one button, the second of two status updates decides the page alone |
| ShowIssue.RenderIdempotent | public/js/showIssue.js:66-102 | with at most one button, applying the same status twice equals applying it once |
| ShowIssue.RenderTwoButtonsNotIdempotent | public/js/showIssue.js:83-84 | with two buttons in the container, the second of which is not the button the update creates, a second identical update changes the page again |
| ShowIssue.OnPush | public/js/showIssue.js:46-55 | events other than `issueClosed`, `issueReopened` and `issueUpdated` leave the page unchanged |
| ShowIssue.OnPushIgnoresIssueId | public/js/showIssue.js:52-54 | the id carried by a push does not affect what the detail page does with it |
| ShowIssue.ResponseJson | public/js/showIssue.js:118 | a JSON answer parses to its body; a text answer makes `response.json()` reject |
| ShowIssue.DetailPage.UpdateIssueStatus | public/js/showIssue.js:66-102 | the page afterwards is `Render` of the page before with the given status |
| ShowIssue.DetailPage.OnMessage | public/js/showIssue.js:46-55 | the page afterwards is `OnPush` of the page before: the status events render the normalised `data.state`, and any other event changes nothing |
| ShowIssue.DetailPage.OnActionAnswer | public/js/showIssue.js:111-125 | a rejected request or a nullish answer leaves the page unchanged; otherwise the page renders the answer's `state` |
| IssuesList.NewEntry | public/js/Issues.js:33-55 | the entry's `data-id` (on the item and on the status span) is the issue id, its link is `./issues/showIssue/{id}`, its title is `#{id}: {title}` and its status text is `issue.state` |
| IssuesList.Selects | public/js/Issues.js:66 | the selector `.issue-status[data-id="key"]` matches a span iff it has class `issue-status` and its `data-id` is `key` (a definition, used by the contract of `FindStatus`) |
| IssuesList.FindStatus | public/js/Issues.js:66 | `querySelector` gives the first entry whose status span matches `.issue-status[data-id="key"]`, and nothing exactly when none matches |
| IssuesList.FindStatusSameMatches | public/js/Issues.js:66 | two lists whose spans match at the same positions give the same search result |
| IssuesList.SetState | public/js/Issues.js:69-71 | the span's text shows the new state, class `closed` is present iff the state is `'closed'`, `open` iff it is `'opened'`; its other classes and its `data-id` are kept |
| IssuesList.Updated | public/js/Issues.js:65-73 | with no match the list is unchanged. Otherwise only the first match changes: its text becomes the new state, `closed` is set iff the state is `'closed'`, `open` iff it is `'opened'`, its other classes and `data-id` are kept, and the rest of the entry is kept. The number of entries is kept |
| IssuesList.UpdatedLastWins | public/js/Issues.js:69-71 | a second update of the same id overrides the first |
| IssuesList.UpdatedIdempotent | public/js/Issues.js:69-71 | updating with the same state twice equals updating once |
| IssuesList.OnPush | public/js/Issues.js:5-13 | a page without a list stays without one, and an event other than the four push events changes nothing |
| IssuesList.ListPage.AddIssueToList | public/js/Issues.js:24-56 | a missing list stays missing. Otherwise exactly one new entry is put at index 0 and the old entries follow in order, with no check for an existing entry of the same id |
| IssuesList.ListPage.UpdateIssueStatus | public/js/Issues.js:65-73 | the list afterwards is `Updated` of the list before, with the key `String(issueId)` |
| IssuesList.ListPage.OnMessage | public/js/Issues.js:5-13 | the list afterwards is `OnPush` of the list before: `issueCreated` adds `data`, and a status event updates `data.id` to `data.state` |
| Scenarios.WebhookCreatesListEntry | src/controllers/WebhookController.js:37-57 | an authenticated "issue opened" webhook for #42 "Bug" puts `#42: Bug` with status `opened` in front of a list page that receives the push |
| Scenarios.CloseFromOnePage | public/js/showIssue.js:111-125 | an accepted close reaches both open detail pages of the issue through the hub. Both end as closed with the one "Reopen Issue" button, and the echo changes nothing on the clicking page |
| Scenarios.RefusedCloseBlanksStatus | src/controllers/issuesController.js:142-145 | a refused close blanks the clicking page's status text, sets `data-state` to `undefined` and shows "Close Issue" |
| Scenarios.RefusedReopenKeepsPage | src/controllers/issuesController.js:173-176 | a refused reopen leaves the clicking page unchanged |
| Scenarios.ChecklistPushBlanksStatus | src/controllers/issuesController.js:106 | the checklist push renders a missing state on every detail page |
| Scenarios.ActionPushMissesList | public/js/Issues.js:10-11 | a close or reopen push leaves the list unchanged when no entry has `data-id="undefined"` |
| Scenarios.ActionPushHitsUndefinedEntry | public/js/Issues.js:33-71 | an entry added from data without `id` has `data-id="undefined"`, and a close push for any issue sets that entry's status text to `closed` and marks it `closed` |

## Left out

- The file `src/server.js` is not part of this model. It covers the Express set-up, middleware, error pages and the WebSocket upgrade hook.
- Request routing is not modelled: `src/routes/router.js` and `src/routes/webhookRouter.js`. The second imports a controller file name that does not exist.
- `public/js/index.js` is not modelled: it is a single navigation click handler.
- `getAllIssues` and `getIssueById` are not modelled: they are tracker GETs and page rendering.
- The tracker's HTTP calls (axios) are inputs: the GET's data or error, and the PUT's success or error message. The URLs and headers they send are not modelled.
- The browser's `fetch` and `response.json()` promise chain is reduced to its outcome: the parsed answer, or nothing when the request or the parse rejected (`ShowIssue.ResponseJson`).
- JSON encoding on the wire is not modelled. A push message is the `{event, data}` value itself. So is a JSON HTTP body, with no dropping of `undefined` fields and no text form.
- JavaScript numbers are integers here. Floating point, `NaN` and arrays are not modelled. Infinities and exotic values such as a `text` field holding an array are not modelled either.
- WebSocketServer.Server.Broadcast: assumes `WebSocket.OPEN` resolves to 1. On Node versions without a global `WebSocket` the comparison throws a ReferenceError, the throwing broadcast is not modelled, and the failing handler's `catch` path after it is not modelled either.
- WebSocketServer.Server.Broadcast: `client.send` is modelled as an append to the client's outbox. Send errors, buffering and backpressure are not modelled.
- Socket lifecycle is not modelled: connection, close, incoming messages and membership of the client set belong to the socket library. The client table is given.
- Concurrency and interleaving of requests and pushes are not modelled. `Scenarios` fixes one order.
- Logging (winston and the console) has no effect on the behaviour and is left out.
- The token comparison is plain string equality. There is no timing claim, and the header arriving as an array is not modelled.
- IssuesList.FindStatus: the selector is built by interpolating the id into quotes. Ids containing `"` or `\` would make a different or invalid selector, which is not modelled. Matching is by exact `data-id`.
- IssuesList.FindStatus: the search runs over the list's entries only, whereas `document.querySelector` searches the whole document.
- The detail page is reduced to the first `.issue-status` element and `#button-container`. Button listeners are recorded as which request they send, and the request sent when a button is clicked is not modelled.
- The checklist rewrite's `includes` and the template literal use `String(text)`. For values other than strings and integers (an array, a `Symbol`) that conversion is not modelled.
- IssuesController.UpdateChecklist: takes `text` and `checked` as already read from the request body; a missing body, on which the destructuring throws and the handler answers 500, is not modelled.
- Strings are sequences of Unicode characters; UTF-16 code units and lone surrogates are not modelled.
