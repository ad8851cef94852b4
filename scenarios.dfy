/** End-to-end traces of the pipeline, from a webhook or a button click through
    the broadcast to the pages that receive it, written against the contracts
    of the parts alone. */
module Scenarios {
  import opened JsValues
  import opened Protocol
  import Webhook
  import IssuesController
  import Checklist
  import WebSocketServer
  import ShowIssue
  import IssuesList

  /** A GitLab "issue opened" webhook for #42 "Bug" puts `#42: Bug` with status
      `opened` in front of a list page that receives its push. */
  method WebhookCreatesListEntry(secret: string, page: IssuesList.ListPage)
    requires secret != "" && page.list.Some?
    modifies page
    ensures page.list.Some? && |page.list.value| == |old(page.list.value)| + 1
    ensures page.list.value[1..] == old(page.list.value)
    ensures page.list.value[0] ==
              IssuesList.Entry("42", "./issues/showIssue/42", {"issue-link"}, "#42: Bug",
                               IssuesList.StatusSpan({"issue-status"}, "42", "opened"))
  {
    var attrs := Obj(map["iid" := Num(42), "title" := Str("Bug"), "state" := Str("opened"), "action" := Str("open")]);
    var body := Obj(map["event_type" := Str("issue"), "object_attributes" := attrs]);
    assert Member(body, "event_type") == Some(Str("issue"));
    assert Member(body, "object_attributes") == Some(attrs);
    assert Member(attrs, "action") == Some(Str("open"));
    var effects := Webhook.IndexPost(Some(secret), Some(secret), body);
    var pushed := effects[0].msg;
    assert pushed == Message("issueCreated", Webhook.Snapshot(attrs));
    assert Property(pushed.data, "id") == Num(42);
    assert Property(pushed.data, "title") == Str("Bug");
    assert Property(pushed.data, "state") == Str("opened");

    Entry42(pushed.data);
    page.OnMessage(pushed);
  }

  /** The list entry built from the push data of issue #42 "Bug", opened. */
  lemma Entry42(data: map<string, Value>)
    requires Property(data, "id") == Num(42) && Property(data, "title") == Str("Bug")
    requires Property(data, "state") == Str("opened")
    ensures IssuesList.NewEntry(data) ==
              IssuesList.Entry("42", "./issues/showIssue/42", {"issue-link"}, "#42: Bug",
                               IssuesList.StatusSpan({"issue-status"}, "42", "opened"))
  {
    assert ToString(Num(42)) == "42";
  }

  /** Two pages of issue `id`, each on an open connection. Page `clicker` closes
      the issue and the tracker accepts: `clicker` applies the answer and then
      its own echo, `other` applies the push. Both end closed, with one
      "Reopen Issue" button, and the echo changes nothing on `clicker`. */
  method CloseFromOnePage(id: string, server: WebSocketServer.Server,
                          c1: WebSocketServer.Client, c2: WebSocketServer.Client,
                          clicker: ShowIssue.DetailPage, other: ShowIssue.DetailPage)
    requires server.Valid() && server.clients == [c1, c2] && c1.readyState.Open? && c2.readyState.Open?
    requires clicker.issueId == id && other.issueId == id && clicker != other
    requires ShowIssue.AtMostOneButton(clicker.View()) && ShowIssue.AtMostOneButton(other.View())
    modifies server.clients, clicker, other
    ensures clicker.View() == ShowIssue.Render(old(clicker.View()), id, Str("closed"))
    ensures other.View() == ShowIssue.Render(old(other.View()), id, Str("closed"))
    ensures clicker.View() == other.View() || old(clicker.View()) != old(other.View())
    ensures clicker.buttonContainer.Some? ==>
              clicker.buttonContainer.value == [ShowIssue.ActionButton(id, Str("closed"))] &&
              clicker.buttonContainer.value[0].text == "Reopen Issue"
    ensures clicker.statusElement.Some? ==> clicker.statusElement.value.text == "closed"
  {
    var effects := IssuesController.CloseIssue(id, IssuesController.Succeeded);
    var pushed := effects[0].msg;
    assert pushed == Message("issueClosed", IssuesController.StateChange(id, "closed"));
    var toClicker, toOther := DeliverToBoth(server, c1, c2, pushed);
    assert Property(pushed.data, "state") == Str("closed");
    assert ShowIssue.NormalizeCode(Str("closed")) == Str("closed");

    var answer := ShowIssue.ResponseJson(effects[1].response);
    assert Member(answer.value, "state") == Some(Str("closed"));
    clicker.OnActionAnswer(answer);
    ghost var afterAnswer := clicker.View();
    clicker.OnMessage(toClicker);
    ShowIssue.RenderIdempotent(old(clicker.View()), id, Str("closed"));
    assert clicker.View() == afterAnswer;

    other.OnMessage(toOther);
    ShowIssue.RenderShows(old(clicker.View()), id, Str("closed"));
  }

  /** The hub broadcasts `m` to two open clients; each receives it as its latest message. */
  method DeliverToBoth(server: WebSocketServer.Server, c1: WebSocketServer.Client, c2: WebSocketServer.Client, m: Message)
    returns (first: Message, second: Message)
    requires server.Valid() && server.clients == [c1, c2] && c1.readyState.Open? && c2.readyState.Open?
    modifies server.clients
    ensures first == m && second == m
  {
    ghost var before := server.View();
    assert before[0].readyState.Open? && before[1].readyState.Open?;
    server.Broadcast(m.event, m.data);
    ghost var after := server.View();
    assert after[0].outbox == before[0].outbox + [m] && after[1].outbox == before[1].outbox + [m];
    assert c1.outbox == after[0].outbox && c2.outbox == after[1].outbox;
    first, second := c1.outbox[|c1.outbox| - 1], c2.outbox[|c2.outbox| - 1];
  }

  /** A close the tracker refuses is answered with a JSON error body without
      `state`, and the page renders that missing state: its status text is
      emptied and its button becomes "Close Issue". */
  method RefusedCloseBlanksStatus(id: string, error: string, page: ShowIssue.DetailPage)
    requires page.issueId == id
    modifies page
    ensures page.View() == ShowIssue.Render(old(page.View()), id, Undefined)
    ensures page.statusElement.Some? ==>
              page.statusElement.value.text == "" && page.statusElement.value.dataState == "undefined"
    ensures page.buttonContainer.Some? ==>
              page.buttonContainer.value[|page.buttonContainer.value| - 1].text == "Close Issue"
  {
    var effects := IssuesController.CloseIssue(id, IssuesController.Failed(error));
    var body := map["error" := Str("Error closing issue"), "details" := Str(error)];
    assert effects[0].response == Json(500, body);
    var answer := ShowIssue.ResponseJson(effects[0].response);
    assert answer == Some(Obj(body)) && "state" !in body;
    assert Member(answer.value, "state") == Some(Undefined);
    page.OnActionAnswer(answer);
    ShowIssue.RenderShows(old(page.View()), id, Undefined);
  }

  /** A reopen the tracker refuses is answered in plain text; `response.json()`
      rejects and the page is left as it was. */
  method RefusedReopenKeepsPage(id: string, error: string, page: ShowIssue.DetailPage)
    requires page.issueId == id
    modifies page
    ensures page.View() == old(page.View())
  {
    var effects := IssuesController.ReopenIssue(id, IssuesController.Failed(error));
    page.OnActionAnswer(ShowIssue.ResponseJson(effects[0].response));
  }

  /** The push after a checklist change carries no `state`, so a detail page of
      any issue renders the missing state: status text emptied, "Close Issue". */
  method ChecklistPushBlanksStatus(id: string, text: Value, checked: Value, description: string,
                                   page: ShowIssue.DetailPage)
    modifies page
    ensures page.View() == ShowIssue.Render(old(page.View()), page.issueId, Undefined)
  {
    var fetched := Obj(map["description" := Str(description)]);
    assert Member(fetched, "description") == Some(Str(description));
    assert Checklist.Description(fetched) == Ok(description);
    var effects, written := IssuesController.UpdateChecklist(
      id, text, checked, IssuesController.Fetched(fetched), IssuesController.Succeeded);
    var update := map["issueId" := Str(id), "text" := text, "checked" := checked];
    assert effects[0].msg == Message("issueUpdated", update);
    assert "state" !in update && Property(update, "state") == Undefined;
    assert ShowIssue.NormalizeCode(Undefined) == Undefined;
    page.OnMessage(effects[0].msg);
  }

  /** The close and reopen pushes carry `issueId` but no `id`, and the list looks
      up `data.id`: the selector reads `data-id="undefined"`, so a list without
      such an entry is left unchanged. */
  lemma ActionPushMissesList(entries: seq<IssuesList.Entry>, id: string, event: string, state: string)
    requires event == "issueClosed" || event == "issueReopened"
    requires forall j :: 0 <= j < |entries| ==> entries[j].status.dataId != "undefined"
    ensures IssuesList.OnPush(Some(entries), Message(event, IssuesController.StateChange(id, state))) == Some(entries)
  {
    assert Property(IssuesController.StateChange(id, state), "id") == Undefined;
    assert IssuesList.FindStatus(entries, "undefined").None?;
  }

  /** Such an entry can exist: an issue payload without `iid` is listed with
      `data-id="undefined"`, and then a close push for any issue rewrites it. */
  lemma ActionPushHitsUndefinedEntry(id: string)
    ensures var e := IssuesList.NewEntry(map["title" := Str("T"), "state" := Str("opened")]);
            && e.status.dataId == "undefined"
            && IssuesList.OnPush(Some([e]), Message("issueClosed", IssuesController.StateChange(id, "closed")))
                 == Some([e.(status := e.status.(text := "closed", classes := e.status.classes + {"closed"}))])
  {
    var e := IssuesList.NewEntry(map["title" := Str("T"), "state" := Str("opened")]);
    assert IssuesList.Selects(e.status, "undefined");
    assert IssuesList.FindStatus([e], "undefined") == Some(0);
    var data := IssuesController.StateChange(id, "closed");
    assert Property(data, "id") == Undefined && Property(data, "state") == Str("closed");
    assert IssuesList.SetState(e.status, Str("closed")) == e.status.(text := "closed", classes := e.status.classes + {"closed"});
    var after := e.(status := e.status.(text := "closed", classes := e.status.classes + {"closed"}));
    assert ToString(Undefined) == "undefined";
    assert IssuesList.Updated([e], "undefined", Str("closed")) == [after];
    assert IssuesList.OnPush(Some([e]), Message("issueClosed", data)) == Some(IssuesList.Updated([e], "undefined", Str("closed")));
  }
}
