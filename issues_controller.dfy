/** The issue action handlers: close, reopen and checklist update. Each one
    asks the tracker to change the issue and broadcasts the change only after
    the tracker has accepted it. The tracker's HTTP calls are inputs. */
module IssuesController {
  import opened JsValues
  import opened Protocol
  import Checklist

  /** How the tracker's PUT ended: accepted, or an axios error with its message. */
  datatype TrackerResult = Succeeded | Failed(message: string)

  /** How the tracker's GET ended: `response.data`, or an axios error. */
  datatype Fetch = Fetched(data: Value) | FetchFailed(message: string)

  /** The data broadcast by, and the state answered by, a successful state change. */
  function StateChange(issueId: string, state: string): map<string, Value> {
    map["issueId" := Str(issueId), "state" := Str(state)]
  }

  /** `POST /issues/{iid}/close`. */
  method CloseIssue(issueId: string, put: TrackerResult) returns (effects: seq<Effect>)
    ensures put.Succeeded? ==> effects == [
              Broadcast(Message(EventName(IssueClosed), StateChange(issueId, "closed"))),
              Respond(Json(200, map[
                "message" := Str("Issue closed successfully"), "issueId" := Str(issueId), "state" := Str("closed")]))
            ]
    // The pushed message and the answer carry the same issue id and state.
    ensures put.Succeeded? ==>
              forall key :: key in StateChange(issueId, "closed") ==>
                effects[0].msg.data[key] == effects[1].response.body[key]
    ensures put.Failed? ==> effects == [
              Respond(Json(500, map["error" := Str("Error closing issue"), "details" := Str(put.message)]))
            ]
    ensures Broadcasts(effects) != [] <==> put.Succeeded?
  {
    match put
    case Failed(message) =>
      effects := [Respond(Json(500, map["error" := Str("Error closing issue"), "details" := Str(message)]))];
    case Succeeded =>
      effects := [Broadcast(Message(EventName(IssueClosed), StateChange(issueId, "closed")))];
      effects := effects + [Respond(Json(200, map[
        "message" := Str("Issue closed successfully"),
        "issueId" := Str(issueId),
        "state" := Str("closed")]))];
      assert Broadcasts(effects) == [Message(EventName(IssueClosed), StateChange(issueId, "closed"))];
  }

  /** `POST /issues/{iid}/reopen`. */
  method ReopenIssue(issueId: string, put: TrackerResult) returns (effects: seq<Effect>)
    ensures put.Succeeded? ==> effects == [
              Broadcast(Message(EventName(IssueReopened), StateChange(issueId, "opened"))),
              Respond(Json(200, map[
                "message" := Str("Issue reopen successfully"), "issueId" := Str(issueId), "state" := Str("opened")]))
            ]
    // The pushed message and the answer carry the same issue id and state.
    ensures put.Succeeded? ==>
              forall key :: key in StateChange(issueId, "opened") ==>
                effects[0].msg.data[key] == effects[1].response.body[key]
    ensures put.Failed? ==> effects == [
              Respond(Text(500, "Error reopening issue: " + put.message))
            ]
    ensures Broadcasts(effects) != [] <==> put.Succeeded?
  {
    match put
    case Failed(message) =>
      effects := [Respond(Text(500, "Error reopening issue: " + message))];
    case Succeeded =>
      effects := [Broadcast(Message(EventName(IssueReopened), StateChange(issueId, "opened")))];
      effects := effects + [Respond(Json(200, map[
        "message" := Str("Issue reopen successfully"),
        "issueId" := Str(issueId),
        "state" := Str("opened")]))];
      assert Broadcasts(effects) == [Message(EventName(IssueReopened), StateChange(issueId, "opened"))];
  }

  /** `POST /issues/showIssue/{iid}/checklist` with body `{text, checked}`.
      `written` is the description sent in the PUT, None when the handler
      failed before it. */
  method UpdateChecklist(issueId: string, text: Value, checked: Value, get: Fetch, put: TrackerResult)
    returns (effects: seq<Effect>, written: Option<string>)
    ensures get.FetchFailed? ==>
              written.None? && effects == [Respond(Text(500, "Error updating checklist: " + get.message))]
    ensures get.Fetched? && Checklist.Description(get.data).Thrown? ==>
              written.None? &&
              effects == [Respond(Text(500, "Error updating checklist: " + Checklist.Description(get.data).message))]
    ensures get.Fetched? && Checklist.Description(get.data).Ok? ==>
              written == Some(Checklist.Rewrite(Checklist.Description(get.data).value, ToString(text), Truthy(checked)))
    ensures get.Fetched? && Checklist.Description(get.data).Ok? && put.Failed? ==>
              effects == [Respond(Text(500, "Error updating checklist: " + put.message))]
    ensures get.Fetched? && Checklist.Description(get.data).Ok? && put.Succeeded? ==>
              effects == [
                Broadcast(Message(EventName(IssueUpdated), map["issueId" := Str(issueId), "text" := text, "checked" := checked])),
                Respond(Text(200, "Checklist updated"))
              ]
    ensures Broadcasts(effects) != [] ==> written.Some? && put.Succeeded?
  {
    written := None;
    if get.FetchFailed? {
      effects := [Respond(Text(500, "Error updating checklist: " + get.message))];
      return;
    }
    var description := Checklist.Description(get.data);
    if description.Thrown? {
      effects := [Respond(Text(500, "Error updating checklist: " + description.message))];
      return;
    }
    var updateDescription := Checklist.Rewrite(description.value, ToString(text), Truthy(checked));
    written := Some(updateDescription);
    if put.Failed? {
      effects := [Respond(Text(500, "Error updating checklist: " + put.message))];
      return;
    }
    var update := Message(EventName(IssueUpdated), map["issueId" := Str(issueId), "text" := text, "checked" := checked]);
    effects := [Broadcast(update)];
    effects := effects + [Respond(Text(200, "Checklist updated"))];
    assert Broadcasts(effects) == [update];
  }
}
