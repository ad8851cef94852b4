/** The GitLab webhook endpoint (`WebhooksController.indexPost`): token check,
    `event_type` filter, the issue snapshot and the choice of push event. */
module Webhook {
  import opened JsValues
  import opened Protocol

  /** The body sent with status 403. */
  const ForbiddenBody: map<string, Value> := map["error" := Str("Forbidden: Invalid webhook signature")]

  predicate IsCreateAction(action: Value) {
    action == Str("open") || action == Str("create")
  }

  /** The event kind chosen from the tracker's `state` and `action`, with the two
      tests written as two separate `if`s: the second one overrides the first. */
  function Classify(state: Value, action: Value): (kind: EventKind)
    ensures kind != IssueReopened
    ensures kind == IssueCreated <==> IsCreateAction(action)
    ensures kind == IssueClosed <==> state == Str("closed") && !IsCreateAction(action)
    ensures kind == IssueUpdated <==> state != Str("closed") && !IsCreateAction(action)
  {
    var byDefault := IssueUpdated;
    var afterState := if state == Str("closed") then IssueClosed else byDefault;
    if IsCreateAction(action) then IssueCreated else afterState
  }

  /** A close-first rule order, where a closed state takes precedence over an
      open or create action. */
  function ClassifyCloseFirst(state: Value, action: Value): (kind: EventKind)
    ensures kind == IssueClosed <==> state == Str("closed")
  {
    if state == Str("closed") then IssueClosed
    else if IsCreateAction(action) then IssueCreated
    else IssueUpdated
  }

  /** The handler and the close-first order disagree exactly on closed issues whose
      action is open or create; the handler then says `issueCreated`. */
  lemma ClassifyDiffersFromCloseFirst(state: Value, action: Value)
    ensures Classify(state, action) != ClassifyCloseFirst(state, action)
            <==> state == Str("closed") && IsCreateAction(action)
    ensures Classify(state, action) != ClassifyCloseFirst(state, action)
            ==> Classify(state, action) == IssueCreated
  {
  }

  /** The data of the push message: `{id: iid, title, state, description}`
      copied from `object_attributes`. */
  function Snapshot(attrs: Value): (data: map<string, Value>)
    requires !Nullish(attrs)
    ensures data.Keys == {"id", "title", "state", "description"}
    ensures Member(attrs, "iid") == Some(data["id"])
    ensures Member(attrs, "title") == Some(data["title"])
    ensures Member(attrs, "state") == Some(data["state"])
    ensures Member(attrs, "description") == Some(data["description"])
  {
    map[
      "id" := Member(attrs, "iid").value,
      "title" := Member(attrs, "title").value,
      "state" := Member(attrs, "state").value,
      "description" := Member(attrs, "description").value
    ]
  }

  /** Handles one POST. `token` is the `x-gitlab-token` header (None when absent),
      `secret` the configured `GITLAB_WEBHOOK_SECRET` (None when unset) and `body`
      the parsed request body. The result lists the broadcasts and the response in
      the order the handler makes them; an exception inside the `try` is logged
      and ends the handler with no response. */
  method IndexPost(token: Option<string>, secret: Option<string>, body: Value)
    returns (effects: seq<Effect>)
    // A missing, empty or mismatched token: 403 and nothing else.
    ensures token.None? || token == Some("") || secret != token
            ==> effects == [Respond(Json(403, ForbiddenBody))]
    // Authenticated, but the body is nullish (reading event_type throws) or not an issue event.
    ensures token.Some? && token.value != "" && secret == token
            && (Nullish(body) || Member(body, "event_type") != Some(Str("issue")))
            ==> effects == []
    // An issue event without object_attributes: reading `iid` throws.
    ensures token.Some? && token.value != "" && secret == token
            && Member(body, "event_type") == Some(Str("issue"))
            && Nullish(Member(body, "object_attributes").value)
            ==> effects == []
    // An issue event: exactly one broadcast of the snapshot, then 200.
    ensures token.Some? && token.value != "" && secret == token
            && Member(body, "event_type") == Some(Str("issue"))
            && !Nullish(Member(body, "object_attributes").value)
            ==> var attrs := Member(body, "object_attributes").value;
                effects == [
                  Broadcast(Message(
                    EventName(Classify(Member(attrs, "state").value, Member(attrs, "action").value)),
                    Snapshot(attrs))),
                  Respond(Text(200, "Webhook received"))
                ]
    ensures forall m :: m in Broadcasts(effects) ==> m.event != EventName(IssueReopened)
  {
    var signature := token;
    if signature.None? || signature.value == "" || signature != secret {
      effects := [Respond(Json(403, ForbiddenBody))];
      return;
    }
    effects := [];
    var message := body;
    var eventType := Member(message, "event_type");
    if eventType.None? {
      return;  // TypeError: logged, no response
    }
    if eventType.value != Str("issue") {
      return;
    }
    var attrs := Member(message, "object_attributes").value;
    if Nullish(attrs) {
      return;  // TypeError: logged, no response
    }
    var issueData := Snapshot(attrs);
    var kind := Classify(Member(attrs, "state").value, Member(attrs, "action").value);
    effects := effects + [Broadcast(Message(EventName(kind), issueData))];
    effects := effects + [Respond(Text(200, "Webhook received"))];
    assert Broadcasts(effects) == [Message(EventName(kind), issueData)];
  }
}
