/** The issue detail page's script: the push message handler, the status
    element and its single action button, and the answer to its own close or
    reopen request. The page is modelled by the two DOM parts the script
    touches: the first `.issue-status` element and `#button-container`. */
module ShowIssue {
  import opened JsValues
  import opened Protocol
  import opened Dom

  /** The `.issue-status` element: its text, its `data-state` attribute and its classes. */
  datatype StatusElement = StatusElement(text: string, dataState: string, classes: set<string>)

  /** Which request a button's click listener sends. */
  datatype ButtonAction = CloseOnClick | ReopenOnClick

  datatype Button = Button(text: string, classes: set<string>, dataIssueId: string, onClick: ButtonAction)

  /** The page as the script sees it; either element may be missing. */
  datatype DetailView = DetailView(status: Option<StatusElement>, container: Option<seq<Button>>)

  /** The push handler's rewrite of `data.state`: 1 is `'opened'`, 0 is `'closed'`. */
  function NormalizeCode(state: Value): (r: Value)
    ensures state == Num(1) ==> r == Str("opened")
    ensures state == Num(0) ==> r == Str("closed")
    ensures state != Num(1) && state != Num(0) ==> r == state
  {
    var afterOne := if state == Num(1) then Str("opened") else state;
    if afterOne == Num(0) then Str("closed") else afterOne
  }

  /** `updateIssueStatus`'s rewrite of its argument: `'close'` is `'closed'`, `'open'` is `'opened'`. */
  function NormalizeStatus(status: Value): (r: Value)
    ensures status == Str("close") ==> r == Str("closed")
    ensures status == Str("open") ==> r == Str("opened")
    ensures status != Str("close") && status != Str("open") ==> r == status
  {
    var afterClose := if status == Str("close") then Str("closed") else status;
    if afterClose == Str("open") then Str("opened") else afterClose
  }

  /** The button `updateIssueStatus` creates: reopen for `'closed'`, close for anything else. */
  function ActionButton(issueId: string, status: Value): (b: Button)
    ensures b.dataIssueId == issueId && "button" in b.classes
    ensures b.text == "Reopen Issue" <==> status == Str("closed")
    ensures b.text == "Close Issue" <==> status != Str("closed")
    ensures "reopen-btn" in b.classes <==> status == Str("closed")
    ensures "close-btn" in b.classes <==> status != Str("closed")
    ensures b.onClick == ReopenOnClick <==> status == Str("closed")
  {
    if status == Str("closed") then Button("Reopen Issue", {"button", "reopen-btn"}, issueId, ReopenOnClick)
    else Button("Close Issue", {"button", "close-btn"}, issueId, CloseOnClick)
  }

  /** The status element after it is set to the (normalised) status `s`: its
      text is `s` as `textContent` shows it, `data-state` is `s` as a string,
      and it is marked exactly for `'closed'` or `'opened'`, other classes kept. */
  function ShowStatus(el: StatusElement, s: Value): (r: StatusElement)
    ensures r.text == TextContent(s) && r.dataState == ToString(s)
    ensures "closed" in r.classes <==> s == Str("closed")
    ensures "open" in r.classes <==> s == Str("opened")
    ensures forall c :: c != "closed" && c != "open" ==> (c in r.classes <==> c in el.classes)
  {
    StatusElement(TextContent(s), ToString(s), MarkState(el.classes, s))
  }

  /** The container after its first button is removed and `b` is appended. */
  function ReplaceFirstButton(buttons: seq<Button>, b: Button): (r: seq<Button>)
    ensures |r| == (if buttons == [] then 1 else |buttons|)
    ensures r[|r| - 1] == b
    ensures buttons != [] ==> r[..|r| - 1] == buttons[1..]
    ensures |buttons| <= 1 ==> r == [b]
  {
    (if buttons == [] then [] else buttons[1..]) + [b]
  }

  /** A page holding at most one button holds exactly one afterwards. */
  predicate AtMostOneButton(view: DetailView) {
    view.container.Some? ==> |view.container.value| <= 1
  }

  /** The view after `updateIssueStatus(status)` on the page of `issueId`. The
      script creates no element, so a missing element stays missing; a
      container with at most one button ends holding only the new button. */
  function Render(view: DetailView, issueId: string, status: Value): (r: DetailView)
    ensures r.status.Some? <==> view.status.Some?
    ensures r.container.Some? <==> view.container.Some?
    ensures AtMostOneButton(view) && view.container.Some? ==>
              r.container == Some([ActionButton(issueId, NormalizeStatus(status))])
  {
    var s := NormalizeStatus(status);
    DetailView(
      match view.status
      case None => None
      case Some(el) => Some(ShowStatus(el, s)),
      match view.container
      case None => None
      case Some(buttons) => Some(ReplaceFirstButton(buttons, ActionButton(issueId, s))))
  }

  /** What a status update shows: the status element (when there is one) holds
      the normalised status and exactly its marks; the container (when there is
      one) has lost its first button and ends with the new one. */
  lemma RenderShows(view: DetailView, issueId: string, status: Value)
    ensures var r := Render(view, issueId, status);
            var s := NormalizeStatus(status);
            r.status.Some? ==>
              && r.status.value.text == TextContent(s)
              && r.status.value.dataState == ToString(s)
              && ("closed" in r.status.value.classes <==> s == Str("closed"))
              && ("open" in r.status.value.classes <==> s == Str("opened"))
              && (forall c :: c != "closed" && c != "open" ==>
                    (c in r.status.value.classes <==> c in view.status.value.classes))
    ensures var r := Render(view, issueId, status);
            r.container.Some? ==>
              var before := view.container.value;
              && |r.container.value| == (if before == [] then 1 else |before|)
              && r.container.value[|r.container.value| - 1] == ActionButton(issueId, NormalizeStatus(status))
              && (before != [] ==> r.container.value[..|before| - 1] == before[1..])
  {
  }

  /** The second of two status updates decides the page alone: with at most one
      button, the first update leaves no trace. So the answer to a click and the
      push echo of the same action can arrive in either order. */
  lemma RenderLastWins(view: DetailView, issueId: string, first: Value, second: Value)
    requires AtMostOneButton(view)
    ensures AtMostOneButton(Render(view, issueId, first))
    ensures Render(Render(view, issueId, first), issueId, second) == Render(view, issueId, second)
  {
    var s1, s2 := NormalizeStatus(first), NormalizeStatus(second);
    if view.status.Some? {
      MarkStateLastWins(view.status.value.classes, s1, s2);
    }
  }

  /** Applying the same status twice is applying it once. */
  lemma RenderIdempotent(view: DetailView, issueId: string, status: Value)
    requires AtMostOneButton(view)
    ensures Render(Render(view, issueId, status), issueId, status) == Render(view, issueId, status)
  {
    RenderLastWins(view, issueId, status, status);
  }

  /** Without the one-button precondition idempotence fails: a second button
      survives the first update and is removed by the second. */
  lemma RenderTwoButtonsNotIdempotent(issueId: string, b1: Button, b2: Button, status: Value)
    requires b2 != ActionButton(issueId, NormalizeStatus(status))
    ensures var view := DetailView(None, Some([b1, b2]));
            Render(Render(view, issueId, status), issueId, status) != Render(view, issueId, status)
  {
    var nb := ActionButton(issueId, NormalizeStatus(status));
    assert ReplaceFirstButton([b1, b2], nb) == [b2, nb];
    assert ReplaceFirstButton([b2, nb], nb) == [nb, nb];
  }

  /** The events the detail page reacts to; `issueCreated` is not among them. */
  predicate IsStatusEvent(event: string) {
    event == "issueClosed" || event == "issueReopened" || event == "issueUpdated"
  }

  /** The page after a push message: a status event renders the normalised
      `data.state`, whatever issue it is about; any other event changes nothing. */
  function OnPush(view: DetailView, issueId: string, msg: Message): (r: DetailView)
    ensures !IsStatusEvent(msg.event) ==> r == view
  {
    if IsStatusEvent(msg.event) then Render(view, issueId, NormalizeCode(Property(msg.data, "state")))
    else view
  }

  /** The push message does not need to name the page's issue. */
  lemma OnPushIgnoresIssueId(view: DetailView, issueId: string, msg: Message, id: Value)
    ensures OnPush(view, issueId, msg.(data := msg.data["id" := id])) == OnPush(view, issueId, msg)
    ensures OnPush(view, issueId, msg.(data := msg.data["issueId" := id])) == OnPush(view, issueId, msg)
  {
    assert Property(msg.data["id" := id], "state") == Property(msg.data, "state");
    assert Property(msg.data["issueId" := id], "state") == Property(msg.data, "state");
  }

  /** `response.json()` on the answers of the action handlers: JSON answers
      parse to their body; the text answers are not JSON and reject. */
  function ResponseJson(r: Response): (data: Option<Value>)
    ensures r.Json? ==> data == Some(Obj(r.body))
    ensures r.Text? ==> data.None?
  {
    match r
    case Json(_, body) => Some(Obj(body))
    case Text(_, _) => None
  }

  class DetailPage {
    /** The issue id taken from the page's URL. */
    const issueId: string
    var statusElement: Option<StatusElement>
    var buttonContainer: Option<seq<Button>>

    ghost function View(): DetailView
      reads this
    {
      DetailView(statusElement, buttonContainer)
    }

    constructor (issueId: string, statusElement: Option<StatusElement>, buttonContainer: Option<seq<Button>>)
      ensures this.issueId == issueId && View() == DetailView(statusElement, buttonContainer)
    {
      this.issueId := issueId;
      this.statusElement := statusElement;
      this.buttonContainer := buttonContainer;
    }

    /** `updateIssueStatus(status)`. */
    method UpdateIssueStatus(status: Value)
      modifies this
      ensures View() == Render(old(View()), issueId, status)
    {
      var s := status;
      if s == Str("close") { s := Str("closed"); }
      if s == Str("open") { s := Str("opened"); }
      if statusElement.Some? {
        var el := statusElement.value;
        statusElement := Some(StatusElement(TextContent(s), ToString(s), MarkState(el.classes, s)));
      }
      if buttonContainer.Some? {
        var buttons := buttonContainer.value;
        if buttons != [] {
          buttons := buttons[1..];  // the old button is removed
        }
        var newButton := if s == Str("closed")
          then Button("Reopen Issue", {"button", "reopen-btn"}, issueId, ReopenOnClick)
          else Button("Close Issue", {"button", "close-btn"}, issueId, CloseOnClick);
        buttonContainer := Some(buttons + [newButton]);
      }
    }

    /** The socket's `message` listener. */
    method OnMessage(msg: Message)
      modifies this
      ensures View() == OnPush(old(View()), issueId, msg)
    {
      var eventType, data := msg.event, msg.data;
      if Property(data, "state") == Num(1) { data := data["state" := Str("opened")]; }
      if Property(data, "state") == Num(0) { data := data["state" := Str("closed")]; }
      if eventType == "issueClosed" || eventType == "issueReopened" || eventType == "issueUpdated" {
        UpdateIssueStatus(Property(data, "state"));
      }
    }

    /** The last `.then` of `closeIssue` / `reopenIssue`: `data` is the parsed
        answer, None when the request or `response.json()` rejected. A `null`
        answer makes `data.state` throw, which the `.catch` logs. */
    method OnActionAnswer(data: Option<Value>)
      modifies this
      ensures data.None? || Nullish(data.value) ==> View() == old(View())
      ensures data.Some? && !Nullish(data.value) ==>
                View() == Render(old(View()), issueId, Member(data.value, "state").value)
    {
      if data.Some? && !Nullish(data.value) {
        UpdateIssueStatus(Member(data.value, "state").value);
      }
    }
  }
}
