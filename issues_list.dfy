/** The issue list page's script: the push message dispatch, `addIssueToList`
    and `updateIssueStatus(issueId, newState)` over the entries of `#issues-list`. */
module IssuesList {
  import opened JsValues
  import opened Protocol
  import opened Dom

  /** A `<span class="issue-status" data-id=…>` with its text. */
  datatype StatusSpan = StatusSpan(classes: set<string>, dataId: string, text: string)

  /** One `<li data-id=…>`: a link around the bold title, then the status span. */
  datatype Entry = Entry(dataId: string, href: string, linkClasses: set<string>, title: string, status: StatusSpan)

  /** The entry `addIssueToList(issue)` builds; every attribute and text goes
      through JavaScript's string conversion. */
  function NewEntry(issue: map<string, Value>): (e: Entry)
    ensures e.dataId == e.status.dataId == ToString(Property(issue, "id"))
    ensures e.href == "./issues/showIssue/" + ToString(Property(issue, "id"))
    ensures e.title == "#" + ToString(Property(issue, "id")) + ": " + ToString(Property(issue, "title"))
    ensures e.status.text == TextContent(Property(issue, "state"))
    ensures e.status.classes == {"issue-status"} && e.linkClasses == {"issue-link"}
  {
    var id := ToString(Property(issue, "id"));
    Entry(id, "./issues/showIssue/" + id, {"issue-link"},
          "#" + id + ": " + ToString(Property(issue, "title")),
          StatusSpan({"issue-status"}, id, TextContent(Property(issue, "state"))))
  }

  /** The selector `.issue-status[data-id="key"]` on one entry's status span. */
  predicate Selects(span: StatusSpan, key: string) {
    "issue-status" in span.classes && span.dataId == key
  }

  /** `querySelector`: the first entry whose status span the selector matches. */
  function FindStatus(entries: seq<Entry>, key: string): (r: Option<nat>)
    ensures r.Some? ==> r.value < |entries| && Selects(entries[r.value].status, key)
    ensures r.Some? ==> forall j :: 0 <= j < r.value ==> !Selects(entries[j].status, key)
    ensures r.None? <==> forall j :: 0 <= j < |entries| ==> !Selects(entries[j].status, key)
    decreases |entries|
  {
    if entries == [] then None
    else if Selects(entries[0].status, key) then Some(0)
    else match FindStatus(entries[1..], key)
      case None => None
      case Some(k) => Some(k + 1)
  }

  /** The status span after `textContent = newState` and the two class toggles:
      the text shows `newState`, the span is marked exactly for `'closed'` or
      `'opened'`, its other classes and its `data-id` are kept. */
  function SetState(span: StatusSpan, newState: Value): (r: StatusSpan)
    ensures r.text == TextContent(newState) && r.dataId == span.dataId
    ensures "closed" in r.classes <==> newState == Str("closed")
    ensures "open" in r.classes <==> newState == Str("opened")
    ensures forall c :: c != "closed" && c != "open" ==> (c in r.classes <==> c in span.classes)
  {
    span.(text := TextContent(newState), classes := MarkState(span.classes, newState))
  }

  /** The entries after `updateIssueStatus(issueId, newState)` with `key` the
      string form of `issueId`: only the first matching status span changes. */
  function Updated(entries: seq<Entry>, key: string, newState: Value): (r: seq<Entry>)
    ensures |r| == |entries|
    ensures FindStatus(entries, key).None? ==> r == entries
    ensures FindStatus(entries, key).Some? ==>
              var k := FindStatus(entries, key).value;
              && r[k].status.text == TextContent(newState)
              && ("closed" in r[k].status.classes <==> newState == Str("closed"))
              && ("open" in r[k].status.classes <==> newState == Str("opened"))
              && r[k] == entries[k].(status := r[k].status)
              && r[k].status.dataId == entries[k].status.dataId
              && (forall c :: c != "closed" && c != "open" ==>
                    (c in r[k].status.classes <==> c in entries[k].status.classes))
              && (forall j :: 0 <= j < |entries| && j != k ==> r[j] == entries[j])
  {
    match FindStatus(entries, key)
    case None => entries
    case Some(k) => entries[k := entries[k].(status := SetState(entries[k].status, newState))]
  }

  /** Two lists whose spans the selector matches at the same places give the same search result. */
  lemma {:induction false} FindStatusSameMatches(a: seq<Entry>, b: seq<Entry>, key: string)
    requires |a| == |b|
    requires forall j :: 0 <= j < |a| ==> (Selects(a[j].status, key) <==> Selects(b[j].status, key))
    ensures FindStatus(a, key) == FindStatus(b, key)
    decreases |a|
  {
    if a != [] && !Selects(a[0].status, key) {
      FindStatusSameMatches(a[1..], b[1..], key);
    }
  }

  /** A second update of the same issue overrides the first: the last state wins. */
  lemma UpdatedLastWins(entries: seq<Entry>, key: string, first: Value, second: Value)
    ensures Updated(Updated(entries, key, first), key, second) == Updated(entries, key, second)
  {
    var once := Updated(entries, key, first);
    match FindStatus(entries, key)
    case None =>
    case Some(k) =>
      var span := entries[k].status;
      assert "issue-status" in MarkState(span.classes, first) <==> "issue-status" in span.classes;
      FindStatusSameMatches(entries, once, key);
      MarkStateLastWins(span.classes, first, second);
      assert SetState(SetState(span, first), second) == SetState(span, second);
  }

  /** Updating with the same state twice is updating once. */
  lemma UpdatedIdempotent(entries: seq<Entry>, key: string, newState: Value)
    ensures Updated(Updated(entries, key, newState), key, newState) == Updated(entries, key, newState)
  {
    UpdatedLastWins(entries, key, newState, newState);
  }

  /** The entries after a push message: `issueCreated` prepends, a status event
      updates the span of `data.id`, any other event changes nothing. */
  function OnPush(list: Option<seq<Entry>>, msg: Message): (r: Option<seq<Entry>>)
    ensures list.None? ==> r.None?
    ensures (msg.event != "issueCreated" && msg.event != "issueClosed" &&
             msg.event != "issueReopened" && msg.event != "issueUpdated") ==> r == list
  {
    match list
    case None => None
    case Some(entries) =>
      if msg.event == "issueCreated" then Some([NewEntry(msg.data)] + entries)
      else if msg.event == "issueClosed" || msg.event == "issueReopened" || msg.event == "issueUpdated"
      then Some(Updated(entries, ToString(Property(msg.data, "id")), Property(msg.data, "state")))
      else list
  }

  class ListPage {
    /** The entries of `#issues-list`, None when the page has no such list. */
    var list: Option<seq<Entry>>

    constructor (list: Option<seq<Entry>>)
      ensures this.list == list
    {
      this.list := list;
    }

    /** `addIssueToList(issue)`: one new entry in front, no check for an existing one. */
    method AddIssueToList(issue: map<string, Value>)
      modifies this
      ensures old(list).None? ==> list.None?
      ensures old(list).Some? ==> list == Some([NewEntry(issue)] + old(list).value)
    {
      if list.None? {
        return;  // "list not found" is logged
      }
      var id := ToString(Property(issue, "id"));
      var issueStatus := StatusSpan({"issue-status"}, id, TextContent(Property(issue, "state")));
      var newIssueElement := Entry(id, "./issues/showIssue/" + id, {"issue-link"},
                                   "#" + id + ": " + ToString(Property(issue, "title")), issueStatus);
      list := Some([newIssueElement] + list.value);
    }

    /** `updateIssueStatus(issueId, newState)`. */
    method UpdateIssueStatus(issueId: Value, newState: Value)
      modifies this
      ensures old(list).None? ==> list.None?
      ensures old(list).Some? ==> list == Some(Updated(old(list).value, ToString(issueId), newState))
    {
      if list.None? {
        return;
      }
      var entries := list.value;
      var issueElement := FindStatus(entries, ToString(issueId));
      if issueElement.Some? {
        var k := issueElement.value;
        var span := entries[k].status;
        span := span.(text := TextContent(newState));
        span := span.(classes := Toggle(span.classes, "closed", newState == Str("closed")));
        span := span.(classes := Toggle(span.classes, "open", newState == Str("opened")));
        list := Some(entries[k := entries[k].(status := span)]);
      }
    }

    /** The socket's `message` listener. */
    method OnMessage(msg: Message)
      modifies this
      ensures list == OnPush(old(list), msg)
    {
      var eventType, data := msg.event, msg.data;
      if eventType == "issueCreated" {
        AddIssueToList(data);
      } else if eventType == "issueClosed" || eventType == "issueReopened" || eventType == "issueUpdated" {
        UpdateIssueStatus(Property(data, "id"), Property(data, "state"));
      }
    }
  }
}
