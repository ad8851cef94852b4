/** What the server hands to the outside world: messages pushed to every
    connected browser and HTTP responses, in the order a handler produces them. */
module Protocol {
  import opened JsValues

  /** The four push event kinds and their names on the wire. */
  datatype EventKind = IssueCreated | IssueClosed | IssueReopened | IssueUpdated

  function EventName(k: EventKind): string {
    match k
    case IssueCreated => "issueCreated"
    case IssueClosed => "issueClosed"
    case IssueReopened => "issueReopened"
    case IssueUpdated => "issueUpdated"
  }

  /** The push message `{event, data}`; the JSON text of it is not modelled. */
  datatype Message = Message(event: string, data: map<string, Value>)

  /** `res.json(body)` or `res.send(text)` with the status last set by `res.status`. */
  datatype Response =
    | Json(status: int, body: map<string, Value>)
    | Text(status: int, text: string)

  /** One observable step of a request handler: a call of `broadcast`, or the response. */
  datatype Effect = Broadcast(msg: Message) | Respond(response: Response)

  /** The messages a handler broadcast, in call order. */
  function Broadcasts(effects: seq<Effect>): (ms: seq<Message>)
    ensures |ms| <= |effects|
    ensures forall m :: m in ms <==> Broadcast(m) in effects
  {
    if effects == [] then []
    else
      var rest := Broadcasts(effects[1..]);
      assert effects == [effects[0]] + effects[1..];
      if effects[0].Broadcast? then [effects[0].msg] + rest else rest
  }

  /** The broadcasts of consecutive steps are the broadcasts of the first part
      followed by those of the second: extraction keeps call order and repeats. */
  lemma {:induction false} BroadcastsAppend(a: seq<Effect>, b: seq<Effect>)
    ensures Broadcasts(a + b) == Broadcasts(a) + Broadcasts(b)
    decreases |a|
  {
    if a == [] {
      assert a + b == b;
    } else {
      assert (a + b)[1..] == a[1..] + b;
      BroadcastsAppend(a[1..], b);
    }
  }

  /** A single step contributes its message when it is a broadcast, and nothing otherwise. */
  lemma BroadcastsOne(e: Effect)
    ensures Broadcasts([e]) == if e.Broadcast? then [e.msg] else []
  {
  }
}
