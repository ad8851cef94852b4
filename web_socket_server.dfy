/** The WebSocket server's `broadcast(event, data)`: one message, built once,
    sent to every client whose connection is open. Connection and close
    handling belong to the socket library; the client table is given. */
module WebSocketServer {
  import opened JsValues
  import opened Protocol

  /** The socket's `readyState`: CONNECTING 0, OPEN 1, CLOSING 2, CLOSED 3. */
  datatype ReadyState = Connecting | Open | Closing | Closed

  /** One connected socket; `outbox` is what `send` has queued for the peer. */
  class Client {
    var readyState: ReadyState
    var outbox: seq<Message>

    constructor (readyState: ReadyState)
      ensures this.readyState == readyState && outbox == []
    {
      this.readyState := readyState;
      outbox := [];
    }
  }

  /** What one client looks like from outside: its state and its outgoing messages. */
  datatype ClientView = ClientView(readyState: ReadyState, outbox: seq<Message>)

  /** The effect of one broadcast on a table of clients: an open client gets
      `m` appended, every other client is left alone. */
  function Fanout(table: seq<ClientView>, m: Message): (r: seq<ClientView>)
    ensures |r| == |table|
    ensures forall i :: 0 <= i < |table| ==> r[i].readyState == table[i].readyState
    ensures forall i :: 0 <= i < |table| && table[i].readyState == Open ==> r[i].outbox == table[i].outbox + [m]
    ensures forall i :: 0 <= i < |table| && table[i].readyState != Open ==> r[i].outbox == table[i].outbox
    decreases |table|
  {
    if table == [] then []
    else
      var c := table[0];
      var first := if c.readyState == Open then ClientView(c.readyState, c.outbox + [m]) else c;
      [first] + Fanout(table[1..], m)
  }

  /** Successive broadcasts reach each open client in call order; a closed
      one receives neither. */
  lemma {:induction false} FanoutInOrder(table: seq<ClientView>, first: Message, second: Message)
    ensures |Fanout(Fanout(table, first), second)| == |table|
    ensures forall i :: 0 <= i < |table| ==>
              Fanout(Fanout(table, first), second)[i] ==
                if table[i].readyState == Open then ClientView(Open, table[i].outbox + [first, second])
                else table[i]
  {
    var twice := Fanout(Fanout(table, first), second);
    forall i | 0 <= i < |table|
      ensures twice[i] == if table[i].readyState == Open then ClientView(Open, table[i].outbox + [first, second])
                          else table[i]
    {
      assert table[i].outbox + [first] + [second] == table[i].outbox + [first, second];
    }
  }

  /** Every open client receives exactly one message per broadcast. */
  lemma {:induction false} FanoutCountsOne(table: seq<ClientView>, m: Message, i: nat)
    requires i < |table|
    ensures |Fanout(table, m)[i].outbox| == |table[i].outbox| + (if table[i].readyState == Open then 1 else 0)
    ensures Fanout(table, m)[i].outbox[..|table[i].outbox|] == table[i].outbox
  {
    var r := Fanout(table, m);
    if table[i].readyState == Open {
      assert r[i].outbox == table[i].outbox + [m];
    }
  }

  /** A table that differs from `table` exactly as one broadcast of `m` would is `Fanout(table, m)`. */
  lemma FanoutCharacterised(table: seq<ClientView>, after: seq<ClientView>, m: Message)
    requires |after| == |table|
    requires forall j :: 0 <= j < |table| ==> after[j].readyState == table[j].readyState
    requires forall j :: 0 <= j < |table| ==>
               after[j].outbox == if table[j].readyState == Open then table[j].outbox + [m] else table[j].outbox
    ensures after == Fanout(table, m)
  {
    var r := Fanout(table, m);
    assert forall j :: 0 <= j < |table| ==> after[j] == r[j];
  }

  /** `wss` and its client set, in the order the set iterates. */
  class Server {
    var clients: seq<Client>

    /** A set holds each client once. */
    ghost predicate Valid()
      reads this
    {
      forall i, j :: 0 <= i < j < |clients| ==> clients[i] != clients[j]
    }

    ghost function View(): (v: seq<ClientView>)
      reads this, clients
      ensures |v| == |clients|
    {
      seq(|clients|, i reads this, clients requires 0 <= i < |clients| =>
        ClientView(clients[i].readyState, clients[i].outbox))
    }

    constructor (clients: seq<Client>)
      requires forall i, j :: 0 <= i < j < |clients| ==> clients[i] != clients[j]
      ensures Valid() && this.clients == clients
    {
      this.clients := clients;
    }

    /** `broadcast(event, data)`. The client set itself is not changed. */
    method Broadcast(event: string, data: map<string, Value>)
      requires Valid()
      modifies clients
      ensures Valid()
      ensures View() == Fanout(old(View()), Message(event, data))
    {
      var message := Message(event, data);
      ghost var before := View();
      var i := 0;
      while i < |clients|
        invariant 0 <= i <= |clients|
        invariant forall j :: 0 <= j < |clients| ==> clients[j].readyState == before[j].readyState
        invariant forall j :: 0 <= j < i ==>
                    clients[j].outbox == if before[j].readyState == Open then before[j].outbox + [message] else before[j].outbox
        invariant forall j :: i <= j < |clients| ==> clients[j].outbox == before[j].outbox
      {
        var client := clients[i];
        if client.readyState == Open {
          client.outbox := client.outbox + [message];
        }
        i := i + 1;
      }
      FanoutCharacterised(before, View(), message);
    }
  }
}
