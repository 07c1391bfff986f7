/** Runs in which a callback fires twice, a request is lost, a reply goes to another request than its own, and a
    promise is completed twice. */
module PipelineRuns {
  import opened Basics
  import opened Pipeline
  import opened PipelineLaws
  import opened PipelineReplies
  import opened PipelineInvariant
  import opened PipelineClient

  /** A request whose callback does nothing. */
  ghost predicate Plain(r: Request) {
    !r.settles && !r.fails && r.script == [] && r.without == []
  }

  /** The connection is up, these requests wait, and these calls were made. */
  ghost predicate Waiting(s: Snapshot, queue: seq<Request>, calls: seq<Call>) {
    s.fate == Fine && s.link == Up && !s.flag && s.addr && s.callbacks == queue && s.calls == calls
  }

  // ---------------------------------------------------------------- steps

  lemma PlainRun(s: Snapshot, r: Request)
    requires s.fate == Fine && s.link == Up && !r.fails
    ensures Run(s, [Send(r)]) == Enqueued(s, r) == Sent(s, r)
  {
    OneActIsRun(s, Send(r));
    assert Act(s, Send(r)) == Sent(s, r);
  }

  lemma PlainGreeted(s: Snapshot, name: Request)
    requires s.fate == Fine && !name.fails
    ensures Greeted(s, None, name, []) == Enqueued(Settled(s.(link := Up, wire := [])), name)
  {
    var t := Settled(s.(link := Up, wire := []));
    assert Authenticated(s.(link := Up, wire := []), None) == t;
    PlainRun(t, name);
    assert Sending([]) == [];
  }

  lemma PlainReply(s: Snapshot, resp: Packet)
    requires s.fate == Fine && s.link == Up && !s.flag && s.callbacks != [] && Plain(s.callbacks[0])
    ensures AfterOwnReply(s, resp) == Replied(s, resp) == AfterReply(s, resp)
  {
    PopCommutes(s, resp);
    EndsIff(s, resp);
    EnqueuedNone(Replied(s, resp));
  }

  lemma RunNothing(s: Snapshot)
    ensures Run(s, []) == s
  {
  }

  lemma ClearedNone(s: Snapshot)
    requires s.callbacks == []
    ensures Cleared(s) == s
  {
  }

  /** Clearing the front, whose callback does nothing. */
  lemma PlainClearing(s: Snapshot)
    requires s.fate == Fine && s.callbacks != [] && !s.callbacks[0].settles && s.callbacks[0].without == []
    ensures Cleared(s) == Cleared(Popped(s, None).(flag := false, calls := s.calls + [Call(s.callbacks[0], None)]))
  {
    RunNothing(Clearing(s));
  }

  lemma PlainCleared(s: Snapshot, r: Request)
    requires s.fate == Fine && s.callbacks == [r] && !r.settles && r.without == []
    ensures Cleared(s) == Popped(s, None).(flag := false, calls := s.calls + [Call(r, None)])
  {
    PlainClearing(s);
    ClearedNone(Popped(s, None).(flag := false, calls := s.calls + [Call(r, None)]));
  }

  /** A connection is lost while `r` and `a` wait. */
  lemma PlainLost(s: Snapshot, r: Request, a: Request)
    requires s.fate == Fine && s.link != Up && !s.flag && s.callbacks == [r, a]
    requires !r.settles && r.without == [] && !a.settles && a.without == []
    ensures Lost(s).fate == Fine && Lost(s).callbacks == [] && Lost(s).link == s.link && !Lost(s).flag
    ensures Lost(s).calls == s.calls + [Call(r, None), Call(a, None)] && Lost(s).sent == s.sent
  {
    var t := Popped(s, None).(flag := false, calls := s.calls + [Call(r, None)]);
    assert t.callbacks == [a];
    PlainClearing(s);
    PlainCleared(t, a);
    assert s.calls + [Call(r, None)] + [Call(a, None)] == s.calls + [Call(r, None), Call(a, None)];
  }

  // ---------------------------------------------------------------- a callback that disconnects

  lemma PlainLostOne(s: Snapshot, r: Request)
    requires s.fate == Fine && s.link != Up && !s.flag && s.callbacks == [r] && !r.settles && r.without == []
    ensures Lost(s).fate == Fine && Lost(s).callbacks == [] && Lost(s).calls == s.calls + [Call(r, None)]
  {
    PlainCleared(s, r);
  }

  lemma Disconnecting(s: Snapshot, r: Request)
    requires Waiting(s, [r], s.calls) && !r.settles && r.without == []
    ensures Run(s, [Close]).fate == Fine && Run(s, [Close]).callbacks == []
    ensures Run(s, [Close]).calls == s.calls + [Call(r, None)]
  {
    PlainLostOne(s.(link := Down), r);
    OneActIsRun(s, Close);
    assert Act(s, Close) == Closed(s);
  }

  lemma DisconnectTwice(s: Snapshot, r: Request, resp: Packet)
    requires Waiting(s, [r], s.calls) && !r.settles && r.script == [Close] && r.without == []
    ensures AfterOwnReply(s, resp).fate == Undefined
    ensures AfterOwnReply(s, resp).calls == s.calls + [Call(r, Some(resp)), Call(r, None)]
  {
    var u := Running(s, resp);
    Disconnecting(u, r);
    assert u.calls + [Call(r, None)] == s.calls + [Call(r, Some(resp)), Call(r, None)];
  }

  // ---------------------------------------------------------------- a callback whose write fails

  lemma RunTwo(s: Snapshot, a: Action, b: Action)
    requires s.fate == Fine && Act(s, a).fate == Fine
    ensures Run(s, [a, b]) == Act(Act(s, a), b)
  {
    assert [a, b][1..] == [b];
    OneActIsRun(Act(s, a), b);
  }

  lemma WriteFails(s: Snapshot, r: Request, a: Request)
    requires Waiting(s, [r], s.calls) && !r.settles && r.without == [] && a.fails && !a.settles && a.without == []
    ensures var t := Act(s, Send(a));
      && t.fate == Fine && t.callbacks == [] && t.link == Down && !t.flag && t.sent == s.sent + multiset{a}
      && t.calls == s.calls + [Call(r, None), Call(a, None)]
  {
    PlainLost(Enqueued(s, a).(link := Down), r, a);
    assert Act(s, Send(a)) == Sent(s, a);
  }

  lemma WriteLoses(s: Snapshot, r: Request, a: Request, b: Request, resp: Packet)
    requires Waiting(s, [r], s.calls) && !r.settles && r.script == [Send(a), Send(b)] && r.without == []
    requires a.fails && !a.settles && a.without == []
    ensures var t := AfterOwnReply(s, resp);
      && t.fate == Fine && t.callbacks == [] && b in t.sent
      && t.calls == s.calls + [Call(r, Some(resp)), Call(r, None), Call(a, None)]
  {
    var u := Running(s, resp);
    var v := Act(u, Send(a));
    WriteFails(u, r, a);
    RunTwo(u, Send(a), Send(b));
    SentDown(v, b);
    assert Act(v, Send(b)) == Enqueued(v, b);
    assert v.calls == s.calls + [Call(r, Some(resp)), Call(r, None), Call(a, None)];
  }

  // ---------------------------------------------------------------- runs

  /** A client without a password, connected. */
  method ConnectedClient(subscriber: bool, name: Request) returns (client: Client)
    requires Plain(name)
    ensures fresh(client) && client.Valid() && client.subscriber == subscriber && Waiting(client.Now(), [name], [])
    ensures client.settled == [0] && client.promise == None && client.made == 1
  {
    client := new Client(subscriber);
    client.SetServerAddr(true);
    var ok := client.Connect();
    client.ConnectInLoop();
    PlainGreeted(client.Now(), name);
    client.OnConnected(None, name, []);
    assert [] + [0] == [0];
  }

  /** The same after the name has been confirmed and `r` sent. */
  method WaitingClient(subscriber: bool, name: Request, r: Request, resp: Packet) returns (client: Client)
    requires Plain(name) && !r.fails && !resp.push
    ensures fresh(client) && client.Valid() && client.subscriber == subscriber
    ensures Waiting(client.Now(), [r], [Call(name, Some(resp))])
  {
    client := ConnectedClient(subscriber, name);
    PlainReply(client.Now(), resp);
    if subscriber {
      var whole := client.OnRecvSubscribed(resp);
    } else {
      client.OnRecvResponse(resp);
    }
    PlainRun(client.Now(), r);
    client.SendCommand(r);
  }

  /** A callback that disconnects fires twice in a subscriber, which then pops an empty queue. */
  method SubscriberDisconnects(name: Request, r: Request, resp: Packet) returns (client: Client)
    requires Plain(name) && !resp.push && !r.settles && !r.fails && r.script == [Close] && r.without == []
    ensures client.fate == Undefined
    ensures client.calls == [Call(name, Some(resp)), Call(r, Some(resp)), Call(r, None)]
  {
    client := WaitingClient(true, name, r, resp);
    DisconnectTwice(client.Now(), r, resp);
    var whole := client.OnRecvSubscribed(resp);
  }

  /** It ends the process in a base client. */
  method BaseDisconnects(name: Request, r: Request, resp: Packet) returns (client: Client)
    requires Plain(name) && !resp.push && !r.settles && !r.fails && r.script == [Close] && r.without == []
    ensures client.fate == Aborts
  {
    client := WaitingClient(false, name, r, resp);
    client.OnRecvResponse(resp);
  }

  /** A callback of a subscriber sends `a`, whose write fails, and then `b`: it fires twice, and that of `b` never
      fires. */
  method SubscriberLoses(name: Request, r: Request, a: Request, b: Request, resp: Packet) returns (client: Client)
    requires Plain(name) && !resp.push && !r.settles && !r.fails && r.script == [Send(a), Send(b)] && r.without == []
    requires a.fails && !a.settles && a.without == []
    ensures client.fate == Fine && client.callbacks == [] && b in client.sent
    ensures client.calls == [Call(name, Some(resp)), Call(r, Some(resp)), Call(r, None), Call(a, None)]
  {
    client := WaitingClient(true, name, r, resp);
    WriteLoses(client.Now(), r, a, b, resp);
    var whole := client.OnRecvSubscribed(resp);
  }

  /** A client whose connection was lost. */
  method DroppedClient(name: Request) returns (client: Client)
    requires Plain(name)
    ensures fresh(client) && client.Valid() && !client.subscriber && client.link == Down && client.addrSet
    ensures client.callbacks == [] && client.calls == [Call(name, None)] && client.fate == Fine
  {
    client := ConnectedClient(false, name);
    PlainCleared(client.Now().(link := Down), name);
    client.OnDisconnected();
  }

  /** Sent meanwhile, `r` waits. */
  method SendUnwritten(client: Client, r: Request)
    requires client.Valid() && client.link == Down
    modifies client
    ensures client.Valid() && client.Now() == Enqueued(old(client.Now()), r)
  {
    SentDown(client.Now(), r);
    client.SendCommand(r);
  }

  /** The next connection comes up. */
  method ConnectedAgain(client: Client, name: Request)
    requires client.Valid() && client.link == Down && client.addrSet && !client.subscriber && Plain(name)
    modifies client
    ensures client.Valid() && client.wire == [name]
    ensures Waiting(client.Now(), old(client.callbacks) + [name], old(client.calls))
  {
    PlainGreeted(client.Now(), name);
    client.OnConnected(None, name, []);
  }

  /** A request sent between a lost connection and the next one is never written, and the reply to the next request
      goes to it. */
  method ReplyGoesAstray(name: Request, r: Request, resp: Packet) returns (client: Client)
    requires Plain(name) && Plain(r) && r != name
    ensures client.fate == Fine && client.wire == [name] && client.callbacks == [name]
    ensures client.calls == [Call(name, None), Call(r, Some(resp))]
  {
    client := DroppedClient(name);
    SendUnwritten(client, r);
    ConnectedAgain(client, name);
    PlainReply(client.Now(), resp);
    client.OnRecvResponse(resp);
  }

  /** A `connect` without an address completes its promise while an older connection is up, and the end of that
      connection completes it again. */
  method FailedConnectSettlesTwice(name: Request) returns (client: Client)
    requires Plain(name)
    ensures client.Valid() && client.settled == [0, 1, 1]
  {
    client := ConnectedClient(true, name);
    client.SetServerAddr(false);
    var ok := client.Connect();
    PlainCleared(client.Now().(link := Down), name);
    client.OnDisconnected();
    assert [0] + [1] + [1] == [0, 1, 1];
  }
}
