/** What a callback that closes its own connection does to the queue. */
module PipelineReplies {
  import opened Basics
  import opened Pipeline
  import opened PipelineLaws

  // ---------------------------------------------------------------- closing a connection that is up

  /** The action closes a connection that is up. Inside a callback that the flag marks, `reconnect` ends the
      process even without an address. */
  predicate ClosesNow(a: Action, addr: bool) {
    a == Close || (a.Send? && a.request.fails) || (a == Reopen && addr)
  }

  predicate Closes(acts: seq<Action>, addr: bool) {
    acts != [] && (ClosesNow(acts[0], addr) || Closes(acts[1..], addr))
  }

  /** The requests that a script sends. */
  function Sends(acts: seq<Action>): seq<Request> {
    if acts == [] then []
    else (if acts[0].Send? then [acts[0].request] else []) + Sends(acts[1..])
  }

  function EnqueuedAll(s: Snapshot, rs: seq<Request>): Snapshot {
    s.(callbacks := s.callbacks + rs, enqueued := s.enqueued + rs, sent := s.sent + multiset(rs), wire := s.wire + rs)
  }

  lemma EnqueuedTwice(s: Snapshot, a: seq<Request>, b: seq<Request>)
    ensures EnqueuedAll(EnqueuedAll(s, a), b) == EnqueuedAll(s, a + b)
  {
    assert s.callbacks + a + b == s.callbacks + (a + b) && s.enqueued + a + b == s.enqueued + (a + b);
    assert s.sent + multiset(a) + multiset(b) == s.sent + multiset(a + b) && s.wire + a + b == s.wire + (a + b);
  }

  lemma EnqueuedOne(s: Snapshot, r: Request)
    requires s.link == Up
    ensures Enqueued(s, r) == EnqueuedAll(s, [r])
  {
    assert multiset([r]) == multiset{r};
  }

  lemma EnqueuedNone(s: Snapshot)
    ensures EnqueuedAll(s, []) == s
  {
  }

  /** The effect of an action that leaves the connection up. */
  lemma ActOpen(s: Snapshot, a: Action)
    requires s.fate == Fine && s.link == Up && !ClosesNow(a, s.addr || s.flag)
    ensures Act(s, a) == EnqueuedAll(s, if a.Send? then [a.request] else [])
  {
    if a.Send? {
      EnqueuedOne(s, a.request);
    } else {
      EnqueuedNone(s);
    }
  }

  /** A script that leaves the connection up only queues what it sends. */
  lemma {:induction false} RunOpen(s: Snapshot, acts: seq<Action>)
    requires s.fate == Fine && s.link == Up && !Closes(acts, s.addr || s.flag)
    ensures Run(s, acts) == EnqueuedAll(s, Sends(acts))
    decreases |acts|
  {
    if acts == [] {
      EnqueuedNone(s);
    } else {
      var first := if acts[0].Send? then [acts[0].request] else [];
      ActOpen(s, acts[0]);
      RunOpen(EnqueuedAll(s, first), acts[1..]);
      EnqueuedTwice(s, first, Sends(acts[1..]));
    }
  }

  lemma ActAborts(s: Snapshot, a: Action)
    requires s.fate == Fine && s.link == Up && s.flag && ClosesNow(a, true)
    ensures Act(s, a).fate == Aborts
  {
    match a
    case Send(r) => LossAborts(Enqueued(s, r).(link := Down));
    case Close => LossAborts(s.(link := Down));
    case Reopen =>
      assert Act(s, a) == Reopened(s);
  }

  lemma LossAborts(s: Snapshot)
    requires s.link != Up && s.flag
    ensures Lost(s).fate == Aborts
  {
  }

  /** Inside a callback that the flag marks, closing a connection that is up ends the process. */
  lemma {:induction false} RunAborts(s: Snapshot, acts: seq<Action>)
    requires s.fate == Fine && s.link == Up && s.flag && Closes(acts, true)
    ensures Run(s, acts).fate == Aborts
    decreases |acts|
  {
    if ClosesNow(acts[0], true) {
      ActAborts(s, acts[0]);
      RunStops(s, acts);
    } else {
      ActOpen(s, acts[0]);
      RunAborts(Act(s, acts[0]), acts[1..]);
    }
  }

  /** Clearing a queue completes its front first. */
  lemma ClearsFront(s: Snapshot)
    requires s.fate == Fine && s.callbacks != []
    ensures s.calls + [Call(s.callbacks[0], None)] <= Cleared(s).calls
  {
    var u := Run(Clearing(s), s.callbacks[0].without);
    RunLeads(Clearing(s), s.callbacks[0].without);
    ClearedLeads(Unflagged(u));
  }

  lemma LostClearsFront(s: Snapshot)
    requires s.fate == Fine && s.link != Up && !s.flag && s.callbacks != []
    ensures s.calls + [Call(s.callbacks[0], None)] <= Lost(s).calls
  {
    ClearsFront(s);
  }

  /** The action that closes the connection completes the front of the queue, without a reply. */
  lemma ActCloses(s: Snapshot, a: Action)
    requires s.fate == Fine && s.link == Up && !s.flag && ClosesNow(a, s.addr) && s.callbacks != []
    ensures s.calls + [Call(s.callbacks[0], None)] <= Act(s, a).calls
    ensures Act(s, a).link != Up
  {
    match a
    case Send(r) => LostClearsFront(Enqueued(s, r).(link := Down));
    case Close => LostClearsFront(s.(link := Down));
    case Reopen => LostClearsFront(s.(link := Fresh));
  }

  lemma {:induction false} RunCloses(s: Snapshot, acts: seq<Action>)
    requires s.fate == Fine && s.link == Up && !s.flag && Closes(acts, s.addr) && s.callbacks != []
    ensures s.calls + [Call(s.callbacks[0], None)] <= Run(s, acts).calls
    ensures Run(s, acts).link != Up
    decreases |acts|
  {
    var t := Act(s, acts[0]);
    RunLeads(t, acts[1..]);
    if ClosesNow(acts[0], s.addr) {
      ActCloses(s, acts[0]);
    } else {
      ActOpen(s, acts[0]);
      RunCloses(t, acts[1..]);
    }
  }

  lemma ActLosesLink(s: Snapshot, a: Action)
    requires s.fate == Fine && s.link == Up && !s.flag && ClosesNow(a, s.addr)
    ensures Act(s, a).link != Up
  {
    match a
    case Send(r) =>
      assert Act(s, a) == Sent(s, r);
    case Close =>
      assert Act(s, a) == Closed(s);
    case Reopen =>
      assert Act(s, a) == Reopened(s);
  }

  lemma {:induction false} RunLosesLink(s: Snapshot, acts: seq<Action>)
    requires s.fate == Fine && s.link == Up && !s.flag && Closes(acts, s.addr)
    ensures Run(s, acts).link != Up
    decreases |acts|
  {
    if ClosesNow(acts[0], s.addr) {
      ActLosesLink(s, acts[0]);
    } else {
      ActOpen(s, acts[0]);
      RunLosesLink(Act(s, acts[0]), acts[1..]);
    }
  }

  /** A connection is still up after a script exactly when the script does not close it. */
  lemma StillUpIff(s: Snapshot, acts: seq<Action>)
    requires s.fate == Fine && s.link == Up && !s.flag
    ensures Run(s, acts).link == Up <==> !Closes(acts, s.addr)
    ensures !Closes(acts, s.addr) ==> Run(s, acts) == EnqueuedAll(s, Sends(acts))
  {
    if Closes(acts, s.addr) {
      RunLosesLink(s, acts);
    } else {
      RunOpen(s, acts);
    }
  }

  // ---------------------------------------------------------------- the greeting of a new connection

  /** What is written first on a new connection, in this order. */
  function Greeting(auth: Option<Request>, name: Request, again: seq<Request>): seq<Request> {
    (if auth.Some? then [auth.value] else []) + [name] + again
  }

  predicate Writable(rs: seq<Request>) {
    forall k :: 0 <= k < |rs| ==> !rs[k].fails
  }

  lemma {:induction false} SendingIs(rs: seq<Request>, addr: bool)
    requires Writable(rs)
    ensures Sends(Sending(rs)) == rs && !Closes(Sending(rs), addr)
    decreases |rs|
  {
    if rs != [] {
      assert Sending(rs)[1..] == Sending(rs[1..]);
      SendingIs(rs[1..], addr);
      assert [rs[0]] + rs[1..] == rs;
    }
  }

  lemma SendingOne(r: Request)
    ensures Sending([r]) == [Send(r)]
  {
  }

  lemma RunSending(s: Snapshot, rs: seq<Request>)
    requires s.fate == Fine && s.link == Up && Writable(rs)
    ensures Run(s, Sending(rs)) == EnqueuedAll(s, rs)
  {
    SendingIs(rs, s.addr || s.flag);
    RunOpen(s, Sending(rs));
  }

  function Password(auth: Option<Request>): seq<Request> {
    if auth.Some? then [auth.value] else []
  }

  lemma PasswordWritten(s: Snapshot, auth: Option<Request>)
    requires s.fate == Fine && s.link == Up && Writable(Password(auth))
    ensures Authenticated(s, auth) == EnqueuedAll(if auth.Some? then s else Settled(s), Password(auth))
  {
    if auth.Some? {
      SendingOne(auth.value);
      RunSending(s, [auth.value]);
    } else {
      EnqueuedNone(Settled(s));
    }
  }

  lemma RunSendings(s: Snapshot, t: Snapshot, first: seq<Request>, name: Request, again: seq<Request>)
    requires s.fate == Fine && s.link == Up && !name.fails && Writable(again) && t == EnqueuedAll(s, first)
    ensures Run(Run(t, [Send(name)]), Sending(again)) == EnqueuedAll(s, first + [name] + again)
  {
    SendingOne(name);
    RunSending(t, [name]);
    EnqueuedTwice(s, first, [name]);
    RunSending(EnqueuedAll(s, first + [name]), again);
    EnqueuedTwice(s, first + [name], again);
  }

  lemma GreetedIs(s: Snapshot, up: Snapshot, auth: Option<Request>, name: Request, again: seq<Request>)
    requires s.fate == Fine && Writable(Greeting(auth, name, again)) && up == s.(link := Up, wire := [])
    ensures Greeted(s, auth, name, again)
         == EnqueuedAll(if auth.Some? then up else Settled(up), Greeting(auth, name, again))
  {
    var rs, first := Greeting(auth, name, again), Password(auth);
    assert rs == first + [name] + again;
    assert forall k :: 0 <= k < |first| ==> first[k] == rs[k];
    assert rs[|first|] == name;
    assert forall k :: 0 <= k < |again| ==> again[k] == rs[|first| + 1 + k];
    PasswordWritten(up, auth);
    RunSendings(if auth.Some? then up else Settled(up), Authenticated(up, auth), first, name, again);
  }

  /** From `s` to `t` a new connection has come up and all writes have succeeded: the password if there is one, or
      else the promise is completed; then the name and the subscriptions. */
  ghost predicate Greets(s: Snapshot, t: Snapshot, auth: Option<Request>, rs: seq<Request>) {
    && t.fate == Fine && t.link == Up && t.wire == rs && t.callbacks == s.callbacks + rs && t.calls == s.calls
    && (auth.Some? ==> t.promise == s.promise && t.settled == s.settled)
    && (auth == None ==> t.promise == None)
    && (auth == None && s.promise.Some? ==> t.settled == s.settled + [s.promise.value])
  }

  lemma GreetingWritten(s: Snapshot, auth: Option<Request>, name: Request, again: seq<Request>)
    requires s.fate == Fine && Writable(Greeting(auth, name, again))
    ensures Greets(s, Greeted(s, auth, name, again), auth, Greeting(auth, name, again))
  {
    GreetedIs(s, s.(link := Up, wire := []), auth, name, again);
  }

  // ---------------------------------------------------------------- replies

  /** The state while the callback of the front runs, with the front still in the queue. */
  function Running(s: Snapshot, resp: Packet): Snapshot
    requires s.callbacks != []
  {
    Fired(s, Call(s.callbacks[0], Some(resp)))
  }

  /** The same with the front taken out. */
  function Replied(s: Snapshot, resp: Packet): Snapshot
    requires s.callbacks != []
  {
    Fired(Popped(s, Some(resp)), Call(s.callbacks[0], Some(resp)))
  }

  ghost predicate FiresAgain(s: Snapshot, t: Snapshot)
    requires s.callbacks != []
  {
    exists k :: |s.calls| < k < |t.calls| && t.calls[k].request == s.callbacks[0]
  }

  /** A subscriber's callback fires a second time exactly when it closes the connection, which is up, while it
      runs. Then the second time follows at once. */
  lemma FiresTwiceIff(s: Snapshot, resp: Packet)
    requires s.fate == Fine && s.link == Up && !s.flag && s.callbacks != []
    ensures var t := Run(Running(s, resp), s.callbacks[0].script);
      && s.calls + [Call(s.callbacks[0], Some(resp))] <= t.calls
      && (FiresAgain(s, t) <==> Closes(s.callbacks[0].script, s.addr))
      && (FiresAgain(s, t) ==> t.calls[|s.calls| + 1] == Call(s.callbacks[0], None))
  {
    var u, script := Running(s, resp), s.callbacks[0].script;
    RunLeads(u, script);
    if Closes(script, s.addr) {
      RunCloses(u, script);
      assert Run(u, script).calls[|s.calls| + 1] == Call(s.callbacks[0], None);
    } else {
      RunOpen(u, script);
    }
  }

  lemma FiredPopped(s: Snapshot, resp: Packet)
    requires s.callbacks != []
    ensures Popped(Running(s, resp), Some(resp)) == Replied(s, resp)
  {
  }

  lemma EnqueuedPopped(s: Snapshot, rs: seq<Request>, reply: Option<Packet>)
    requires s.callbacks != []
    ensures Popped(EnqueuedAll(s, rs), reply) == EnqueuedAll(Popped(s, reply), rs)
  {
    assert (s.callbacks + rs)[1..] == s.callbacks[1..] + rs;
  }

  lemma PoppedLater(s: Snapshot, resp: Packet, rs: seq<Request>)
    requires s.fate == Fine && s.callbacks != []
    ensures PoppedAfter(EnqueuedAll(Running(s, resp), rs), resp) == EnqueuedAll(Replied(s, resp), rs)
  {
    FiredPopped(s, resp);
    EnqueuedPopped(Running(s, resp), rs, Some(resp));
  }

  /** If it does not, popping the front after its callback comes to the same as popping it before. */
  lemma PopCommutes(s: Snapshot, resp: Packet)
    requires s.fate == Fine && s.link == Up && !s.flag && s.callbacks != [] && !Closes(s.callbacks[0].script, s.addr)
    ensures AfterOwnReply(s, resp) == Run(Replied(s, resp), s.callbacks[0].script)
    ensures AfterOwnReply(s, resp) == EnqueuedAll(Replied(s, resp), Sends(s.callbacks[0].script))
  {
    var script := s.callbacks[0].script;
    RunOpen(Running(s, resp), script);
    RunOpen(Replied(s, resp), script);
    PoppedLater(s, resp, Sends(script));
  }

  /** In the base client the flag is set while the callback runs: it ends the process exactly when it closes
      the connection. */
  lemma EndsIff(s: Snapshot, resp: Packet)
    requires s.fate == Fine && s.link == Up && !s.flag
    ensures s.callbacks == [] || Closes(s.callbacks[0].script, true) ==> AfterReply(s, resp).fate == Aborts
    ensures s.callbacks != [] && !Closes(s.callbacks[0].script, true) ==> AfterReply(s, resp).fate == Fine
    ensures AfterReply(s, resp).fate == Fine ==>
      AfterReply(s, resp) == EnqueuedAll(Replied(s, resp), Sends(s.callbacks[0].script))
  {
    if s.callbacks != [] {
      var u, script := Flagged(Replied(s, resp)), s.callbacks[0].script;
      assert u == Fired(Flagged(Popped(s, Some(resp))), Call(s.callbacks[0], Some(resp)));
      if Closes(script, true) {
        RunAborts(u, script);
      } else {
        RunOpen(u, script);
      }
    }
  }

  // ---------------------------------------------------------------- what a lost front leaves behind

  /** The first action of a script that closes the connection. */
  function FirstClosing(acts: seq<Action>, addr: bool): Action
    requires Closes(acts, addr)
  {
    if ClosesNow(acts[0], addr) then acts[0] else FirstClosing(acts[1..], addr)
  }

  /** While the queue is cleared for a new client, whatever a callback does to that client is an error. */
  lemma {:induction false} FreshStays(s: Snapshot)
    requires s.link == Fresh && Cleared(s).fate == Fine
    ensures Cleared(s).link == Fresh
    decreases |s.callbacks|
  {
    if s.callbacks != [] && s.fate == Fine {
      var t, script := Clearing(s), s.callbacks[0].without;
      if script == [] {
        FreshStays(Unflagged(t));
      } else {
        FreshEnds(t, script[0]);
        RunStops(t, script);
      }
    }
  }

  lemma FreshEnds(s: Snapshot, a: Action)
    requires s.fate == Fine && s.link == Fresh && s.flag
    ensures Act(s, a).fate != Fine
  {
  }

  lemma CloseStaysAway(s: Snapshot)
    requires s.fate == Fine && s.link == Up && !s.flag && Closed(s).fate == Fine
    ensures Closed(s).link == Gone && Closed(s).callbacks == []
  {
  }

  lemma ReopenStaysAway(s: Snapshot)
    requires s.fate == Fine && s.link == Up && !s.flag && s.addr && Reopened(s).fate == Fine
    ensures Reopened(s).link == Connecting && Reopened(s).callbacks == []
  {
    FreshStays(s.(link := Fresh));
  }

  /** After `disconnect` or `reconnect` nothing can be queued any more. */
  lemma {:induction false} LeavesNothing(s: Snapshot, acts: seq<Action>)
    requires s.fate == Fine && s.link == Up && Closes(acts, s.addr) && !s.flag
    requires !FirstClosing(acts, s.addr).Send? && Run(s, acts).fate == Fine
    ensures Run(s, acts).callbacks == []
    decreases |acts|
  {
    var t := Act(s, acts[0]);
    if t.fate != Fine {
      RunStops(s, acts);
    } else if ClosesNow(acts[0], s.addr) {
      if acts[0] == Reopen {
        ReopenStaysAway(s);
      } else {
        CloseStaysAway(s);
      }
      RunRefuses(t, acts[1..]);
    } else {
      ActOpen(s, acts[0]);
      LeavesNothing(t, acts[1..]);
    }
  }

  /** When a subscriber's callback has disconnected or reconnected, the pop behind it finds an empty queue. */
  lemma PopFindsNothing(s: Snapshot, resp: Packet)
    requires s.fate == Fine && s.link == Up && !s.flag && s.callbacks != []
    requires Closes(s.callbacks[0].script, s.addr) && !FirstClosing(s.callbacks[0].script, s.addr).Send?
    ensures AfterOwnReply(s, resp).fate != Fine
  {
    var u, script := Running(s, resp), s.callbacks[0].script;
    if Run(u, script).fate == Fine {
      LeavesNothing(u, script);
    }
  }

  lemma SentClears(s: Snapshot, r: Request)
    requires s.fate == Fine && s.link == Up && !s.flag && r.fails && Sent(s, r).fate == Fine
    ensures Sent(s, r).callbacks == [] && Sent(s, r).link != Up
  {
  }

  /** Behind an action that closes the connection, the queue holds nothing but what the script sends later. */
  lemma ActClears(s: Snapshot, a: Action)
    requires s.fate == Fine && s.link == Up && !s.flag && ClosesNow(a, s.addr) && Act(s, a).fate == Fine
    ensures Act(s, a).callbacks == [] && Act(s, a).link != Up
  {
    match a
    case Send(r) => SentClears(s, r);
    case Close => CloseStaysAway(s);
    case Reopen => ReopenStaysAway(s);
  }

  lemma SentDown(s: Snapshot, r: Request)
    requires s.link == Down
    ensures Sent(s, r) == Enqueued(s, r)
  {
  }

  lemma SentQueue(s: Snapshot, r: Request)
    requires s.fate == Fine && s.link != Up && s.link != Fresh && Sent(s, r).fate == Fine
    ensures Sent(s, r).link != Up
    ensures Sent(s, r).callbacks == s.callbacks || Sent(s, r).callbacks == s.callbacks + [r]
  {
    if s.link == Down {
      SentDown(s, r);
    } else {
      SentRefuses(s, r);
    }
  }

  lemma SentFresh(s: Snapshot, r: Request)
    requires s.link == Fresh
    ensures Sent(s, r).fate == Undefined
  {
  }

  lemma ActQueue(s: Snapshot, a: Action)
    requires s.fate == Fine && s.link != Up && Act(s, a).fate == Fine
    ensures Act(s, a).link != Up
    ensures forall r :: r in Act(s, a).callbacks ==> r in s.callbacks || (a.Send? && r == a.request)
  {
    match a
    case Send(r) =>
      if s.link == Fresh {
        SentFresh(s, r);
      } else {
        SentQueue(s, r);
      }
    case Close =>
      assert Act(s, a) == Closed(s);
    case Reopen =>
      assert Act(s, a) == Reopened(s);
  }

  lemma {:induction false} RunQueue(s: Snapshot, acts: seq<Action>)
    requires s.link != Up && Run(s, acts).fate == Fine
    ensures forall r :: r in Run(s, acts).callbacks ==> r in s.callbacks || r in Sends(acts)
    decreases |acts|
  {
    if acts != [] && s.fate == Fine {
      if Act(s, acts[0]).fate == Fine {
        ActQueue(s, acts[0]);
        RunQueue(Act(s, acts[0]), acts[1..]);
      } else {
        RunStops(s, acts);
      }
    }
  }

  lemma {:induction false} ClosedQueue(s: Snapshot, acts: seq<Action>)
    requires s.fate == Fine && s.link == Up && !s.flag && Closes(acts, s.addr) && Run(s, acts).fate == Fine
    ensures forall r :: r in Run(s, acts).callbacks ==> r in Sends(acts)
    decreases |acts|
  {
    var t := Act(s, acts[0]);
    if t.fate != Fine {
      RunStops(s, acts);
    } else if ClosesNow(acts[0], s.addr) {
      ActClears(s, acts[0]);
      RunQueue(t, acts[1..]);
    } else {
      ActOpen(s, acts[0]);
      ClosedQueue(t, acts[1..]);
    }
  }

  /** A callback never sends its own request. */
  function Depth(acts: seq<Action>): nat {
    if acts == [] then 0 else ActDepth(acts[0]) + Depth(acts[1..])
  }

  function ActDepth(a: Action): nat {
    match a
    case Send(r) => 1 + Depth(r.script)
    case Close => 0
    case Reopen => 0
  }

  lemma {:induction false} SendsDeeper(acts: seq<Action>, r: Request)
    requires r in Sends(acts)
    ensures Depth(r.script) < Depth(acts)
  {
    if !(acts[0].Send? && acts[0].request == r) {
      SendsDeeper(acts[1..], r);
    }
  }

  lemma OneMoreCall(calls: seq<Call>, q: seq<Request>, sent: multiset<Request>, call: Call)
    requires Balanced(calls, q, sent, multiset{})
    ensures Balanced(calls + [call], q, sent, multiset{call.request})
  {
    RequestsOneMore(calls, call);
    assert sent + multiset{} == sent;
    assert multiset(Requests(calls) + [call.request]) == multiset(Requests(calls)) + multiset{call.request};
    assert multiset(Requests(calls)) + multiset(q) + multiset{call.request} == sent + multiset{call.request};
  }

  /** The callback of `again` has fired once too often, and `lost` once too rarely without waiting any more. */
  ghost predicate Mixed(s: Snapshot, again: Request, lost: Request) {
    multiset(Requests(s.calls)) + multiset(s.callbacks) + multiset{lost} == s.sent + multiset{again}
  }

  /** When a write of it has failed and the pop finds a request, it is one that was sent later, and lost. */
  lemma PopLosesAnother(s: Snapshot, resp: Packet) returns (lost: Request)
    requires s.fate == Fine && s.link == Up && !s.flag && s.callbacks != [] && Closes(s.callbacks[0].script, s.addr)
    requires Balanced(s.calls, s.callbacks, s.sent, multiset{}) && AfterOwnReply(s, resp).fate == Fine
    ensures lost in Sends(s.callbacks[0].script) && lost != s.callbacks[0]
    ensures Mixed(AfterOwnReply(s, resp), s.callbacks[0], lost)
  {
    var front := s.callbacks[0];
    var u := Running(s, resp);
    var t := Run(u, front.script);
    OneMoreCall(s.calls, s.callbacks, s.sent, Call(front, Some(resp)));
    RunLeads(u, front.script);
    assert Balanced(t.calls, t.callbacks, t.sent, multiset{front});
    ClosedQueue(u, front.script);
    lost := t.callbacks[0];
    SendsDeeper(front.script, lost);
    assert t.callbacks == [lost] + t.callbacks[1..];
  }

  lemma MixedIsOff(s: Snapshot, again: Request, lost: Request)
    requires Mixed(s, again, lost) && again != lost
    ensures !Balanced(s.calls, s.callbacks, s.sent, multiset{})
  {
    var m := multiset(Requests(s.calls)) + multiset(s.callbacks);
    assert (m + multiset{lost})[lost] == (s.sent + multiset{again})[lost];
    assert (s.sent + multiset{})[lost] == s.sent[lost];
  }

  /** A reply to a subscriber leaves every request completed once or waiting exactly when the callback of the front
      does not close the connection. */
  lemma WholeIff(s: Snapshot, resp: Packet)
    requires s.fate == Fine && s.link == Up && !s.flag && s.callbacks != []
    requires Balanced(s.calls, s.callbacks, s.sent, multiset{})
    ensures var t := AfterOwnReply(s, resp);
      t.fate == Fine && Balanced(t.calls, t.callbacks, t.sent, multiset{}) <==> !Closes(s.callbacks[0].script, s.addr)
  {
    var t := AfterOwnReply(s, resp);
    if Closes(s.callbacks[0].script, s.addr) {
      if t.fate == Fine {
        var lost := PopLosesAnother(s, resp);
        MixedIsOff(t, s.callbacks[0], lost);
      }
    } else {
      PopCommutes(s, resp);
      BalancedPop(s.calls, s.callbacks, s.sent, multiset{}, Some(resp));
      RunLeads(Replied(s, resp), s.callbacks[0].script);
      assert Balanced(t.calls, t.callbacks, t.sent, multiset{});
    }
  }
}
