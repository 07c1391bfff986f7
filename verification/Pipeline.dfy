/** The request pipeline of `TairBaseClient` and `TairSubscribeClient`: what requests, callbacks and lost
    connections do to the queue, as functions on its state.

    A callback runs a script, one when there is a reply and one when there is none: it sends, disconnects or
    reconnects, and a write of what it sends may fail. How often callbacks fire is proved, not built in. */
module Pipeline {
  import opened Basics

  /** A request; whether its callback completes the pending promise of `connect`; whether writing it to a
      connection that is up fails, which closes the connection; what its callback does with a reply, and without. */
  datatype Request = Request(id: nat, settles: bool, fails: bool, script: seq<Action>, without: seq<Action>)

  /** What the user may do in the loop: send, `disconnect`, `reconnect`. */
  datatype Action = Send(request: Request) | Close | Reopen

  /** A decoded reply. A subscriber's push message is handed to a handler, which does `acts`. */
  datatype Packet = Packet(id: nat, push: bool, acts: seq<Action>)

  /** One callback fired; without a reply, its second argument is null. */
  datatype Call = Call(request: Request, reply: Option<Packet>)

  /** What the callback does. */
  function Script(call: Call): seq<Action> {
    if call.reply.Some? then call.request.script else call.request.without
  }

  /** What the codec makes of the bytes received. */
  datatype Frame = Success(packet: Packet) | Again | Error

  /** `tcp_client_`: null; made, but not told to connect; without a connection yet; with one that is up; with
      one that is closed. */
  datatype Link = Gone | Fresh | Connecting | Up | Down

  /** The process goes on, ends by a failed assertion, or does something undefined: it dereferences null or
      pops an empty queue. */
  datatype Fate = Fine | Aborts | Undefined

  /** The queue, every request ever put there and the completion of those taken out; every callback fired,
      every request ever sent, and those written to the connection that came up last; the pending promise and
      the promises completed; the client, the flag of a running callback, whether there is a server address,
      and whether the process still runs. */
  datatype Snapshot = Snapshot(callbacks: seq<Request>, enqueued: seq<Request>, done: seq<Call>, calls: seq<Call>,
                               sent: multiset<Request>, wire: seq<Request>, promise: Option<nat>, settled: seq<nat>,
                               link: Link, flag: bool, addr: bool, fate: Fate)

  // ---------------------------------------------------------------- sizes

  function Size(acts: seq<Action>): nat {
    if acts == [] then 0 else ActSize(acts[0]) + Size(acts[1..])
  }

  function ActSize(a: Action): nat {
    match a
    case Send(r) => 2 + Size(r.without)
    case Close => 1
    case Reopen => 1
  }

  /** What is still to be done for the requests of a queue. */
  function Load(q: seq<Request>): nat {
    if q == [] then 0 else 1 + Size(q[0].without) + Load(q[1..])
  }

  lemma {:induction false} LoadOneMore(q: seq<Request>, r: Request)
    ensures Load(q + [r]) == Load(q) + 1 + Size(r.without)
  {
    if q == [] {
      assert q + [r] == [r] && [r][1..] == [];
    } else {
      assert (q + [r])[1..] == q[1..] + [r];
      LoadOneMore(q[1..], r);
    }
  }

  // ---------------------------------------------------------------- steps

  /** The pending promise is completed. */
  function Settled(s: Snapshot): Snapshot {
    if s.promise.Some? then s.(promise := None, settled := s.settled + [s.promise.value]) else s
  }

  /** A callback starts: it may complete the pending promise. */
  function Fired(s: Snapshot, call: Call): Snapshot {
    var t := s.(calls := s.calls + [call]);
    if call.request.settles then Settled(t) else t
  }

  /** A request is put into the queue, and written if the connection is up. */
  function Enqueued(s: Snapshot, r: Request): Snapshot {
    s.(callbacks := s.callbacks + [r], enqueued := s.enqueued + [r], sent := s.sent + multiset{r},
       wire := s.wire + if s.link == Up then [r] else [])
  }

  /** The front of the queue is taken out, to be completed with `reply`. */
  function Popped(s: Snapshot, reply: Option<Packet>): Snapshot
    requires s.callbacks != []
  {
    s.(callbacks := s.callbacks[1..], done := s.done + [Call(s.callbacks[0], reply)])
  }

  /** The flag of a running callback is set before the callback and taken back behind it. */
  function Flagged(s: Snapshot): Snapshot { s.(flag := true) }

  function Unflagged(s: Snapshot): Snapshot {
    if s.fate == Fine then s.(flag := false) else s
  }

  /** The callback of a request that is sent without a client starts at once. */
  function Refusing(s: Snapshot, r: Request): Snapshot {
    Fired(Flagged(s.(sent := s.sent + multiset{r})), Call(r, None))
  }

  /** `clearCallbacks` starts the callback of the front. */
  function Clearing(s: Snapshot): Snapshot
    requires s.callbacks != []
  {
    Fired(Flagged(Popped(s, None)), Call(s.callbacks[0], None))
  }

  // ---------------------------------------------------------------- what callbacks do

  /** A connection that is up can be lost only once. */
  function Rank(l: Link): nat {
    if l == Up then 1 else 0
  }

  ghost predicate Bounded(s: Snapshot, t: Snapshot, n: nat) {
    Rank(t.link) <= Rank(s.link) && Load(t.callbacks) <= Load(s.callbacks) + n
  }

  /** The script of a callback, or what is left of it. */
  function Run(s: Snapshot, acts: seq<Action>): (t: Snapshot)
    ensures Bounded(s, t, Size(acts))
    decreases Rank(s.link), 1, Size(acts), 2
  {
    if acts == [] || s.fate != Fine then s else Run(Act(s, acts[0]), acts[1..])
  }

  function Act(s: Snapshot, a: Action): (t: Snapshot)
    ensures Bounded(s, t, ActSize(a))
    decreases Rank(s.link), 1, ActSize(a), 1
  {
    match a
    case Send(r) => Sent(s, r)
    case Close => Closed(s)
    case Reopen => Reopened(s)
  }

  /** `sendCommandInLoop` */
  function Sent(s: Snapshot, r: Request): (t: Snapshot)
    ensures Bounded(s, t, 2 + Size(r.without))
    decreases Rank(s.link), 1, 2 + Size(r.without), 0
  {
    LoadOneMore(s.callbacks, r);
    if s.link == Gone then Unflagged(Run(Refusing(s, r), r.without))
    else if s.link == Fresh || s.link == Connecting then Enqueued(s, r).(fate := Undefined)
    else if s.link == Up && r.fails then Lost(Enqueued(s, r).(link := Down))
    else Enqueued(s, r)
  }

  /** `disconnect` */
  function Closed(s: Snapshot): (t: Snapshot)
    ensures Bounded(s, t, 0)
    decreases Rank(s.link), 1, 0, 0
  {
    if s.link == Fresh then s.(fate := Undefined)
    else if s.link == Up then Forgotten(Lost(s.(link := Down)))
    else Forgotten(s)
  }

  /** `reconnect` */
  function Reopened(s: Snapshot): (t: Snapshot)
    ensures Bounded(s, t, 0)
    decreases Rank(s.link), 1, 0, 0
  {
    if s.flag then s.(fate := Aborts)
    else if !s.addr then s
    else if s.link == Up then Reached(Lost(s.(link := Fresh)))
    else s.(link := Connecting)
  }

  /** `tcp_client_.reset()` */
  function Forgotten(s: Snapshot): Snapshot {
    if s.fate == Fine then s.(link := Gone) else s
  }

  /** `doConnect` goes on with the new client. */
  function Reached(s: Snapshot): Snapshot {
    if s.fate == Fine then s.(link := Connecting) else s
  }

  /** `onConnection` for a connection that is closed: the queue is cleared and the promise completed. Inside a
      callback that the flag marks, it ends the process. */
  function Lost(s: Snapshot): (t: Snapshot)
    requires s.link != Up
    ensures Bounded(s, t, 0)
    decreases 0, 3, 0, 0
  {
    if s.flag then s.(fate := Aborts)
    else
      var t := Cleared(s);
      if t.fate == Fine then Settled(t) else t
  }

  /** `clearCallbacks` */
  function Cleared(s: Snapshot): (t: Snapshot)
    ensures Bounded(s, t, 0) && (t.fate == Fine ==> t.callbacks == [])
    decreases Rank(s.link), 2, Load(s.callbacks), 0
  {
    if s.callbacks == [] || s.fate != Fine then s
    else Cleared(Unflagged(Run(Clearing(s), s.callbacks[0].without)))
  }

  // ---------------------------------------------------------------- replies

  /** `onRecvResponse`: the front is popped, then its callback runs. */
  function AfterReply(s: Snapshot, resp: Packet): Snapshot {
    if s.callbacks == [] then s.(fate := Aborts)
    else
      var call := Call(s.callbacks[0], Some(resp));
      Unflagged(Run(Fired(Flagged(Popped(s, Some(resp))), call), Script(call)))
  }

  /** `onRecvResponse` of the subscriber, for a reply: the callback of the front runs, then the front is popped. */
  function AfterOwnReply(s: Snapshot, resp: Packet): Snapshot {
    if s.callbacks == [] then s.(fate := Aborts)
    else
      var call := Call(s.callbacks[0], Some(resp));
      PoppedAfter(Run(Fired(s, call), Script(call)), resp)
  }

  function PoppedAfter(s: Snapshot, resp: Packet): Snapshot {
    if s.fate != Fine then s
    else if s.callbacks == [] then s.(fate := Undefined)
    else Popped(s, Some(resp))
  }

  // ---------------------------------------------------------------- a new connection

  function Sending(rs: seq<Request>): seq<Action> {
    seq(|rs|, k requires 0 <= k < |rs| => Send(rs[k]))
  }

  /** What a new connection sends: the password, the name, and the subscriptions of a subscriber. Without a
      password the promise is completed at once. */
  function Greeted(s: Snapshot, auth: Option<Request>, name: Request, again: seq<Request>): Snapshot {
    Run(Run(Authenticated(s.(link := Up, wire := []), auth), [Send(name)]), Sending(again))
  }

  function Authenticated(s: Snapshot, auth: Option<Request>): Snapshot {
    if auth.Some? then Run(s, [Send(auth.value)]) else Settled(s)
  }
}
