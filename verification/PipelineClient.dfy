/** `TairBaseClient` and `TairSubscribeClient`, method by method against the functions of `Pipeline`. */
module PipelineClient {
  import opened Basics
  import opened Pipeline
  import opened PipelineLaws
  import opened PipelineReplies
  import opened PipelineInvariant

  // ---------------------------------------------------------------- frames

  /** The replies among the frames before the codec waits or fails, without the push messages. A handler that
      closes the connection ends them. */
  function Replies(subscriber: bool, addr: bool, frames: seq<Frame>): seq<Packet> {
    if frames == [] || !frames[0].Success? then []
    else if subscriber && frames[0].packet.push then
      if Closes(frames[0].packet.acts, addr) then [] else Replies(subscriber, addr, frames[1..])
    else [frames[0].packet] + Replies(subscriber, addr, frames[1..])
  }

  /** Progress through the frames: how many completions there were before `got`, the replies handled
      since, and whether no frame has failed to decode yet. */
  datatype Track = Track(first: bool, n: nat, got: seq<Packet>)

  ghost predicate Tracks(subscriber: bool, addr: bool, frames: seq<Frame>, rest: seq<Frame>, done: seq<Call>,
                         start: nat, t: Track) {
    && Answered(done, t.n, t.got) && |done| == t.n + |t.got|
    && (t.first ==> t.n == start && t.got + Replies(subscriber, addr, rest) == Replies(subscriber, addr, frames))
    && (!t.first ==> Answered(done, start, Replies(subscriber, addr, frames)))
  }

  lemma Regroup<T>(a: seq<T>, b: seq<T>, c: seq<T>)
    ensures a + (b + c) == a + b + c && a + [] == a
  {
  }

  lemma AnsweredMore(done: seq<Call>, more: seq<Call>, n: nat, replies: seq<Packet>)
    requires Answered(done, n, replies) && done <= more
    ensures Answered(more, n, replies)
  {
  }

  lemma AnsweredNext(done: seq<Call>, n: nat, replies: seq<Packet>, call: Call)
    requires Answered(done, n, replies) && |done| == n + |replies| && call.reply.Some?
    ensures Answered(done + [call], n, replies + [call.reply.value])
  {
  }

  lemma TrackReply(subscriber: bool, addr: bool, frames: seq<Frame>, rest: seq<Frame>, done: seq<Call>, call: Call,
                   start: nat, t: Track)
    requires Tracks(subscriber, addr, frames, rest, done, start, t) && rest != [] && rest[0].Success?
    requires !(subscriber && rest[0].packet.push) && call.reply == Some(rest[0].packet)
    ensures Tracks(subscriber, addr, frames, rest[1..], done + [call], start, t.(got := t.got + [rest[0].packet]))
  {
    AnsweredNext(done, t.n, t.got, call);
    if t.first {
      Regroup(t.got, [rest[0].packet], Replies(subscriber, addr, rest[1..]));
    } else {
      AnsweredMore(done, done + [call], start, Replies(subscriber, addr, frames));
    }
  }

  /** A push message that leaves the connection up. */
  lemma TrackPush(subscriber: bool, addr: bool, frames: seq<Frame>, rest: seq<Frame>, done: seq<Call>, start: nat,
                  t: Track)
    requires Tracks(subscriber, addr, frames, rest, done, start, t) && rest != [] && rest[0].Success?
    requires subscriber && rest[0].packet.push && !Closes(rest[0].packet.acts, addr)
    ensures Tracks(subscriber, addr, frames, rest[1..], done, start, t)
  {
  }

  /** A frame behind which nothing is read any more, or that fails to decode: the replies are all there. */
  lemma TrackBreak(subscriber: bool, addr: bool, frames: seq<Frame>, rest: seq<Frame>, done: seq<Call>,
                   done': seq<Call>, start: nat, t: Track, rest': seq<Frame>)
    requires Tracks(subscriber, addr, frames, rest, done, start, t) && done <= done'
    requires Replies(subscriber, addr, rest) == []
    ensures Tracks(subscriber, addr, frames, rest', done', start, Track(false, |done'|, []))
  {
    Regroup(t.got, [], []);
    AnsweredMore(done, done', start, Replies(subscriber, addr, frames));
  }

  lemma TrackEnd(subscriber: bool, addr: bool, frames: seq<Frame>, rest: seq<Frame>, done: seq<Call>, start: nat,
                 t: Track)
    requires Tracks(subscriber, addr, frames, rest, done, start, t) && (rest == [] || rest[0].Again?)
    ensures Answered(done, start, Replies(subscriber, addr, frames))
  {
    Regroup(t.got, [], []);
  }

  // ---------------------------------------------------------------- between events

  /** The promises that were completed by a `connect` that could not start; what was waiting as the connection
      came up, how many replies have come since, and whether that is still known. */
  datatype Book = Book(failed: set<nat>, stale: seq<Request>, replies: nat, known: bool)

  /** One more reply has come. */
  function Counted(book: Book): Book {
    book.(replies := book.replies + 1)
  }

  ghost predicate Sound(s: Snapshot, made: nat, book: Book) {
    Between(s, made, book.failed) && (s.link == Up && book.known ==> InLine(s, book.stale, book.replies))
  }

  lemma ScriptSound(s: Snapshot, acts: seq<Action>, made: nat, book: Book)
    requires Sound(s, made, book)
    ensures Run(s, acts).fate == Fine ==> Sound(Run(s, acts), made, book)
  {
    ScriptKeeps(s, acts, made, book.failed);
    if book.known {
      ScriptInLine(s, acts, book.stale, book.replies);
    }
  }

  /** A reply has completed the front of the queue and left the connection up. */
  ghost predicate Completed(s: Snapshot, t: Snapshot, resp: Packet) {
    && t.link == Up && t.addr == s.addr && s.enqueued <= t.enqueued && |s.calls| <= |t.calls|
    && s.callbacks != [] && t.done == s.done + [Call(s.callbacks[0], Some(resp))]
  }

  lemma OpenReply(s: Snapshot, resp: Packet, t: Snapshot, made: nat, book: Book)
    requires Sound(s, made, book) && s.callbacks != [] && s.link == Up
    requires t == EnqueuedAll(Replied(s, resp), Sends(s.callbacks[0].script))
    requires !Closes(s.callbacks[0].script, s.addr)
    ensures Sound(t, made, Counted(book)) && Completed(s, t, resp)
  {
    OpenReplyKeeps(s, resp, t, made, book.failed);
    if book.known {
      OpenReplyInLine(s, resp, Sends(s.callbacks[0].script), book.stale, book.replies);
    }
  }

  lemma BaseReply(s: Snapshot, resp: Packet, made: nat, book: Book)
    requires Sound(s, made, book) && s.link == Up
    ensures var t := AfterReply(s, resp);
      && t.fate == (if s.callbacks == [] || Closes(s.callbacks[0].script, true) then Aborts else Fine)
      && (t.fate == Fine ==> Sound(t, made, Counted(book)) && Completed(s, t, resp))
  {
    EndsIff(s, resp);
    if AfterReply(s, resp).fate == Fine {
      if Closes(s.callbacks[0].script, false) {
        ClosesMore(s.callbacks[0].script);
      }
      OpenReply(s, resp, AfterReply(s, resp), made, book);
    }
  }

  /** Two of the calls from number `from` on are of the same request. */
  ghost predicate FiredTwice(calls: seq<Call>, from: nat) {
    exists i, j :: from <= i < j < |calls| && calls[i].request == calls[j].request
  }

  lemma OwnReply(s: Snapshot, resp: Packet, made: nat, book: Book)
    requires Sound(s, made, book) && s.link == Up && s.callbacks != []
    ensures var t := AfterOwnReply(s, resp);
      && (Closes(s.callbacks[0].script, s.addr) <==> FiresAgain(s, t))
      && (FiresAgain(s, t) ==> FiredTwice(t.calls, |s.calls|))
      && (!Closes(s.callbacks[0].script, s.addr) ==>
           t.fate == Fine && Sound(t, made, Counted(book)) && Completed(s, t, resp))
  {
    var t := AfterOwnReply(s, resp);
    FiresTwiceIff(s, resp);
    assert t.calls == Run(Running(s, resp), s.callbacks[0].script).calls;
    if Closes(s.callbacks[0].script, s.addr) {
      assert t.calls[|s.calls|].request == t.calls[|s.calls| + 1].request;
    } else {
      PopCommutes(s, resp);
      OpenReply(s, resp, t, made, book);
    }
  }

  /** What `connect` makes of the state. */
  function Promised(s: Snapshot, made: nat): Snapshot {
    s.(promise := Some(made), link := if s.addr then Fresh else s.link,
       settled := s.settled + if s.addr then [] else [made])
  }

  function PromisedBook(book: Book, made: nat, ok: bool): Book {
    if ok then book else book.(failed := book.failed + {made})
  }

  lemma PromisedSound(s: Snapshot, made: nat, book: Book)
    requires Sound(s, made, book)
    ensures Sound(Promised(s, made), made + 1, PromisedBook(book, made, s.addr))
  {
    PromiseMade(s.settled, s.promise, made, book.failed);
    if !s.addr {
      PromiseRefused(s.settled, made, made + 1, book.failed);
    } else {
      assert s.settled + [] == s.settled;
    }
  }

  function AfterError(s: Snapshot): Snapshot {
    if Cleared(s).fate == Fine then Reopened(Cleared(s)) else Cleared(s)
  }

  lemma ErrorLeads(s: Snapshot)
    ensures Leads(s, AfterError(s))
  {
    ClearedLeads(s);
    if Cleared(s).fate == Fine {
      ReopenedLeads(Cleared(s));
      LeadsTwice(s, Cleared(s), AfterError(s));
    }
  }

  /** What a send does: without a client the callback fires at once, before anything else; before there is a connection
      the behaviour is undefined; otherwise the request joins the queue, and is written to a connection that is up. A
      write that fails closes the connection, and nothing is left waiting. */
  ghost predicate SendIs(s: Snapshot, t: Snapshot, r: Request) {
    match s.link
    case Gone => s.calls + [Call(r, None)] <= t.calls
    case Fresh => t.fate == Undefined
    case Connecting => t.fate == Undefined
    case Down =>
      t == s.(callbacks := s.callbacks + [r], enqueued := s.enqueued + [r], sent := s.sent + multiset{r})
    case Up =>
      if r.fails then t.link != Up && (t.fate == Fine ==> t.callbacks == [] && t.promise == None)
      else
        t == s.(callbacks := s.callbacks + [r], enqueued := s.enqueued + [r], sent := s.sent + multiset{r},
                wire := s.wire + [r])
  }

  lemma SendDoes(s: Snapshot, r: Request)
    requires s.fate == Fine
    ensures SendIs(s, Sent(s, r), r)
  {
    if s.link == Gone {
      RunLeads(Refusing(s, r), r.without);
    } else if s.link == Up && r.fails {
      assert Rank(Lost(Enqueued(s, r).(link := Down)).link) == 0;
    } else {
      assert s.link == Down ==> s.wire + [] == s.wire;
    }
  }

  /** The history has only grown. */
  ghost predicate Onward(s: Snapshot, t: Snapshot) {
    t.addr == s.addr && s.enqueued <= t.enqueued && s.done <= t.done && |s.calls| <= |t.calls|
  }

  /** What a reply does to a subscriber from `s` to `t`: without a request the process ends; otherwise the callback
      fires again exactly when it closes the connection, and if it does not, the front is completed. */
  ghost predicate Answers(s: Snapshot, t: Snapshot, resp: Packet, whole: bool) {
    if s.callbacks == [] then whole && t.fate == Aborts
    else
      && whole == !Closes(s.callbacks[0].script, s.addr) && (!whole <==> FiresAgain(s, t))
      && (!whole ==> FiredTwice(t.calls, |s.calls|))
      && (whole ==> t.fate == Fine && Completed(s, t, resp))
  }

  // ---------------------------------------------------------------- the client

  class Client {
    const subscriber: bool
    var callbacks: seq<Request>
    var link: Link
    var inCallback: bool
    var promise: Option<nat>
    var addrSet: bool
    var fate: Fate

    /** Promises are numbered as `connect` makes them. */
    var made: nat

    ghost var enqueued: seq<Request>
    ghost var done: seq<Call>
    ghost var calls: seq<Call>
    ghost var sent: multiset<Request>
    ghost var wire: seq<Request>
    ghost var settled: seq<nat>
    ghost var book: Book

    ghost function Now(): Snapshot
      reads this
    {
      Snapshot(callbacks, enqueued, done, calls, sent, wire, promise, settled, link, inCallback, addrSet, fate)
    }

    // -------------------------------------------------------------- what callbacks do

    /** The script of a callback. */
    method RunScript(acts: seq<Action>)
      modifies this
      ensures Now() == Run(old(Now()), acts) && made == old(made) && book == old(book)
      decreases Rank(link), 1, Size(acts), 2
    {
      if acts != [] && fate == Fine {
        Perform(acts[0]);
        RunScript(acts[1..]);
      }
    }

    method Perform(a: Action)
      requires fate == Fine
      modifies this
      ensures Now() == Act(old(Now()), a) && made == old(made) && book == old(book)
      decreases Rank(link), 1, ActSize(a), 1
    {
      match a {
        case Send(r) => SendCommandInLoop(r);
        case Close => DisconnectInLoop();
        case Reopen => ReconnectInLoop();
      }
    }

    /** `sendCommandInLoop` */
    method SendCommandInLoop(r: Request)
      modifies this
      ensures Now() == Sent(old(Now()), r) && made == old(made) && book == old(book)
      decreases Rank(link), 1, 2 + Size(r.without), 0
    {
      if link == Gone {
        Refuse(r);
        return;
      }
      Enqueue(r);
      if link == Fresh || link == Connecting {
        // There is no connection to write to.
        fate := Undefined;
      } else if link == Up && r.fails {
        link := Down;
        OnConnectionLost();
      }
    }

    /** Without a client, the callback runs at once, with a null reply. */
    method Refuse(r: Request)
      modifies this
      ensures Now() == Unflagged(Run(Refusing(old(Now()), r), r.without)) && made == old(made) && book == old(book)
      decreases Rank(link), 1, 1 + Size(r.without), 0
    {
      inCallback := true;
      sent := sent + multiset{r};
      Callback(Call(r, None));
      TakeBackFlag();
    }

    method TakeBackFlag()
      modifies `inCallback
      ensures Now() == Unflagged(old(Now()))
    {
      if fate == Fine {
        inCallback := false;
      }
    }

    method Enqueue(r: Request)
      modifies this
      ensures Now() == Enqueued(old(Now()), r) && made == old(made) && book == old(book)
    {
      callbacks, enqueued, sent := callbacks + [r], enqueued + [r], sent + multiset{r};
      wire := wire + if link == Up then [r] else [];
    }

    /** The callback of a request runs: it may complete the promise, and its script follows. */
    method Callback(call: Call)
      modifies this
      ensures Now() == Run(Fired(old(Now()), call), Script(call)) && made == old(made) && book == old(book)
      decreases Rank(link), 1, Size(Script(call)), 3
    {
      calls := calls + [call];
      if call.request.settles {
        SetPromise();
      }
      RunScript(Script(call));
    }

    method SetPromise()
      modifies this
      ensures Now() == Settled(old(Now())) && made == old(made) && book == old(book)
    {
      if promise.Some? {
        settled := settled + [promise.value];
        promise := None;
      }
    }

    method Pop(ghost reply: Option<Packet>)
      requires callbacks != []
      modifies this
      ensures Now() == Popped(old(Now()), reply) && made == old(made) && book == old(book)
    {
      done := done + [Call(callbacks[0], reply)];
      callbacks := callbacks[1..];
    }

    /** `disconnect`, in the loop. */
    method DisconnectInLoop()
      requires fate == Fine
      modifies this
      ensures Now() == Closed(old(Now())) && made == old(made) && book == old(book)
      decreases Rank(link), 1, 0, 0
    {
      if link == Fresh {
        // There is nothing to cancel yet.
        fate := Undefined;
        return;
      }
      if link == Up {
        link := Down;
        OnConnectionLost();
      }
      if fate == Fine {
        link := Gone;
      }
    }

    /** `reconnect` and so `doConnect`, in the loop. The client that is replaced closes its connection. */
    method ReconnectInLoop()
      requires fate == Fine
      modifies this
      ensures Now() == Reopened(old(Now())) && made == old(made) && book == old(book)
      decreases Rank(link), 1, 0, 0
    {
      if inCallback {
        fate := Aborts;
        return;
      }
      if !addrSet {
        return;
      }
      if link == Up {
        link := Fresh;
        OnConnectionLost();
      }
      if fate == Fine {
        link := Connecting;
      }
    }

    /** `onConnection` for a closed connection: everything waiting is completed without a reply, and so is the
        promise. */
    method OnConnectionLost()
      requires link != Up
      modifies this
      ensures Now() == Lost(old(Now())) && made == old(made) && book == old(book)
      decreases 0, 3, 0, 0
    {
      ClearCallbacks();
      if fate == Fine {
        SetPromise();
      }
    }

    /** `clearCallbacks` */
    method ClearCallbacks()
      modifies this
      ensures Now() == (if old(inCallback) then old(Now()).(fate := Aborts) else Cleared(old(Now())))
      ensures made == old(made) && book == old(book)
      decreases Rank(link), 2, 0, 0
    {
      if inCallback {
        fate := Aborts;
        return;
      }
      ghost var before := Now();
      ghost var rank := Rank(link);
      while callbacks != [] && fate == Fine
        invariant Cleared(Now()) == Cleared(before) && Rank(link) <= rank
        invariant made == old(made) && book == old(book)
        decreases Load(callbacks)
      {
        ClearFront();
      }
    }

    method ClearFront()
      requires callbacks != []
      modifies this
      ensures Now() == Unflagged(Run(Clearing(old(Now())), old(callbacks)[0].without))
      ensures made == old(made) && book == old(book)
      decreases Rank(link), 1, Load(callbacks), 0
    {
      var front := callbacks[0];
      Pop(None);
      inCallback := true;
      Callback(Call(front, None));
      TakeBackFlag();
    }

    // -------------------------------------------------------------- events

    /** Between two events. */
    ghost predicate Valid()
      reads this
    {
      Sound(Now(), made, book)
    }

    constructor (subscriber: bool)
      ensures Valid() && made == 0 && this.subscriber == subscriber
      ensures Now() == Snapshot([], [], [], [], multiset{}, [], None, [], Gone, false, false, Fine)
    {
      this.subscriber := subscriber;
      callbacks, link, inCallback, promise, addrSet, fate := [], Gone, false, None, false, Fine;
      enqueued, done, calls, sent, wire, settled, made := [], [], [], multiset{}, [], [], 0;
      book := Book({}, [], 0, false);
    }

    method SetServerAddr(nonEmpty: bool)
      requires Valid()
      modifies `addrSet
      ensures Valid() && Now() == old(Now()).(addr := nonEmpty)
    {
      addrSet := nonEmpty;
    }

    /** What the user does in the loop, outside of callbacks. */
    method InLoop(acts: seq<Action>)
      requires Valid()
      modifies this
      ensures Now() == Run(old(Now()), acts) && made == old(made) && book == old(book)
      ensures fate == Fine ==> Valid()
    {
      ScriptSound(Now(), acts, made, book);
      RunScript(acts);
    }

    /** `sendCommand` */
    method SendCommand(r: Request)
      requires Valid()
      modifies this
      ensures Now() == Sent(old(Now()), r) && made == old(made) && book == old(book)
      ensures fate == Fine ==> Valid()
      ensures SendIs(old(Now()), Now(), r)
    {
      SendDoes(Now(), r);
      OneActIsRun(Now(), Send(r));
      InLoop([Send(r)]);
    }

    /** `disconnect` */
    method Disconnect()
      requires Valid()
      modifies this
      ensures Now() == Closed(old(Now())) && made == old(made) && book == old(book)
      ensures fate == Fine ==> Valid() && link == Gone && (old(link) == Up ==> callbacks == [] && promise == None)
    {
      OneActIsRun(Now(), Close);
      if link == Up {
        LossKeeps(Now(), Now().(link := Down), made, book.failed);
      }
      InLoop([Close]);
    }

    /** `reconnect`. Outside of the loop, the client that is replaced closes its connection, and the new one
        connects, in events of their own. */
    method Reconnect(inLoop: bool)
      requires Valid()
      modifies this
      ensures made == old(made) && book == old(book)
      ensures inLoop ==> Now() == Reopened(old(Now()))
      ensures !inLoop ==> Now() == old(Now()).(link := if addrSet then Fresh else old(link))
      ensures fate == Fine ==> Valid()
      ensures fate == Fine && addrSet ==> link == if inLoop then Connecting else Fresh
    {
      if inLoop {
        OneActIsRun(Now(), Reopen);
        InLoop([Reopen]);
      } else {
        var ok := DoConnect();
      }
    }

    /** `doConnect`, outside of the loop. */
    method DoConnect() returns (ok: bool)
      modifies `link
      ensures ok == addrSet && Now() == old(Now()).(link := if ok then Fresh else old(link))
    {
      ok := addrSet;
      if ok {
        link := Fresh;
      }
    }

    /** `connectInLoop`, which `doConnect` outside of the loop leaves to an event of its own. */
    method ConnectInLoop()
      requires Valid() && link == Fresh
      modifies `link
      ensures Valid() && Now() == old(Now()).(link := Connecting)
    {
      link := Connecting;
    }

    /** `connect`, outside of the loop: a promise whose `doConnect` fails is completed at once and stays the pending
        one. */
    method Connect() returns (ok: bool)
      requires Valid()
      modifies this
      ensures Valid() && ok == addrSet && made == old(made) + 1
      ensures Now() == Promised(old(Now()), old(made)) && book == PromisedBook(old(book), old(made), ok)
      ensures promise == Some(old(made)) && link == if ok then Fresh else old(link)
      ensures settled == if ok then old(settled) else old(settled) + [old(made)]
    {
      PromisedSound(Now(), made, book);
      ok := TryConnect();
    }

    method TryConnect() returns (ok: bool)
      modifies this
      ensures ok == addrSet && made == old(made) + 1
      ensures Now() == Promised(old(Now()), old(made)) && book == PromisedBook(old(book), old(made), ok)
    {
      NewPromise();
      ok := DoConnect();
      if !ok {
        RefusePromise(made - 1);
      }
    }

    method NewPromise()
      modifies `promise, `made
      ensures Now() == old(Now()).(promise := Some(old(made))) && made == old(made) + 1
    {
      promise, made := Some(made), made + 1;
    }

    method RefusePromise(p: nat)
      modifies `settled, `book
      ensures Now() == old(Now()).(settled := old(settled) + [p]) && book == PromisedBook(old(book), p, false)
    {
      settled, book := settled + [p], book.(failed := book.failed + {p});
    }

    /** `onConnection` and `onConnected`: authenticates, names the connection, and subscribes again to what
        a subscriber had subscribed to. While this connection is up, what was waiting before it stays in front of
        what is written to it. */
    method OnConnected(auth: Option<Request>, name: Request, again: seq<Request>)
      requires Valid() && (link == Connecting || link == Down)
      modifies this
      ensures Now() == Greeted(old(Now()), auth, name, if subscriber then again else [])
      ensures made == old(made) && book == Book(old(book.failed), old(callbacks), 0, true)
      ensures fate == Fine ==> Valid()
      ensures var rs := Greeting(auth, name, if subscriber then again else []);
        Writable(rs) ==> Greets(old(Now()), Now(), auth, rs)
    {
      if Writable(Greeting(auth, name, if subscriber then again else [])) {
        GreetingWritten(Now(), auth, name, if subscriber then again else []);
      }
      ComeUp(auth, name, again);
    }

    method ComeUp(auth: Option<Request>, name: Request, again: seq<Request>)
      requires Valid() && (link == Connecting || link == Down)
      modifies this
      ensures Now() == Greeted(old(Now()), auth, name, if subscriber then again else [])
      ensures made == old(made) && book == Book(old(book.failed), old(callbacks), 0, true)
      ensures fate == Fine ==> Valid()
    {
      book := Book(book.failed, callbacks, 0, true);
      link, wire := Up, [];
      Authenticate(auth);
      Greet([Send(name)]);
      Greet(Sending(if subscriber then again else []));
    }

    method Greet(acts: seq<Action>)
      requires fate == Fine ==> Valid()
      modifies this
      ensures Now() == Run(old(Now()), acts) && made == old(made) && book == old(book)
      ensures fate == Fine ==> Valid()
    {
      if fate == Fine {
        InLoop(acts);
      }
    }

    /** `authentication` */
    method Authenticate(auth: Option<Request>)
      requires Valid()
      modifies this
      ensures Now() == Authenticated(old(Now()), auth) && made == old(made) && book == old(book)
      ensures fate == Fine ==> Valid()
    {
      if auth.Some? {
        InLoop([Send(auth.value)]);
      } else {
        SettledKeeps(Now(), made, book.failed);
        SetPromise();
      }
    }

    /** `onConnection` for a closed connection: the one that is up, one that could not be made, or one that has been
        replaced. The promise is completed for the second time exactly when its `connect` could not start. */
    method OnDisconnected()
      requires Valid()
      modifies this
      ensures Now() == Lost(old(Now()).(link := if old(link) == Up then Down else old(link)))
      ensures made == old(made) && book == old(book)
      ensures fate == Fine ==> Valid() && callbacks == [] && promise == None
      ensures fate == Fine && old(promise).Some? ==>
        (Times(settled, old(promise).value) == 2 <==> old(promise).value in book.failed)
    {
      ghost var before := Now();
      if link == Up {
        link := Down;
      }
      LossKeeps(before, Now(), made, book.failed);
      if promise.Some? && Lost(Now()).fate == Fine {
        SecondTimeIff(Now(), made, book.failed);
      }
      OnConnectionLost();
    }

    /** `clientCron`, on a connection that has been silent for too long: the client is given up, which
        closes the connection, and what waits is completed, before a new one is made. */
    method OnSilence()
      requires Valid() && link == Up
      modifies this
      ensures var t := Lost(old(Now()).(link := Gone)); Now() == if t.fate == Fine then Reopened(t) else t
      ensures made == old(made) && book == old(book)
      ensures fate == Fine ==> Valid() && callbacks == [] && promise == None && link != Up
      ensures fate == Fine && addrSet ==> link == Connecting
    {
      LossKeeps(Now(), Now().(link := Gone), made, book.failed);
      link := Gone;
      OnConnectionLost();
      if fate == Fine {
        assert Cleared(Now()) == Now();
        ClearCallbacks();
        OneActIsRun(Now(), Reopen);
        InLoop([Reopen]);
      }
    }

    // -------------------------------------------------------------- replies

    /** `onRecvResponse`: a reply completes the front of the queue, which is popped before its callback runs. The
        process ends exactly when nothing waits for the reply, or the callback closes the connection. */
    method OnRecvResponse(resp: Packet)
      requires Valid() && link == Up
      modifies this
      ensures Now() == AfterReply(old(Now()), resp) && made == old(made) && book == Counted(old(book))
      ensures fate == if old(callbacks) == [] || Closes(old(callbacks)[0].script, true) then Aborts else Fine
      ensures fate == Fine ==> Valid() && Completed(old(Now()), Now(), resp)
    {
      BaseReply(Now(), resp, made, book);
      CountReply();
      ReplyFront(resp);
    }

    method CountReply()
      modifies `book
      ensures Now() == old(Now()) && book == Counted(old(book))
    {
      book := Counted(book);
    }

    method ReplyFront(resp: Packet)
      modifies this
      ensures Now() == AfterReply(old(Now()), resp) && made == old(made) && book == old(book)
    {
      if callbacks == [] {
        fate := Aborts;
        return;
      }
      var front := callbacks[0];
      Pop(Some(resp));
      inCallback := true;
      Callback(Call(front, Some(resp)));
      TakeBackFlag();
    }

    /** `onRecvResponse` of the subscriber: a push message goes to its handler, a reply to the front of the queue. */
    method OnRecvSubscribed(resp: Packet) returns (whole: bool)
      requires Valid() && link == Up
      modifies this
      ensures made == old(made)
      ensures resp.push ==> whole && Now() == Run(old(Now()), resp.acts) && book == old(book)
      ensures resp.push && fate == Fine ==> Valid()
      ensures !resp.push ==> Now() == AfterOwnReply(old(Now()), resp) && book == Counted(old(book))
      ensures !resp.push ==> Answers(old(Now()), Now(), resp, whole) && (whole && fate == Fine ==> Valid())
    {
      if resp.push {
        InLoop(resp.acts);
        whole := true;
      } else {
        whole := OnOwnReply(resp);
      }
    }

    /** A reply completes the front of the queue, which is popped after its callback has run. The queue stays whole
        exactly when that callback does not close the connection: otherwise it has fired a second time. */
    method OnOwnReply(resp: Packet) returns (whole: bool)
      requires Valid() && link == Up
      modifies this
      ensures Now() == AfterOwnReply(old(Now()), resp) && made == old(made) && book == Counted(old(book))
      ensures Answers(old(Now()), Now(), resp, whole) && (whole && fate == Fine ==> Valid())
    {
      whole := callbacks == [] || !Closes(callbacks[0].script, addrSet);
      if callbacks != [] {
        OwnReply(Now(), resp, made, book);
      }
      CountReply();
      RunFront(resp);
    }

    method RunFront(resp: Packet)
      modifies this
      ensures Now() == AfterOwnReply(old(Now()), resp) && made == old(made) && book == old(book)
    {
      if callbacks == [] {
        fate := Aborts;
        return;
      }
      Callback(Call(callbacks[0], Some(resp)));
      if fate == Fine {
        if callbacks == [] {
          fate := Undefined;
        } else {
          Pop(Some(resp));
        }
      }
    }

    // -------------------------------------------------------------- messages

    /** Decoding failed: everything waiting is completed without a reply, and a new connection replaces
        this one, which is closed. Without an address this one stays, and which requests it will answer is not
        known any more. */
    method OnDecodeError()
      requires Valid() && link == Up
      modifies this
      ensures Now() == AfterError(old(Now())) && made == old(made) && book == old(book).(known := false)
      ensures fate == Fine ==> Valid() && callbacks == [] && (addrSet ==> link == Connecting)
    {
      ClearingKeeps(Now(), made, book.failed);
      ForgetReplies();
      ClearCallbacks();
      if fate == Fine {
        OneActIsRun(Now(), Reopen);
        InLoop([Reopen]);
      }
    }

    method ForgetReplies()
      modifies `book
      ensures Now() == old(Now()) && book == old(book).(known := false)
    {
      book := book.(known := false);
    }

    /** One frame of `onMessage`, the first of `rest`; `rest'` is what is read afterwards. */
    method OnFrame(ghost frames: seq<Frame>, rest: seq<Frame>, ghost start: nat, ghost t: Track)
      returns (whole: bool, rest': seq<Frame>, ghost t': Track)
      requires Valid() && link == Up && rest != [] && !rest[0].Again?
      requires Tracks(subscriber, addrSet, frames, rest, done, start, t)
      modifies this
      ensures |rest'| < |rest|
      ensures whole && fate == Fine ==>
        Valid() && Onward(old(Now()), Now()) && (rest' == [] || link == Up)
        && Tracks(subscriber, addrSet, frames, rest', done, start, t')
      ensures !whole ==> subscriber && FiredTwice(calls, old(|calls|))
    {
      if rest[0].Error? {
        whole := true;
        rest', t' := OnErrorFrame(frames, rest, start, t);
      } else if subscriber && rest[0].packet.push {
        whole := true;
        rest', t' := OnPushFrame(frames, rest, start, t);
      } else {
        whole := OnReply(rest[0].packet);
        rest', t' := rest[1..], t.(got := t.got + [rest[0].packet]);
        if whole && fate == Fine {
          TrackReply(subscriber, addrSet, frames, rest, old(done), Call(old(callbacks)[0], Some(rest[0].packet)),
                     start, t);
        }
      }
    }

    method OnReply(resp: Packet) returns (whole: bool)
      requires Valid() && link == Up && !(subscriber && resp.push)
      modifies this
      ensures whole && fate == Fine ==> Valid() && Completed(old(Now()), Now(), resp)
      ensures !whole ==> subscriber && FiredTwice(calls, old(|calls|))
    {
      if subscriber {
        whole := OnRecvSubscribed(resp);
      } else {
        whole := true;
        OnRecvResponse(resp);
      }
    }

    method OnErrorFrame(ghost frames: seq<Frame>, rest: seq<Frame>, ghost start: nat, ghost t: Track)
      returns (rest': seq<Frame>, ghost t': Track)
      requires Valid() && link == Up && rest != [] && rest[0].Error?
      requires Tracks(subscriber, addrSet, frames, rest, done, start, t)
      modifies this
      ensures |rest'| < |rest|
      ensures fate == Fine ==>
        Valid() && Onward(old(Now()), Now()) && (rest' == [] || link == Up)
        && Tracks(subscriber, addrSet, frames, rest', done, start, t')
    {
      ErrorLeads(Now());
      OnDecodeError();
      rest' := if link == Up then rest[1..] else [];
      t' := Track(false, |done|, []);
      if fate == Fine {
        TrackBreak(subscriber, addrSet, frames, rest, old(done), done, start, t, rest');
      }
    }

    method OnPushFrame(ghost frames: seq<Frame>, rest: seq<Frame>, ghost start: nat, ghost t: Track)
      returns (rest': seq<Frame>, ghost t': Track)
      requires Valid() && link == Up && rest != [] && rest[0].Success? && subscriber && rest[0].packet.push
      requires Tracks(subscriber, addrSet, frames, rest, done, start, t)
      modifies this
      ensures |rest'| < |rest|
      ensures fate == Fine ==>
        Valid() && Onward(old(Now()), Now()) && (rest' == [] || link == Up)
        && Tracks(subscriber, addrSet, frames, rest', done, start, t')
    {
      StillUpIff(Now(), rest[0].packet.acts);
      RunLeads(Now(), rest[0].packet.acts);
      var whole := OnRecvSubscribed(rest[0].packet);
      if link == Up {
        rest', t' := rest[1..], t;
        TrackPush(subscriber, addrSet, frames, rest, done, start, t);
      } else {
        rest', t' := [], Track(false, |done|, []);
        TrackBreak(subscriber, addrSet, frames, rest, old(done), done, start, t, rest');
      }
    }

    /** `onMessage`: hands on what the codec decodes until it needs more bytes or the connection is closed. Replies
        complete requests in the order of the queue, whatever callbacks and handlers do, unless the process ends or
        the callback of a subscriber has closed the connection and so fired twice. */
    method OnMessage(frames: seq<Frame>) returns (whole: bool)
      requires Valid() && link == Up
      modifies this
      ensures whole && fate == Fine ==>
        Valid() && Onward(old(Now()), Now())
        && Matched(done, enqueued, old(|done|), Replies(subscriber, addrSet, frames))
      ensures !whole ==> subscriber && FiredTwice(calls, old(|calls|))
    {
      var rest := frames;
      ghost var before := Now();
      ghost var start: nat := |done|;
      ghost var t := Track(true, start, []);
      whole := true;
      while rest != [] && !rest[0].Again?
        invariant Valid() && Onward(before, Now()) && (rest == [] || link == Up) && whole
        invariant Tracks(subscriber, addrSet, frames, rest, done, start, t)
        decreases |rest|
      {
        whole, rest, t := OnFrame(frames, rest, start, t);
        if !whole || fate != Fine {
          return;
        }
      }
      TrackEnd(subscriber, addrSet, frames, rest, done, start, t);
      MatchedByOrder(Now(), start, Replies(subscriber, addrSet, frames));
    }
  }
}
