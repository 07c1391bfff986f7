/** What every script, every clearing of the queue and every reply keeps, and when it is not kept. */
module PipelineLaws {
  import opened Basics
  import opened Pipeline

  function Requests(calls: seq<Call>): (rs: seq<Request>)
    ensures |rs| == |calls|
  {
    seq(|calls|, k requires 0 <= k < |calls| => calls[k].request)
  }

  lemma RequestsOneMore(calls: seq<Call>, call: Call)
    ensures Requests(calls + [call]) == Requests(calls) + [call.request]
  {
  }

  // ---------------------------------------------------------------- steps

  /** From `from` on, no call has a reply. */
  ghost predicate Silent(calls: seq<Call>, from: nat) {
    forall k :: from <= k < |calls| ==> calls[k].reply == None
  }

  ghost predicate Grown(before: seq<Call>, after: seq<Call>) {
    before <= after && Silent(after, |before|)
  }

  /** The completed requests and then the waiting ones are the enqueued ones, in order. */
  ghost predicate Ordered(done: seq<Call>, callbacks: seq<Request>, enqueued: seq<Request>) {
    Requests(done) + callbacks == enqueued
  }

  /** Every request sent has fired its callback once or is waiting; `extra` have fired once more. */
  ghost predicate Balanced(calls: seq<Call>, callbacks: seq<Request>, sent: multiset<Request>,
                           extra: multiset<Request>) {
    multiset(Requests(calls)) + multiset(callbacks) == sent + extra
  }

  ghost predicate SamePromise(s: Snapshot, t: Snapshot) {
    (t.promise == s.promise && t.settled == s.settled) || (t.promise == None && t.settled == Settled(s).settled)
  }

  /** What every step does: it adds calls and completions without a reply, keeps the order of the queue and the
      balance of calls, and completes the pending promise at most once. */
  ghost predicate Leads(s: Snapshot, t: Snapshot) {
    && Grown(s.calls, t.calls) && Grown(s.done, t.done) && s.enqueued <= t.enqueued
    && (Ordered(s.done, s.callbacks, s.enqueued) ==> Ordered(t.done, t.callbacks, t.enqueued))
    && KeepsBalance(s, t) && SamePromise(s, t) && t.addr == s.addr
  }

  ghost predicate KeepsBalance(s: Snapshot, t: Snapshot) {
    forall extra: multiset<Request> {:trigger Balanced(t.calls, t.callbacks, t.sent, extra)} ::
      Balanced(s.calls, s.callbacks, s.sent, extra) ==> Balanced(t.calls, t.callbacks, t.sent, extra)
  }

  lemma GrownTwice(a: seq<Call>, b: seq<Call>, c: seq<Call>)
    requires Grown(a, b) && Grown(b, c)
    ensures Grown(a, c)
  {
    forall k | |a| <= k < |c| ensures c[k].reply == None {
      if k < |b| {
        assert b[k] == c[k];
      }
    }
  }

  lemma BalanceTwice(s: Snapshot, t: Snapshot, u: Snapshot)
    requires KeepsBalance(s, t) && KeepsBalance(t, u)
    ensures KeepsBalance(s, u)
  {
    forall extra: multiset<Request> | Balanced(s.calls, s.callbacks, s.sent, extra)
      ensures Balanced(u.calls, u.callbacks, u.sent, extra)
    {
      assert Balanced(t.calls, t.callbacks, t.sent, extra);
    }
  }

  lemma LeadsTwice(s: Snapshot, t: Snapshot, u: Snapshot)
    requires Leads(s, t) && Leads(t, u)
    ensures Leads(s, u)
  {
    GrownTwice(s.calls, t.calls, u.calls);
    GrownTwice(s.done, t.done, u.done);
    BalanceTwice(s, t, u);
  }

  /** The queue and the calls are the same. */
  ghost predicate SameBook(s: Snapshot, t: Snapshot) {
    && t.callbacks == s.callbacks && t.enqueued == s.enqueued && t.done == s.done && t.calls == s.calls
    && t.sent == s.sent && t.addr == s.addr
  }

  lemma LeadsSame(s: Snapshot, t: Snapshot)
    requires SameBook(s, t) && SamePromise(s, t)
    ensures Leads(s, t)
  {
  }

  lemma OrderedMore(done: seq<Call>, callbacks: seq<Request>, enqueued: seq<Request>, r: Request)
    requires Ordered(done, callbacks, enqueued)
    ensures Ordered(done, callbacks + [r], enqueued + [r])
  {
    assert Requests(done) + (callbacks + [r]) == enqueued + [r];
  }

  lemma OrderedPop(done: seq<Call>, callbacks: seq<Request>, enqueued: seq<Request>, reply: Option<Packet>)
    requires Ordered(done, callbacks, enqueued) && callbacks != []
    ensures Ordered(done + [Call(callbacks[0], reply)], callbacks[1..], enqueued)
  {
    RequestsOneMore(done, Call(callbacks[0], reply));
    assert Requests(done) + [callbacks[0]] + callbacks[1..] == Requests(done) + callbacks;
  }

  lemma BalancedMore(calls: seq<Call>, callbacks: seq<Request>, sent: multiset<Request>, extra: multiset<Request>,
                     r: Request)
    requires Balanced(calls, callbacks, sent, extra)
    ensures Balanced(calls, callbacks + [r], sent + multiset{r}, extra)
  {
    assert sent + multiset{r} + extra == sent + extra + multiset{r};
  }

  lemma BalancedPop(calls: seq<Call>, callbacks: seq<Request>, sent: multiset<Request>, extra: multiset<Request>,
                    reply: Option<Packet>)
    requires Balanced(calls, callbacks, sent, extra) && callbacks != []
    ensures Balanced(calls + [Call(callbacks[0], reply)], callbacks[1..], sent, extra)
  {
    RequestsOneMore(calls, Call(callbacks[0], reply));
    assert callbacks == [callbacks[0]] + callbacks[1..];
  }

  lemma BalancedCall(calls: seq<Call>, callbacks: seq<Request>, sent: multiset<Request>, extra: multiset<Request>,
                     call: Call)
    requires Balanced(calls, callbacks, sent, extra)
    ensures Balanced(calls + [call], callbacks, sent + multiset{call.request}, extra)
  {
    RequestsOneMore(calls, call);
    assert sent + multiset{call.request} + extra == sent + extra + multiset{call.request};
  }

  lemma EnqueuedLeads(s: Snapshot, r: Request)
    ensures Leads(s, Enqueued(s, r))
  {
    if Ordered(s.done, s.callbacks, s.enqueued) {
      OrderedMore(s.done, s.callbacks, s.enqueued, r);
    }
    forall extra | Balanced(s.calls, s.callbacks, s.sent, extra)
      ensures Balanced(s.calls, s.callbacks + [r], s.sent + multiset{r}, extra)
    {
      BalancedMore(s.calls, s.callbacks, s.sent, extra, r);
    }
  }

  lemma RefusingLeads(s: Snapshot, r: Request)
    ensures Leads(s, Refusing(s, r))
  {
    forall extra | Balanced(s.calls, s.callbacks, s.sent, extra)
      ensures Balanced(s.calls + [Call(r, None)], s.callbacks, s.sent + multiset{r}, extra)
    {
      BalancedCall(s.calls, s.callbacks, s.sent, extra, Call(r, None));
    }
  }

  lemma ClearingLeads(s: Snapshot)
    requires s.callbacks != []
    ensures Leads(s, Clearing(s))
  {
    if Ordered(s.done, s.callbacks, s.enqueued) {
      OrderedPop(s.done, s.callbacks, s.enqueued, None);
    }
    forall extra | Balanced(s.calls, s.callbacks, s.sent, extra)
      ensures Balanced(s.calls + [Call(s.callbacks[0], None)], s.callbacks[1..], s.sent, extra)
    {
      BalancedPop(s.calls, s.callbacks, s.sent, extra, None);
    }
  }

  // ---------------------------------------------------------------- every script

  lemma {:induction false} RunLeads(s: Snapshot, acts: seq<Action>)
    ensures Leads(s, Run(s, acts))
    decreases Rank(s.link), 1, Size(acts), 2
  {
    if acts == [] || s.fate != Fine {
      LeadsSame(s, s);
    } else {
      ActLeads(s, acts[0]);
      RunLeads(Act(s, acts[0]), acts[1..]);
      LeadsTwice(s, Act(s, acts[0]), Run(s, acts));
    }
  }

  lemma {:induction false} ActLeads(s: Snapshot, a: Action)
    ensures Leads(s, Act(s, a))
    decreases Rank(s.link), 1, ActSize(a), 1
  {
    match a
    case Send(r) => SentLeads(s, r);
    case Close => ClosedLeads(s);
    case Reopen => ReopenedLeads(s);
  }

  lemma {:induction false} SentLeads(s: Snapshot, r: Request)
    ensures Leads(s, Sent(s, r))
    decreases Rank(s.link), 1, 2 + Size(r.without), 0
  {
    EnqueuedLeads(s, r);
    if s.link == Gone {
      var t := Refusing(s, r);
      RefusingLeads(s, r);
      RunLeads(t, r.without);
      LeadsTwice(s, t, Run(t, r.without));
      LeadsSame(Run(t, r.without), Unflagged(Run(t, r.without)));
      LeadsTwice(s, Run(t, r.without), Unflagged(Run(t, r.without)));
    } else if s.link == Fresh || s.link == Connecting {
      var t := Enqueued(s, r);
      LeadsSame(t, t.(fate := Undefined));
      LeadsTwice(s, t, t.(fate := Undefined));
    } else if s.link == Up && r.fails {
      var t := Enqueued(s, r);
      LostLeads(t, t.(link := Down));
      LeadsTwice(s, t, Lost(t.(link := Down)));
    }
  }

  lemma {:induction false} ClosedLeads(s: Snapshot)
    ensures Leads(s, Closed(s))
    decreases Rank(s.link), 1, 0, 0
  {
    if s.link == Up {
      var t := Lost(s.(link := Down));
      LostLeads(s, s.(link := Down));
      LeadsSame(t, Forgotten(t));
      LeadsTwice(s, t, Forgotten(t));
    } else {
      LeadsSame(s, Closed(s));
    }
  }

  lemma {:induction false} ReopenedLeads(s: Snapshot)
    ensures Leads(s, Reopened(s))
    decreases Rank(s.link), 1, 0, 0
  {
    if !s.flag && s.addr && s.link == Up {
      var t := Lost(s.(link := Fresh));
      LostLeads(s, s.(link := Fresh));
      LeadsSame(t, Reached(t));
      LeadsTwice(s, t, Reached(t));
    } else {
      LeadsSame(s, Reopened(s));
    }
  }

  /** The loss of a connection, which changes the link from `s` to `t`. */
  lemma {:induction false} LostLeads(s: Snapshot, t: Snapshot)
    requires t.link != Up && t == s.(link := t.link)
    ensures Leads(s, Lost(t))
    decreases 0, 3, 0, 0
  {
    LeadsSame(s, t);
    if t.flag {
      LeadsSame(s, Lost(t));
    } else {
      ClearedLeads(t);
      LeadsTwice(s, t, Cleared(t));
      LeadsSame(Cleared(t), Settled(Cleared(t)));
      LeadsTwice(s, Cleared(t), Settled(Cleared(t)));
    }
  }

  lemma {:induction false} ClearedLeads(s: Snapshot)
    ensures Leads(s, Cleared(s))
    decreases Rank(s.link), 2, Load(s.callbacks), 0
  {
    if s.callbacks == [] || s.fate != Fine {
      LeadsSame(s, s);
    } else {
      var t := Clearing(s);
      var u := Run(t, s.callbacks[0].without);
      ClearingLeads(s);
      RunLeads(t, s.callbacks[0].without);
      LeadsTwice(s, t, u);
      LeadsSame(u, Unflagged(u));
      LeadsTwice(s, u, Unflagged(u));
      ClearedLeads(Unflagged(u));
      LeadsTwice(s, Unflagged(u), Cleared(s));
    }
  }

  // ---------------------------------------------------------------- completeness

  /** Every request of a script, and every request their callbacks send without a reply. */
  function Nodes(acts: seq<Action>): multiset<Request> {
    if acts == [] then multiset{} else ActNodes(acts[0]) + Nodes(acts[1..])
  }

  function ActNodes(a: Action): multiset<Request> {
    match a
    case Send(r) => multiset{r} + Nodes(r.without)
    case Close => multiset{}
    case Reopen => multiset{}
  }

  function QueueNodes(q: seq<Request>): multiset<Request> {
    if q == [] then multiset{} else multiset{q[0]} + Nodes(q[0].without) + QueueNodes(q[1..])
  }

  /** The calls made, and those that everything waiting will make. */
  ghost function Total(s: Snapshot): multiset<Request> {
    multiset(Requests(s.calls)) + QueueNodes(s.callbacks)
  }

  lemma {:induction false} QueueNodesOneMore(q: seq<Request>, r: Request)
    ensures QueueNodes(q + [r]) == QueueNodes(q) + multiset{r} + Nodes(r.without)
  {
    if q == [] {
      assert q + [r] == [r] && [r][1..] == [];
    } else {
      assert (q + [r])[1..] == q[1..] + [r];
      QueueNodesOneMore(q[1..], r);
    }
  }

  lemma TotalOfCall(s: Snapshot, call: Call)
    ensures Total(Fired(s, call)) == Total(s) + multiset{call.request}
  {
    RequestsOneMore(s.calls, call);
  }

  lemma {:induction false} RunTotal(s: Snapshot, acts: seq<Action>)
    ensures Run(s, acts).fate == Fine ==> Total(Run(s, acts)) == Total(s) + Nodes(acts)
    decreases Rank(s.link), 1, Size(acts), 2
  {
    if acts != [] && s.fate == Fine {
      ActTotal(s, acts[0]);
      RunTotal(Act(s, acts[0]), acts[1..]);
    }
  }

  lemma {:induction false} ActTotal(s: Snapshot, a: Action)
    ensures Act(s, a).fate == Fine ==> Total(Act(s, a)) == Total(s) + ActNodes(a)
    decreases Rank(s.link), 1, ActSize(a), 1
  {
    match a
    case Send(r) => SentTotal(s, r);
    case Close => ClosedTotal(s);
    case Reopen => ReopenedTotal(s);
  }

  lemma {:induction false} ClosedTotal(s: Snapshot)
    ensures Closed(s).fate == Fine ==> Total(Closed(s)) == Total(s)
    decreases Rank(s.link), 1, 0, 0
  {
    if s.link == Up {
      LostTotal(s.(link := Down));
    }
  }

  lemma {:induction false} ReopenedTotal(s: Snapshot)
    ensures Reopened(s).fate == Fine ==> Total(Reopened(s)) == Total(s)
    decreases Rank(s.link), 1, 0, 0
  {
    if s.link == Up {
      LostTotal(s.(link := Fresh));
    }
  }

  lemma TotalOfSend(s: Snapshot, r: Request)
    ensures Total(Enqueued(s, r)) == Total(s) + (multiset{r} + Nodes(r.without))
  {
    QueueNodesOneMore(s.callbacks, r);
  }

  lemma {:induction false} SentTotal(s: Snapshot, r: Request)
    ensures Sent(s, r).fate == Fine ==> Total(Sent(s, r)) == Total(s) + (multiset{r} + Nodes(r.without))
    decreases Rank(s.link), 1, 2 + Size(r.without), 0
  {
    if s.link == Gone {
      TotalOfCall(Flagged(s.(sent := s.sent + multiset{r})), Call(r, None));
      RunTotal(Refusing(s, r), r.without);
    } else {
      TotalOfSend(s, r);
      if s.link == Up && r.fails {
        LostTotal(Enqueued(s, r).(link := Down));
      }
    }
  }

  lemma {:induction false} LostTotal(s: Snapshot)
    requires s.link != Up
    ensures Lost(s).fate == Fine ==> Total(Lost(s)) == Total(s)
    decreases 0, 3, 0, 0
  {
    if !s.flag {
      ClearedTotal(s);
    }
  }

  lemma {:induction false} ClearedTotal(s: Snapshot)
    ensures Cleared(s).fate == Fine ==> Total(Cleared(s)) == Total(s)
    decreases Rank(s.link), 2, Load(s.callbacks), 0
  {
    if s.callbacks != [] && s.fate == Fine {
      var u := Run(Clearing(s), s.callbacks[0].without);
      TotalOfCall(Flagged(Popped(s, None)), Call(s.callbacks[0], None));
      RunTotal(Clearing(s), s.callbacks[0].without);
      ClearedTotal(Unflagged(u));
    }
  }

  lemma AddedCalls(before: seq<Call>, after: seq<Call>, added: multiset<Request>)
    requires before <= after && multiset(Requests(after)) == multiset(Requests(before)) + added
    ensures multiset(Requests(after[|before|..])) == added
  {
    var old', rest := Requests(before), Requests(after[|before|..]);
    assert Requests(after) == old' + rest;
    Cancel(multiset(old'), multiset(rest), added);
  }

  lemma Cancel(a: multiset<Request>, b: multiset<Request>, c: multiset<Request>)
    requires a + b == a + c
    ensures b == c
  {
    assert forall r :: (a + b)[r] == a[r] + b[r] && (a + c)[r] == a[r] + c[r];
  }

  lemma SameQueueTotal(s: Snapshot, t: Snapshot, added: multiset<Request>)
    requires t.callbacks == s.callbacks && Total(t) == Total(s) + added
    ensures multiset(Requests(t.calls)) == multiset(Requests(s.calls)) + added
  {
    CancelLast(multiset(Requests(t.calls)), multiset(Requests(s.calls)), QueueNodes(s.callbacks), added);
  }

  lemma CancelLast(a: multiset<Request>, b: multiset<Request>, c: multiset<Request>, added: multiset<Request>)
    requires a + c == b + c + added
    ensures a == b + added
  {
    assert forall r :: (a + c)[r] == a[r] + c[r] && (b + c + added)[r] == b[r] + c[r] + added[r];
  }

  /** From `s` to `t` the queue has been emptied, and every waiting request, and every request sent meanwhile, has
      been completed exactly once and without a reply. */
  ghost predicate CompletesAll(s: Snapshot, t: Snapshot) {
    t.callbacks == [] && Grown(s.calls, t.calls)
    && multiset(Requests(t.calls[|s.calls|..])) == QueueNodes(s.callbacks)
  }

  lemma AllCompleted(s: Snapshot, t: Snapshot)
    requires Grown(s.calls, t.calls) && Total(t) == Total(s) && t.callbacks == []
    ensures CompletesAll(s, t)
  {
    AddedCalls(s.calls, t.calls, QueueNodes(s.callbacks));
  }

  lemma LostIs(s: Snapshot)
    requires s.link != Up && Lost(s).fate == Fine
    ensures Lost(s) == Settled(Cleared(s)) && Cleared(s).fate == Fine && Cleared(s).callbacks == []
  {
  }

  lemma LostGrows(s: Snapshot)
    requires s.link != Up
    ensures Grown(s.calls, Lost(s).calls)
  {
    LostLeads(s, s);
  }

  /** A lost connection does that. */
  lemma LossCompletesAll(s: Snapshot)
    requires s.link != Up && Lost(s).fate == Fine
    ensures CompletesAll(s, Lost(s))
  {
    LostIs(s);
    LostGrows(s);
    LostTotal(s);
    AllCompleted(s, Lost(s));
  }

  /** So does clearing the queue after a decode error. */
  lemma ClearingCompletesAll(s: Snapshot)
    requires Cleared(s).fate == Fine && s.fate == Fine
    ensures CompletesAll(s, Cleared(s))
  {
    ClearedLeads(s);
    ClearedTotal(s);
    AllCompleted(s, Cleared(s));
  }

  /** Without a connection nothing is queued by a script that does not end in something undefined. */
  lemma {:induction false} RunRefuses(s: Snapshot, acts: seq<Action>)
    requires (s.link == Gone || s.link == Connecting) && Run(s, acts).fate == Fine
    ensures Run(s, acts).callbacks == s.callbacks
    ensures Run(s, acts).link == Gone || Run(s, acts).link == Connecting
    decreases Size(acts), 2
  {
    if acts != [] && s.fate == Fine {
      if Act(s, acts[0]).fate == Fine {
        ActRefuses(s, acts[0]);
        RunRefuses(Act(s, acts[0]), acts[1..]);
      } else {
        RunStops(s, acts);
      }
    }
  }

  lemma RunStops(s: Snapshot, acts: seq<Action>)
    requires acts != [] && s.fate == Fine && Act(s, acts[0]).fate != Fine
    ensures Run(s, acts) == Act(s, acts[0])
  {
  }

  lemma {:induction false} ActRefuses(s: Snapshot, a: Action)
    requires (s.link == Gone || s.link == Connecting) && Act(s, a).fate == Fine
    ensures Act(s, a).callbacks == s.callbacks && (Act(s, a).link == Gone || Act(s, a).link == Connecting)
    decreases ActSize(a), 1
  {
    match a
    case Send(r) => SentRefuses(s, r);
    case Close =>
      assert Act(s, a) == Closed(s);
    case Reopen =>
      assert Act(s, a) == Reopened(s);
  }

  lemma {:induction false} SentRefuses(s: Snapshot, r: Request)
    requires (s.link == Gone || s.link == Connecting) && Sent(s, r).fate == Fine
    ensures Sent(s, r).callbacks == s.callbacks && (Sent(s, r).link == Gone || Sent(s, r).link == Connecting)
    decreases 2 + Size(r.without), 0
  {
    if s.link == Gone {
      RunRefuses(Refusing(s, r), r.without);
    }
  }

  /** Sent without a client, every request and everything its callbacks send is completed exactly once. */
  lemma RefusedOnce(s: Snapshot, acts: seq<Action>)
    requires s.link == Gone && Run(s, acts).fate == Fine
    ensures var t := Run(s, acts);
      && t.callbacks == s.callbacks && Grown(s.calls, t.calls)
      && multiset(Requests(t.calls[|s.calls|..])) == Nodes(acts)
  {
    RunRefuses(s, acts);
    RunLeads(s, acts);
    RunTotal(s, acts);
    SameQueueTotal(s, Run(s, acts), Nodes(acts));
    AddedCalls(s.calls, Run(s, acts).calls, Nodes(acts));
  }
}
