/** What is kept between any two events: order, balance, the promises of `connect`, and which request a
    reply goes to. */
module PipelineInvariant {
  import opened Basics
  import opened Pipeline
  import opened PipelineLaws
  import opened PipelineReplies

  // ---------------------------------------------------------------- promises

  /** How often promise `p` has been completed. */
  ghost function Times(settled: seq<nat>, p: nat): nat {
    multiset(settled)[p]
  }

  lemma TimesNext(settled: seq<nat>, q: nat, p: nat)
    ensures Times(settled + [q], p) == Times(settled, p) + if p == q then 1 else 0
  {
  }

  ghost function Allowed(p: nat, made: nat, failed: set<nat>): nat {
    if p >= made then 0 else if p in failed then 2 else 1
  }

  ghost predicate AllAllowed(settled: seq<nat>, made: nat, failed: set<nat>) {
    forall p: nat :: Times(settled, p) <= Allowed(p, made, failed)
  }

  /** `made` promises were made, those in `failed` by a `connect` that could not start. Such a promise is
      completed at once and stays pending, so that it may be completed twice; any other at most once. */
  ghost predicate PromisesKept(settled: seq<nat>, promise: Option<nat>, made: nat, failed: set<nat>) {
    && (forall p :: p in failed ==> p < made) && AllAllowed(settled, made, failed)
    && (promise.Some? ==>
         promise.value < made && Times(settled, promise.value) == if promise.value in failed then 1 else 0)
  }

  /** Completing the pending promise. */
  lemma CompletionAllowed(settled: seq<nat>, q: nat, made: nat, failed: set<nat>)
    requires PromisesKept(settled, Some(q), made, failed)
    ensures PromisesKept(settled + [q], None, made, failed)
  {
    forall p: nat ensures Times(settled + [q], p) <= Allowed(p, made, failed) {
      TimesNext(settled, q, p);
      assert Times(settled, p) <= Allowed(p, made, failed);
    }
  }

  /** `connect` makes a new promise. */
  lemma PromiseMade(settled: seq<nat>, promise: Option<nat>, made: nat, failed: set<nat>)
    requires PromisesKept(settled, promise, made, failed)
    ensures PromisesKept(settled, Some(made), made + 1, failed)
  {
    assert Times(settled, made) <= Allowed(made, made, failed);
    forall p: nat ensures Times(settled, p) <= Allowed(p, made + 1, failed) {
      assert Times(settled, p) <= Allowed(p, made, failed);
    }
  }

  /** When it cannot start, the promise is completed and stays pending. */
  lemma PromiseRefused(settled: seq<nat>, q: nat, made: nat, failed: set<nat>)
    requires PromisesKept(settled, Some(q), made, failed) && q !in failed
    ensures PromisesKept(settled + [q], Some(q), made, failed + {q})
  {
    TimesNext(settled, q, q);
    forall p: nat ensures Times(settled + [q], p) <= Allowed(p, made, failed + {q}) {
      TimesNext(settled, q, p);
      assert Times(settled, p) <= Allowed(p, made, failed);
    }
  }

  // ---------------------------------------------------------------- the invariant

  ghost predicate Kept(s: Snapshot, made: nat, failed: set<nat>) {
    && Ordered(s.done, s.callbacks, s.enqueued) && Balanced(s.calls, s.callbacks, s.sent, multiset{})
    && PromisesKept(s.settled, s.promise, made, failed)
  }

  /** Every step keeps it. */
  lemma LeadsKeeps(s: Snapshot, t: Snapshot, made: nat, failed: set<nat>)
    requires Leads(s, t) && Kept(s, made, failed)
    ensures Kept(t, made, failed)
  {
    if s.promise.Some? {
      CompletionAllowed(s.settled, s.promise.value, made, failed);
    }
  }

  lemma SettledKeeps(s: Snapshot, made: nat, failed: set<nat>)
    requires Kept(s, made, failed)
    ensures Kept(Settled(s), made, failed)
  {
    LeadsSame(s, Settled(s));
    LeadsKeeps(s, Settled(s), made, failed);
  }

  lemma RepliedKeeps(s: Snapshot, resp: Packet, made: nat, failed: set<nat>)
    requires Kept(s, made, failed) && s.callbacks != []
    ensures Kept(Replied(s, resp), made, failed)
  {
    OrderedPop(s.done, s.callbacks, s.enqueued, Some(resp));
    BalancedPop(s.calls, s.callbacks, s.sent, multiset{}, Some(resp));
    if s.promise.Some? {
      CompletionAllowed(s.settled, s.promise.value, made, failed);
    }
  }

  /** So does a reply, unless the callback of a subscriber closes the connection. */
  lemma ReplyKeeps(s: Snapshot, resp: Packet, made: nat, failed: set<nat>)
    requires Kept(s, made, failed) && s.callbacks != []
    ensures Kept(Run(Replied(s, resp), s.callbacks[0].script), made, failed)
  {
    RepliedKeeps(s, resp, made, failed);
    RunLeads(Replied(s, resp), s.callbacks[0].script);
    LeadsKeeps(Replied(s, resp), Run(Replied(s, resp), s.callbacks[0].script), made, failed);
  }

  /** A reply completes the pending promise exactly when the request it completes is the one that asked for it, and
      what its callback does afterwards does not complete it again. */
  lemma ReplySettles(s: Snapshot, resp: Packet)
    requires s.callbacks != [] && s.promise.Some? && s.callbacks[0].settles
    ensures var t := Run(Replied(s, resp), s.callbacks[0].script);
      t.promise == None && t.settled == s.settled + [s.promise.value]
  {
    RunLeads(Replied(s, resp), s.callbacks[0].script);
    assert SamePromise(Replied(s, resp), Run(Replied(s, resp), s.callbacks[0].script));
  }

  lemma OtherReplyLeaves(s: Snapshot, resp: Packet)
    requires s.callbacks != [] && !s.callbacks[0].settles
    ensures Replied(s, resp).promise == s.promise && Replied(s, resp).settled == s.settled
  {
  }

  /** When no request is sent twice, no callback has fired twice. */
  lemma NoneFiresTwice(s: Snapshot, i: nat, j: nat)
    requires Balanced(s.calls, s.callbacks, s.sent, multiset{}) && (forall r :: s.sent[r] <= 1) && i < j < |s.calls|
    ensures s.calls[i].request != s.calls[j].request
  {
    var rs := Requests(s.calls);
    assert (multiset(rs) + multiset(s.callbacks))[rs[i]] == s.sent[rs[i]];
    if rs[i] == rs[j] {
      TwiceCounts(rs, i, j);
    }
  }

  lemma TwiceCounts(rs: seq<Request>, i: nat, j: nat)
    requires i < j < |rs| && rs[i] == rs[j]
    ensures multiset(rs)[rs[i]] >= 2
  {
    assert rs == rs[..j] + [rs[j]] + rs[j + 1..];
    assert rs[..j][i] == rs[i] && rs[i] in multiset(rs[..j]);
  }

  lemma LostSettles(s: Snapshot)
    requires s.link != Up && Lost(s).fate == Fine
    ensures Lost(s).promise == None && Lost(s).settled == Settled(s).settled
  {
    LostIs(s);
    ClearedLeads(s);
    assert SamePromise(s, Cleared(s));
  }

  /** A lost connection completes the pending promise for the second time exactly when its `connect` could not
      start, whatever the callbacks do meanwhile. */
  lemma SecondTimeIff(s: Snapshot, made: nat, failed: set<nat>)
    requires Kept(s, made, failed) && s.promise.Some? && s.link != Up && Lost(s).fate == Fine
    ensures Lost(s).promise == None && Lost(s).settled == s.settled + [s.promise.value]
    ensures Times(Lost(s).settled, s.promise.value) == 2 <==> s.promise.value in failed
  {
    LostSettles(s);
    TimesNext(s.settled, s.promise.value, s.promise.value);
  }

  // ---------------------------------------------------------------- which request a reply answers

  /** From entry `n` on, the completions carry these replies, one each. */
  ghost predicate Answered(done: seq<Call>, n: nat, replies: seq<Packet>) {
    n + |replies| <= |done| && forall k :: 0 <= k < |replies| ==> done[n + k].reply == Some(replies[k])
  }

  /** The k-th reply completes the k-th request that was waiting or has been queued since. */
  lemma MatchedByOrder(s: Snapshot, n: nat, replies: seq<Packet>)
    requires Ordered(s.done, s.callbacks, s.enqueued) && Answered(s.done, n, replies)
    ensures Matched(s.done, s.enqueued, n, replies)
  {
    forall k | 0 <= k < |replies| ensures s.done[n + k] == Call(s.enqueued[n + k], Some(replies[k])) {
      assert s.done[n + k].request == Requests(s.done)[n + k] == s.enqueued[n + k];
    }
  }

  ghost predicate Matched(done: seq<Call>, enqueued: seq<Request>, n: nat, replies: seq<Packet>) {
    && n + |replies| <= |done| && n + |replies| <= |enqueued|
    && forall k :: 0 <= k < |replies| ==> done[n + k] == Call(enqueued[n + k], Some(replies[k]))
  }

  /** While a connection is up: when it came up, `stale` was waiting, and `replies` have come since. */
  ghost predicate InLine(s: Snapshot, stale: seq<Request>, replies: nat) {
    replies <= |stale| + |s.wire| && s.callbacks == (stale + s.wire)[replies..]
  }

  lemma InLineMore(s: Snapshot, rs: seq<Request>, stale: seq<Request>, replies: nat)
    requires InLine(s, stale, replies)
    ensures InLine(EnqueuedAll(s, rs), stale, replies)
  {
    assert stale + (s.wire + rs) == stale + s.wire + rs;
  }

  lemma InLineReply(s: Snapshot, resp: Packet, stale: seq<Request>, replies: nat)
    requires InLine(s, stale, replies) && s.callbacks != []
    ensures s.callbacks[0] == (stale + s.wire)[replies] && InLine(Replied(s, resp), stale, replies + 1)
  {
  }

  /** Reply number `replies` on a connection answers the request written as number `replies`. If no request is sent
      twice, it completes that request exactly when nothing was waiting as the connection came up. */
  lemma AnswersItsOwnIff(s: Snapshot, stale: seq<Request>, replies: nat)
    requires InLine(s, stale, replies) && s.callbacks != [] && replies < |s.wire|
    requires forall i, j :: 0 <= i < j < |stale + s.wire| ==> (stale + s.wire)[i] != (stale + s.wire)[j]
    ensures s.callbacks[0] == s.wire[replies] <==> stale == []
  {
    assert s.callbacks[0] == (stale + s.wire)[replies];
    assert s.wire[replies] == (stale + s.wire)[|stale| + replies];
  }

  // ---------------------------------------------------------------- events

  lemma {:induction false} ClearedUnflags(s: Snapshot)
    requires !s.flag && Cleared(s).fate == Fine
    ensures !Cleared(s).flag
    decreases Rank(s.link), Load(s.callbacks)
  {
    if s.callbacks != [] && s.fate == Fine {
      ClearedUnflags(Unflagged(Run(Clearing(s), s.callbacks[0].without)));
    }
  }

  lemma LostUnflags(s: Snapshot)
    requires s.link != Up && Lost(s).fate == Fine
    ensures !Lost(s).flag
  {
    LostIs(s);
    ClearedUnflags(s);
  }

  lemma ActUnflags(s: Snapshot, a: Action)
    requires !s.flag && Act(s, a).fate == Fine
    ensures !Act(s, a).flag
  {
    match a
    case Send(r) =>
      if s.link == Up && r.fails {
        LostUnflags(Enqueued(s, r).(link := Down));
      }
    case Close =>
      if s.link == Up {
        LostUnflags(s.(link := Down));
      }
    case Reopen =>
      if s.link == Up && s.addr {
        LostUnflags(s.(link := Fresh));
      }
  }

  lemma {:induction false} RunUnflags(s: Snapshot, acts: seq<Action>)
    requires !s.flag && Run(s, acts).fate == Fine
    ensures !Run(s, acts).flag
    decreases |acts|
  {
    if acts != [] && s.fate == Fine {
      if Act(s, acts[0]).fate != Fine {
        RunStops(s, acts);
      } else {
        ActUnflags(s, acts[0]);
        RunUnflags(Act(s, acts[0]), acts[1..]);
      }
    }
  }

  /** Between two events. */
  ghost predicate Between(s: Snapshot, made: nat, failed: set<nat>) {
    s.fate == Fine && !s.flag && Kept(s, made, failed)
  }

  /** What the user does in the loop, outside of callbacks, keeps the invariant. */
  lemma ScriptKeeps(s: Snapshot, acts: seq<Action>, made: nat, failed: set<nat>)
    requires Between(s, made, failed)
    ensures Run(s, acts).fate == Fine ==> Between(Run(s, acts), made, failed)
  {
    RunLeads(s, acts);
    LeadsKeeps(s, Run(s, acts), made, failed);
    if Run(s, acts).fate == Fine {
      RunUnflags(s, acts);
    }
  }

  lemma ScriptInLine(s: Snapshot, acts: seq<Action>, stale: seq<Request>, replies: nat)
    requires s.fate == Fine && !s.flag && (s.link == Up ==> InLine(s, stale, replies))
    ensures Run(s, acts).link == Up ==> InLine(Run(s, acts), stale, replies)
  {
    if s.link == Up {
      StillUpIff(s, acts);
      InLineMore(s, Sends(acts), stale, replies);
    }
  }

  lemma OneActIsRun(s: Snapshot, a: Action)
    requires s.fate == Fine
    ensures Run(s, [a]) == Act(s, a)
  {
    assert [a][1..] == [];
  }

  lemma LossKeeps(s: Snapshot, t: Snapshot, made: nat, failed: set<nat>)
    requires Between(s, made, failed) && t.link != Up && t == s.(link := t.link)
    ensures Lost(t).fate == Fine ==> Between(Lost(t), made, failed) && Lost(t).callbacks == []
    ensures Lost(t).fate == Fine ==> Lost(t).promise == None
  {
    LostLeads(s, t);
    LeadsKeeps(s, Lost(t), made, failed);
    if Lost(t).fate == Fine {
      LostUnflags(t);
    }
  }

  lemma ClearingKeeps(s: Snapshot, made: nat, failed: set<nat>)
    requires Between(s, made, failed)
    ensures Cleared(s).fate == Fine ==> Between(Cleared(s), made, failed)
  {
    ClearedLeads(s);
    LeadsKeeps(s, Cleared(s), made, failed);
    if Cleared(s).fate == Fine {
      ClearedUnflags(s);
    }
  }

  /** A reply to the base client, and one to a subscriber whose callback does not close the connection. */
  lemma OpenReplyKeeps(s: Snapshot, resp: Packet, t: Snapshot, made: nat, failed: set<nat>)
    requires Between(s, made, failed) && s.callbacks != [] && s.link == Up
    requires t == EnqueuedAll(Replied(s, resp), Sends(s.callbacks[0].script)) && !Closes(s.callbacks[0].script, s.addr)
    ensures Between(t, made, failed) && t.link == Up && t.done == s.done + [Call(s.callbacks[0], Some(resp))]
    ensures s.enqueued <= t.enqueued
  {
    RunOpen(Replied(s, resp), s.callbacks[0].script);
    ReplyKeeps(s, resp, made, failed);
  }

  lemma OpenReplyInLine(s: Snapshot, resp: Packet, rs: seq<Request>, stale: seq<Request>, replies: nat)
    requires s.callbacks != [] && InLine(s, stale, replies)
    ensures InLine(EnqueuedAll(Replied(s, resp), rs), stale, replies + 1)
  {
    InLineReply(s, resp, stale, replies);
    InLineMore(Replied(s, resp), rs, stale, replies + 1);
  }

  lemma {:induction false} ClosesMore(acts: seq<Action>)
    requires Closes(acts, false)
    ensures Closes(acts, true)
  {
    if !ClosesNow(acts[0], false) {
      ClosesMore(acts[1..]);
    }
  }
}
