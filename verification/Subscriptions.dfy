/** The subscriptions of `TairSubscribeClient`: confirmations from the server decide which handlers are
    registered, messages go to them, and a new connection subscribes to all of them again. */
module Subscriptions {
  import opened Basics

  /** A channel or pattern name, and a message handler; `None` is an empty function. */
  type Name = seq<byte>
  type Handler = Option<nat>

  datatype Kind = Channel | Pattern

  datatype Topic = Topic(kind: Kind, name: Name)

  /** A reply with a type, a name and a count. A subscription carries the handler of the request it
      answers. */
  datatype Confirmation = Subscribed(topic: Topic, handler: Handler) | Unsubscribed(topic: Topic) | Other

  predicate About(c: Confirmation, t: Topic) {
    !c.Other? && c.topic == t
  }

  /** What is registered for a topic after some confirmations. */
  function Latest(history: seq<Confirmation>, t: Topic): Option<Handler> {
    if history == [] then None
    else
      var last := history[|history| - 1];
      if !About(last, t) then Latest(history[..|history| - 1], t)
      else if last.Subscribed? then Some(last.handler)
      else None
  }

  ghost predicate LastWord(history: seq<Confirmation>, t: Topic, k: nat) {
    k < |history| && About(history[k], t) && forall j :: k < j < |history| ==> !About(history[j], t)
  }

  /** A topic is registered exactly when the last word about it was a subscription, whose handler
      it has. */
  lemma {:induction false} LatestIsLast(history: seq<Confirmation>, t: Topic)
    ensures Latest(history, t).Some? <==> exists k: nat :: LastWord(history, t, k) && history[k].Subscribed?
    ensures forall k: nat :: LastWord(history, t, k) && history[k].Subscribed? ==>
      Latest(history, t) == Some(history[k].handler)
  {
    if history != [] {
      var n := |history| - 1;
      LatestIsLast(history[..n], t);
      if About(history[n], t) {
        assert history[n].Subscribed? ==> LastWord(history, t, n);
        assert forall k: nat :: LastWord(history, t, k) ==> k == n;
      } else {
        forall k: nat ensures LastWord(history, t, k) <==> LastWord(history[..n], t, k) {
          SameLastWord(history, t, k);
        }
      }
    }
  }

  lemma SameLastWord(history: seq<Confirmation>, t: Topic, k: nat)
    requires history != [] && !About(history[|history| - 1], t)
    ensures LastWord(history, t, k) <==> LastWord(history[..|history| - 1], t, k)
  {
    var front := history[..|history| - 1];
    if LastWord(front, t, k) {
      forall j | k < j < |history| ensures !About(history[j], t) {
        assert j < |front| ==> front[j] == history[j];
      }
    }
  }

  lemma {:induction false} LatestAppend(a: seq<Confirmation>, b: seq<Confirmation>, t: Topic)
    requires forall k :: 0 <= k < |b| ==> !About(b[k], t)
    ensures Latest(a + b, t) == Latest(a, t)
  {
    if b == [] {
      assert a + b == a;
    } else {
      assert (a + b)[..|a + b| - 1] == a + b[..|b| - 1];
      LatestAppend(a, b[..|b| - 1], t);
    }
  }

  function Get(m: map<Name, Handler>, name: Name): Option<Handler> {
    if name in m then Some(m[name]) else None
  }

  class SubscriptionTable {
    var subCallbacks: map<Name, Handler>
    var psubCallbacks: map<Name, Handler>

    /** The confirmations so far. */
    ghost var history: seq<Confirmation>

    ghost predicate Valid()
      reads this
    {
      && (forall name :: Get(subCallbacks, name) == Latest(history, Topic(Channel, name)))
      && forall name :: Get(psubCallbacks, name) == Latest(history, Topic(Pattern, name))
    }

    constructor ()
      ensures Valid() && history == []
    {
      subCallbacks, psubCallbacks, history := map[], map[], [];
    }

    /** `doPubSubCount`: the table follows the confirmations. */
    method DoPubSubCount(c: Confirmation)
      requires Valid()
      modifies this
      ensures Valid() && history == old(history) + [c]
    {
      assert (history + [c])[..|history|] == history;
      history := history + [c];
      match c
      case Subscribed(Topic(Channel, name), handler) => subCallbacks := subCallbacks[name := handler];
      case Unsubscribed(Topic(Channel, name)) => subCallbacks := subCallbacks - {name};
      case Subscribed(Topic(Pattern, name), handler) => psubCallbacks := psubCallbacks[name := handler];
      case Unsubscribed(Topic(Pattern, name)) => psubCallbacks := psubCallbacks - {name};
      case Other =>
    }

    /** `doSubscribeMessage` and `doPSubscribeMessage`: the handler that a message is given to, if any. */
    method Deliver(t: Topic) returns (handler: Handler)
      requires Valid()
      ensures handler == if Latest(history, t).Some? then Latest(history, t).value else None
    {
      var m := if t.kind.Channel? then subCallbacks else psubCallbacks;
      handler := if t.name in m then m[t.name] else None;
    }

    /** The subscriptions that `onConnected` sends, in the order in which the maps list them. */
    method Resubscribe() returns (commands: seq<Confirmation>)
      requires Valid()
      ensures Renews(history, commands)
    {
      commands := Commands(Channel, subCallbacks);
      var more := Commands(Pattern, psubCallbacks);
      ghost var channels := commands;
      commands := commands + more;
      forall t ensures Renewed(history, commands, t) {
        BothKinds(history, channels, more, t, subCallbacks, psubCallbacks);
      }
    }
  }

  /** The commands name every registered topic once, with its handler, and no other topic. Each is written as
      the confirmation it asks for. */
  ghost predicate Renews(history: seq<Confirmation>, commands: seq<Confirmation>) {
    forall t {:trigger Renewed(history, commands, t)} :: Renewed(history, commands, t)
  }

  ghost predicate Renewed(history: seq<Confirmation>, commands: seq<Confirmation>, t: Topic) {
    match Latest(history, t)
    case None => forall k :: 0 <= k < |commands| ==> !About(commands[k], t)
    case Some(handler) => exists k: nat :: Only(commands, k, t, handler)
  }

  ghost predicate Only(commands: seq<Confirmation>, k: nat, t: Topic, handler: Handler) {
    && k < |commands| && commands[k] == Subscribed(t, handler)
    && forall j :: 0 <= j < |commands| && j != k ==> !About(commands[j], t)
  }

  predicate IsEntry(c: Confirmation, kind: Kind, m: map<Name, Handler>) {
    c.Subscribed? && c.topic.kind == kind && c.topic.name in m && c.handler == m[c.topic.name]
  }

  /** One command for every entry of a map. */
  ghost predicate Lists(commands: seq<Confirmation>, kind: Kind, m: map<Name, Handler>) {
    && (forall k :: 0 <= k < |commands| ==> IsEntry(commands[k], kind, m))
    && (forall j, k :: 0 <= j < k < |commands| ==> commands[j].topic != commands[k].topic)
    && forall name :: name in m ==> Subscribed(Topic(kind, name), m[name]) in commands
  }

  /** The loop over a map; its order is any. */
  method Commands(kind: Kind, m: map<Name, Handler>) returns (commands: seq<Confirmation>)
    ensures Lists(commands, kind, m)
  {
    commands := [];
    var rest := m.Keys;
    while rest != {}
      invariant rest <= m.Keys
      invariant Lists(commands, kind, map name | name in m && name !in rest :: m[name])
      decreases |rest|
    {
      var name :| name in rest;
      commands := commands + [Subscribed(Topic(kind, name), m[name])];
      rest := rest - {name};
    }
    assert (map name | name in m && name !in rest :: m[name]) == m;
  }

  lemma TopicsDiffer(channels: seq<Confirmation>, patterns: seq<Confirmation>,
                     subs: map<Name, Handler>, psubs: map<Name, Handler>, j: nat, k: nat)
    requires Lists(channels, Channel, subs) && Lists(patterns, Pattern, psubs) && j < k < |channels + patterns|
    ensures (channels + patterns)[j].topic != (channels + patterns)[k].topic
  {
    if j < |channels| <= k {
      assert IsEntry(channels[j], Channel, subs) && IsEntry(patterns[k - |channels|], Pattern, psubs);
    }
  }

  lemma BothKinds(history: seq<Confirmation>, channels: seq<Confirmation>, patterns: seq<Confirmation>, t: Topic,
                  subs: map<Name, Handler>, psubs: map<Name, Handler>)
    requires Lists(channels, Channel, subs) && Lists(patterns, Pattern, psubs)
    requires Latest(history, t) == Get(if t.kind.Channel? then subs else psubs, t.name)
    ensures Renewed(history, channels + patterns, t)
  {
    var commands := channels + patterns;
    var m := if t.kind.Channel? then subs else psubs;
    if t.name in m {
      var c := Subscribed(t, m[t.name]);
      assert c in (if t.kind.Channel? then channels else patterns);
      assert c in commands;
      var k :| 0 <= k < |commands| && commands[k] == c;
      forall j: nat | j < |commands| && j != k ensures !About(commands[j], t) {
        TopicsDiffer(channels, patterns, subs, psubs, if j < k then j else k, if j < k then k else j);
      }
      assert Only(commands, k, t, m[t.name]);
    }
  }

  /** A reconnect keeps the table: once its subscriptions are confirmed, every topic has the handler it
      had before. */
  lemma ReconnectKeeps(history: seq<Confirmation>, commands: seq<Confirmation>, t: Topic)
    requires Renews(history, commands)
    ensures Latest(history + commands, t) == Latest(history, t)
  {
    assert Renewed(history, commands, t);
    match Latest(history, t)
    case None => LatestAppend(history, commands, t);
    case Some(handler) =>
      var k: nat :| Only(commands, k, t, handler);
      var upto, rest := history + commands[..k + 1], commands[k + 1..];
      assert history + commands == upto + rest;
      LatestAppend(upto, rest, t);
      assert upto[|upto| - 1] == commands[k];
  }
}
