/** The message bus: one event loop that owns a nested-map registry of subscriptions and fans messages out.

    The registry the loop keeps is compared with two simpler readings of the loop's history: the flat set of live
    subscriptions, and the messages each subscriber should have received. */
module Bus {
  import opened Options

  datatype Message = Message(customer: string, command: string, body: string)

  /** A websocket client's subscription. `received` is what it was sent, `closed` whether its channel was closed. */
  class Subscription {
    const customer: string
    var received: seq<Message>
    var closed: bool

    constructor (customer: string)
      ensures this.customer == customer && received == [] && !closed
    {
      this.customer, received, closed := customer, [], false;
    }

    /** A channel send; sending on a closed channel panics. */
    method Send(msg: Message)
      requires !closed
      modifies this`received
      ensures received == old(received) + [msg]
    {
      received := received + [msg];
    }

    /** Closing a closed channel panics. */
    method Close()
      requires !closed
      modifies this`closed
      ensures closed
    {
      closed := true;
    }
  }

  // What the loop's history says

  datatype Step = Subscribed(sub: Subscription) | Unsubscribed(sub: Subscription) | Handled(msg: Message)

  /** Every subscription ever made. */
  ghost function Made(history: seq<Step>): set<Subscription> {
    if history == [] then {}
    else
      var made := Made(history[..|history| - 1]);
      if history[|history| - 1].Subscribed? then made + {history[|history| - 1].sub} else made
  }

  /** The subscriptions that are live after a history: subscribed and not unsubscribed since. */
  ghost function Live(history: seq<Step>): set<Subscription> {
    if history == [] then {}
    else
      After(Live(history[..|history| - 1]), history[|history| - 1])
  }

  ghost function After(live: set<Subscription>, step: Step): set<Subscription> {
    if step.Subscribed? then live + {step.sub}
    else if step.Unsubscribed? then live - {step.sub}
    else live
  }

  /** The messages handled for its customer while the subscription was live, in order. */
  ghost function Delivered(history: seq<Step>, sub: Subscription): seq<Message> {
    if history == [] then []
    else
      var front, last := history[..|history| - 1], history[|history| - 1];
      Delivered(front, sub) +
      if last.Handled? && sub in Live(front) && last.msg.customer == sub.customer then [last.msg] else []
  }

  /** The customers of the live subscriptions. */
  ghost function Customers(live: set<Subscription>): set<string> {
    set sub | sub in live :: sub.customer
  }

  ghost function Of(live: set<Subscription>, customer: string): set<Subscription> {
    set sub | sub in live && sub.customer == customer
  }

  /** The nested map refines the flat set: a customer has an entry exactly when it has a live subscription, and the
      entry holds exactly those. */
  ghost predicate Refines(channels: map<string, set<Subscription>>, live: set<Subscription>) {
    && channels.Keys == Customers(live)
    && forall c | c in channels :: channels[c] == Of(live, c)
  }

  // The loop

  /** The subscriber was told exactly what the history says. */
  ghost predicate Told(sub: Subscription, history: seq<Step>)
    reads sub
  {
    sub.received == Delivered(history, sub) && (sub.closed <==> sub !in Live(history))
  }

  class Bus {
    var channels: map<string, set<Subscription>>
    var exited: bool
    ghost var history: seq<Step>
    ghost var known: set<Subscription>    // every subscription ever made

    ghost predicate Valid()
      reads this, known
    {
      && known == Made(history)
      && Refines(channels, Live(history))
      && forall sub | sub in known :: Told(sub, history)
    }

    constructor ()
      ensures Valid() && history == [] && !exited
    {
      channels, exited, history, known := map[], false, [], {};
    }

    /** Subscribe makes a new subscription and hands it to the loop. */
    method Subscribe(customer: string) returns (sub: Subscription)
      requires Valid() && !exited
      modifies this
      ensures Valid() && !exited && fresh(sub) && sub.customer == customer
      ensures history == old(history) + [Subscribed(sub)]
    {
      hide Refines, Live, Made, Delivered;
      sub := new Subscription(customer);
      LiveWereMade(history);
      NeverSubscribed(history, sub);
      EntryAdded(channels, Live(history), sub);
      if customer !in channels {
        channels := channels[customer := {}];
      }
      channels := channels[customer := channels[customer] + {sub}];
      assert channels == old(channels)[customer := channels[customer]];
      OneMore(history, Subscribed(sub));
      history, known := history + [Subscribed(sub)], known + {sub};
    }

    /** The loop ends when the customer has no entry. A subscription that is not in its customer's entry is ignored. */
    method Unsubscribe(sub: Subscription)
      requires Valid() && !exited
      modifies this`channels, this`exited, this`history, sub`closed
      ensures Valid() && history == old(history) + [Unsubscribed(sub)]
      ensures exited <==> Of(Live(old(history)), sub.customer) == {}
    {
      ghost var before := history;
      hide Refines, Live, Made, Delivered;
      LiveWereMade(history);
      EntryRemoved(channels, Live(history), sub);
      OneMore(history, Unsubscribed(sub));
      assert sub !in Live(history) ==> Live(history) - {sub} == Live(history);
      history := history + [Unsubscribed(sub)];
      if sub.customer !in channels {
        exited := true;
        return;
      }
      var channel := channels[sub.customer];
      if sub in channel {
        sub.Close();
        channel := channel - {sub};
        channels := channels[sub.customer := channel];
      }
      if channel == {} {
        channels := channels - {sub.customer};
      }
      assert channels == if channel == {} then old(channels) - {sub.customer}
                         else old(channels)[sub.customer := channel];
    }

    /** Sends the message to each of the customer's subscribers, in no particular order. */
    method Handle(msg: Message)
      requires Valid() && !exited
      modifies this`history, Of(Live(history), msg.customer)`received
      ensures Valid() && history == old(history) + [Handled(msg)]
    {
      hide Refines, Live, Made, Delivered;
      LiveWereMade(history);
      OneMore(history, Handled(msg));
      EntryHolds(channels, Live(history), msg.customer);
      if msg.customer in channels {
        FanOut(channels[msg.customer], msg);
      }
      history := history + [Handled(msg)];
    }

    /** The queue consumer's callback: a message that does not decode or validate is dropped. */
    method HandleMessage(body: Option<Message>)
      requires Valid() && !exited
      modifies this`history, if body.Some? then Of(Live(history), body.value.customer) else {}
      ensures Valid()
      ensures history == if body.Some? && body.value.customer != "" && body.value.command != ""
                         then old(history) + [Handled(body.value)] else old(history)
    {
      if body.None? {
        return;
      }
      if body.value.customer == "" || body.value.command == "" {
        return;
      }
      Handle(body.value);
    }
  }

  method FanOut(channel: set<Subscription>, msg: Message)
    requires forall sub | sub in channel :: !sub.closed
    modifies channel`received
    ensures forall sub | sub in channel :: sub.received == old(sub.received) + [msg]
  {
    var rest := channel;
    while rest != {}
      invariant rest <= channel
      invariant forall sub | sub in rest :: sub.received == old(sub.received)
      invariant forall sub | sub in channel - rest :: sub.received == old(sub.received) + [msg]
      modifies channel`received
      decreases rest
    {
      var sub :| sub in rest;
      sub.Send(msg);
      rest := rest - {sub};
    }
  }

  lemma OneMore(history: seq<Step>, step: Step)
    ensures Made(history + [step]) == Made(history) + if step.Subscribed? then {step.sub} else {}
    ensures Live(history + [step]) == After(Live(history), step)
    ensures forall sub: Subscription :: Delivered(history + [step], sub) ==
              Delivered(history, sub) +
              if step.Handled? && sub in Live(history) && step.msg.customer == sub.customer then [step.msg] else []
  {
    assert (history + [step])[..|history|] == history;
  }

  lemma {:induction false} NeverSubscribed(history: seq<Step>, sub: Subscription)
    requires sub !in Made(history)
    ensures sub !in Live(history) && Delivered(history, sub) == []
  {
    if history == [] {
    } else {
      NeverSubscribed(history[..|history| - 1], sub);
    }
  }

  lemma {:induction false} LiveWereMade(history: seq<Step>)
    ensures Live(history) <= Made(history)
  {
    if history == [] {
    } else {
      LiveWereMade(history[..|history| - 1]);
    }
  }

  lemma EntryAdded(channels: map<string, set<Subscription>>, live: set<Subscription>, sub: Subscription)
    requires Refines(channels, live)
    ensures var entry := if sub.customer in channels then channels[sub.customer] else {};
            Refines(channels[sub.customer := entry + {sub}], live + {sub})
  {
    assert Customers(live + {sub}) == Customers(live) + {sub.customer};
    if sub.customer !in channels {
      assert forall s | s in live :: s.customer in Customers(live);
    }
  }

  lemma EntryHolds(channels: map<string, set<Subscription>>, live: set<Subscription>, customer: string)
    requires Refines(channels, live)
    ensures Of(live, customer) == if customer in channels then channels[customer] else {}
  {
    assert forall s | s in live :: s.customer in Customers(live);
  }

  lemma EntryRemoved(channels: map<string, set<Subscription>>, live: set<Subscription>, sub: Subscription)
    requires Refines(channels, live)
    ensures sub.customer in channels <==> Of(live, sub.customer) != {}
    ensures sub.customer !in channels ==> sub !in live
    ensures sub.customer in channels ==> (sub in channels[sub.customer] <==> sub in live)
    ensures sub.customer in channels ==>
              var entry := channels[sub.customer] - {sub};
              Refines(if entry == {} then channels - {sub.customer} else channels[sub.customer := entry], live - {sub})
  {
    assert forall s | s in live :: s.customer in Customers(live);
    if sub.customer in channels {
      var one :| one in live && one.customer == sub.customer;
      assert one in Of(live, sub.customer);
      var entry := channels[sub.customer] - {sub};
      assert channels[sub.customer] == Of(live, sub.customer);
      assert entry == Of(live - {sub}, sub.customer);
      forall c | c in Customers(live) && c != sub.customer
        ensures c in Customers(live - {sub}) && Of(live - {sub}, c) == Of(live, c)
      {
        var s :| s in live && s.customer == c;
        assert s in live - {sub};
      }
      if entry != {} {
        var s :| s in entry;
        assert s in live - {sub};
      }
    }
  }

  // Histories

  /** The messages handled for a customer. */
  ghost function HandledFor(history: seq<Step>, customer: string): seq<Message> {
    if history == [] then []
    else
      var last := history[|history| - 1];
      HandledFor(history[..|history| - 1], customer) +
      if last.Handled? && last.msg.customer == customer then [last.msg] else []
  }

  ghost predicate Mentions(history: seq<Step>, sub: Subscription) {
    Subscribed(sub) in history || Unsubscribed(sub) in history
  }

  lemma {:induction false} BeforeSubscribing(history: seq<Step>, sub: Subscription)
    requires !Mentions(history, sub)
    ensures sub !in Live(history) && Delivered(history, sub) == []
  {
    if history == [] {
    } else {
      BeforeSubscribing(history[..|history| - 1], sub);
    }
  }

  /** While live, a subscriber gets every message handled for its customer. */
  lemma {:induction false} WhileSubscribed(before: seq<Step>, during: seq<Step>, sub: Subscription)
    requires sub in Live(before) && !Mentions(during, sub)
    ensures sub in Live(before + during)
    ensures Delivered(before + during, sub) == Delivered(before, sub) + HandledFor(during, sub.customer)
  {
    if during == [] {
      assert before + during == before;
    } else {
      var front, last := during[..|during| - 1], during[|during| - 1];
      WhileSubscribed(before, front, sub);
      assert before + during == (before + front) + [last];
      OneMore(before + front, last);
      assert last in during;
    }
  }

  lemma {:induction false} AfterUnsubscribing(before: seq<Step>, after: seq<Step>, sub: Subscription)
    requires sub !in Live(before) && Subscribed(sub) !in after
    ensures sub !in Live(before + after) && Delivered(before + after, sub) == Delivered(before, sub)
  {
    if after == [] {
      assert before + after == before;
    } else {
      var front, last := after[..|after| - 1], after[|after| - 1];
      AfterUnsubscribing(before, front, sub);
      assert before + after == (before + front) + [last];
      OneMore(before + front, last);
      assert last in after;
    }
  }

  /** Each subscriber is delivered exactly the messages for its customer handled between its subscribe and its first
      unsubscribe, once each and in the loop's order; nothing before, nothing after, and nothing for anyone else. */
  lemma DeliveredBetween(before: seq<Step>, during: seq<Step>, after: seq<Step>, sub: Subscription)
    requires !Mentions(before, sub) && !Mentions(during, sub) && Subscribed(sub) !in after
    ensures Delivered(before + [Subscribed(sub)] + during, sub) == HandledFor(during, sub.customer)
    ensures Delivered(before + [Subscribed(sub)] + during + [Unsubscribed(sub)] + after, sub) ==
            HandledFor(during, sub.customer)
  {
    BeforeSubscribing(before, sub);
    OneMore(before, Subscribed(sub));
    WhileSubscribed(before + [Subscribed(sub)], during, sub);
    OneMore(before + [Subscribed(sub)] + during, Unsubscribed(sub));
    AfterUnsubscribing(before + [Subscribed(sub)] + during + [Unsubscribed(sub)], after, sub);
  }

  // Websocket clients

  /** A client subscribes at most once, after authenticating, and its deferred unsubscribe runs once. */
  datatype Phase = Connecting | Open | Gone

  datatype Clients = Clients(phases: seq<Phase>, history: seq<Step>)

  datatype Action =
    | Authenticate(i: nat)     // writeLoop gets the user and subscribes
    | GiveUp(i: nat)           // writeLoop returns before subscribing
    | Leave(i: nat)            // writeLoop returns, running the deferred unsubscribe
    | Deliver(msg: Message)

  ghost predicate Enabled(s: Clients, a: Action) {
    match a
    case Authenticate(i) => i < |s.phases| && s.phases[i] == Connecting
    case GiveUp(i) => i < |s.phases| && s.phases[i] == Connecting
    case Leave(i) => i < |s.phases| && s.phases[i] == Open
    case Deliver(_) => true
  }

  ghost function Next(subs: seq<Subscription>, s: Clients, a: Action): Clients
    requires |s.phases| == |subs| && Enabled(s, a)
  {
    match a
    case Authenticate(i) => Clients(s.phases[i := Open], s.history + [Subscribed(subs[i])])
    case GiveUp(i) => Clients(s.phases[i := Gone], s.history)
    case Leave(i) => Clients(s.phases[i := Gone], s.history + [Unsubscribed(subs[i])])
    case Deliver(msg) => Clients(s.phases, s.history + [Handled(msg)])
  }

  ghost predicate Reaches(subs: seq<Subscription>, s: Clients, acts: seq<Action>, s': Clients)
    requires |s.phases| == |subs|
    decreases |acts|
  {
    if acts == [] then s == s'
    else Enabled(s, acts[0]) && Reaches(subs, Next(subs, s, acts[0]), acts[1..], s')
  }

  /** The unsubscribe at `k` finds its customer without an entry, and the loop ends. */
  ghost predicate LoopEndsAt(history: seq<Step>, k: nat)
    requires k < |history|
  {
    history[k].Unsubscribed? && Of(Live(history[..k]), history[k].sub.customer) == {}
  }

  /** An unsubscribe at `k` does not end the loop and removes a live subscription. */
  ghost predicate Harmless(history: seq<Step>, k: nat)
    requires k < |history|
  {
    !LoopEndsAt(history, k) && (history[k].Unsubscribed? ==> history[k].sub in Live(history[..k]))
  }

  /** A client that unsubscribes its only subscription twice ends the loop. */
  lemma UnsubscribingTwiceEndsLoop(sub: Subscription)
    ensures var history := [Subscribed(sub), Unsubscribed(sub), Unsubscribed(sub)];
            !LoopEndsAt(history, 1) && LoopEndsAt(history, 2)
  {
    var history := [Subscribed(sub), Unsubscribed(sub), Unsubscribed(sub)];
    assert history[..1] == [] + [Subscribed(sub)] && history[..2] == history[..1] + [Unsubscribed(sub)];
    OneMore([], Subscribed(sub));
    OneMore(history[..1], Unsubscribed(sub));
    assert sub in Of(Live(history[..1]), sub.customer);
  }

  ghost predicate ClientsInv(subs: seq<Subscription>, s: Clients) {
    && |s.phases| == |subs|
    && (forall i | 0 <= i < |subs| :: s.phases[i] == Open <==> subs[i] in Live(s.history))
    && (forall i | 0 <= i < |subs| && s.phases[i] == Connecting :: subs[i] !in Made(s.history))
    && (forall k | 0 <= k < |s.history| :: Harmless(s.history, k))
  }

  lemma ClientStep(subs: seq<Subscription>, s: Clients, a: Action)
    requires forall i, j | 0 <= i < j < |subs| :: subs[i] != subs[j]
    requires ClientsInv(subs, s) && Enabled(s, a)
    ensures ClientsInv(subs, Next(subs, s, a))
  {
    hide Live, Made;
    var s' := Next(subs, s, a);
    if s'.history != s.history {
      var step := s'.history[|s.history|];
      OneMore(s.history, step);
      assert s'.history == s.history + [step];
      forall k | 0 <= k < |s'.history|
        ensures Harmless(s'.history, k)
      {
        if k < |s.history| {
          assert s'.history[..k] == s.history[..k] && Harmless(s.history, k);
        } else {
          assert s'.history[..k] == s.history;
          assert step.Unsubscribed? ==> step.sub in Of(Live(s.history), step.sub.customer);
        }
      }
    }
  }

  lemma {:induction false} ClientsRun(subs: seq<Subscription>, s: Clients, acts: seq<Action>, s': Clients)
    requires forall i, j | 0 <= i < j < |subs| :: subs[i] != subs[j]
    requires ClientsInv(subs, s) && Reaches(subs, s, acts, s')
    ensures forall k | 0 <= k < |s'.history| :: Harmless(s'.history, k)
    decreases |acts|
  {
    if acts == [] {
    } else {
      ClientStep(subs, s, acts[0]);
      ClientsRun(subs, Next(subs, s, acts[0]), acts[1..], s');
    }
  }

  /** Any number of websocket clients, in any interleaving with the messages, never end the loop, and each
      unsubscribe removes a live subscription, so no channel is closed twice. */
  lemma ClientsKeepLoopAlive(subs: seq<Subscription>, acts: seq<Action>, s': Clients)
    requires forall i, j | 0 <= i < j < |subs| :: subs[i] != subs[j]
    requires Reaches(subs, Clients(seq(|subs|, i => Connecting), []), acts, s')
    ensures forall k | 0 <= k < |s'.history| :: Harmless(s'.history, k)
  {
    ClientsRun(subs, Clients(seq(|subs|, i => Connecting), []), acts, s');
  }
}
