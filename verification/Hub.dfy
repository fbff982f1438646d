/** The event broker under any interleaving of subscribers, readers and concurrent publishers.

    Subscribe, unsubscribe and close hold the write lock; a publication holds the read lock from
    collecting its channels to its last send, so publications overlap with one another. Sending on a
    closed channel, or closing one again, is a panic. */
module Hub {
  import opened Events

  /** A channel is known by its position in the list of all channels ever made, a publication by its
      position in the list of all publications; channels carry publications. */
  type ChannelId = nat
  type PublicationId = nat

  /** `todo` are the collected channels not yet served; `audience`, those subscribed at the start. */
  datatype Publication = Publication(event: Event, todo: seq<ChannelId>, audience: set<ChannelId>, active: bool)

  datatype BrokerState = BrokerState(
    subscribers: map<string, set<ChannelId>>,
    channels: seq<Channel<PublicationId>>,
    publications: seq<Publication>,
    closed: bool,
    panicked: bool)

  datatype HubStep =
    | Subscribe(topic: string)
    | Unsubscribe(channel: ChannelId)
    | Close
    | Begin(event: Event, order: seq<ChannelId>)  // collect the channels, in some order
    | Send(publication: PublicationId)
    | End(publication: PublicationId)
    | Receive(channel: ChannelId)

  const START := BrokerState(map[], [], [], false, false)

  function Under(b: BrokerState, topic: string): set<ChannelId> {
    if topic in b.subscribers then b.subscribers[topic] else {}
  }

  /** What a publication collects. */
  function Collected(b: BrokerState, e: Event): multiset<ChannelId> {
    if b.closed then multiset{}
    else
      multiset(Under(b, Topic(e)))
      + (if e.namespace != "" && Topic(e) != e.namespace then multiset(Under(b, e.namespace)) else multiset{})
      + multiset(Under(b, ALL))
  }

  function Registered(b: BrokerState): set<ChannelId> {
    set topic, c | topic in b.subscribers && c in b.subscribers[topic] :: c
  }

  predicate NoReaders(b: BrokerState) {
    forall p :: 0 <= p < |b.publications| ==> !b.publications[p].active
  }

  predicate Enabled(b: BrokerState, s: HubStep) {
    match s
    case Subscribe(_) => NoReaders(b)
    case Unsubscribe(c) => NoReaders(b) && c < |b.channels|
    case Close => NoReaders(b)
    case Begin(e, order) => multiset(order) == Collected(b, e)
    case Send(p) => p < |b.publications| && b.publications[p].active && b.publications[p].todo != []
    case End(p) => p < |b.publications| && b.publications[p].active && b.publications[p].todo == []
    case Receive(c) => c < |b.channels| && b.channels[c].buffer != []
  }

  function CloseChannels(channels: seq<Channel<PublicationId>>, gone: set<ChannelId>): (r: seq<Channel<PublicationId>>)
    ensures |r| == |channels|
    ensures forall c :: 0 <= c < |r| ==> r[c] == if c in gone then channels[c].(open := false) else channels[c]
  {
    seq(|channels|, c requires 0 <= c < |channels| =>
      if c in gone then channels[c].(open := false) else channels[c])
  }

  predicate IsOpen(b: BrokerState, c: ChannelId) {
    c < |b.channels| && b.channels[c].open
  }

  /** `unsubscribe`: only a registered channel is closed; a topic left empty is dropped. */
  function FireUnsubscribe(b: BrokerState, topic: string, c: ChannelId): BrokerState {
    if topic !in b.subscribers then b
    else
      var rest := b.subscribers[topic] - {c};
      var subscribers := if rest == {} then b.subscribers - {topic} else b.subscribers[topic := rest];
      if c in b.subscribers[topic] then
        b.(subscribers := subscribers, channels := CloseChannels(b.channels, {c}), panicked := b.panicked || !IsOpen(b, c))
      else b.(subscribers := subscribers)
  }

  /** Closing everything closes each channel once per topic it is under. */
  function FireClose(b: BrokerState): BrokerState {
    b.(closed := true, subscribers := map[], channels := CloseChannels(b.channels, Registered(b)),
       panicked := b.panicked || (exists c :: c in Registered(b) && !IsOpen(b, c))
                   || (exists t, u, c :: t in b.subscribers && u in b.subscribers && t != u
                                         && c in b.subscribers[t] && c in b.subscribers[u]))
  }

  function FireSend(b: BrokerState, p: PublicationId): BrokerState
    requires Enabled(b, Send(p))
  {
    var c := b.publications[p].todo[0];
    var served := b.(publications := b.publications[p := b.publications[p].(todo := b.publications[p].todo[1..])]);
    if IsOpen(b, c) then served.(channels := b.channels[c := Offer(b.channels[c], p)])
    else served.(panicked := true)
  }

  function Fire(b: BrokerState, s: HubStep): BrokerState
    requires Enabled(b, s)
  {
    match s
    case Subscribe(topic) =>
      if b.closed then b
      else
        b.(subscribers := b.subscribers[topic := Under(b, topic) + {|b.channels|}],
           channels := b.channels + [NewChannel(topic)])
    case Unsubscribe(c) => FireUnsubscribe(b, b.channels[c].topic, c)
    case Close => FireClose(b)
    case Begin(e, order) =>
      b.(publications := b.publications + [Publication(e, order, if b.closed then {} else Registered(b), true)])
    case Send(p) => FireSend(b, p)
    case End(p) => b.(publications := b.publications[p := b.publications[p].(active := false)])
    case Receive(c) => b.(channels := b.channels[c := Take(b.channels[c])])
  }

  ghost predicate IsRun(steps: seq<HubStep>, states: seq<BrokerState>) {
    && |states| == |steps| + 1
    && states[0] == START
    && forall i :: 0 <= i < |steps| ==> Enabled(states[i], steps[i]) && states[i + 1] == Fire(states[i], steps[i])
  }

  // ---------------------------------------------------------------- who is registered

  /** Every registered channel is open and under its own topic only; every open channel is
      registered; no topic entry is empty; a closed broker has no subscribers. */
  ghost predicate RegistryOk(b: BrokerState) {
    && (forall t :: t in b.subscribers ==> b.subscribers[t] != {})
    && (forall t, c :: t in b.subscribers && c in b.subscribers[t] ==> IsOpen(b, c) && b.channels[c].topic == t)
    && (forall c :: 0 <= c < |b.channels| && b.channels[c].open ==> c in Under(b, b.channels[c].topic))
    && (b.closed ==> b.subscribers == map[])
    && !b.panicked
  }

  /** While a publication runs, what it still has to serve is open. */
  ghost predicate TodoOpen(b: BrokerState) {
    && (forall p, c :: 0 <= p < |b.publications| && c in b.publications[p].todo ==> IsOpen(b, c))
    && (forall p :: 0 <= p < |b.publications| && !b.publications[p].active ==> b.publications[p].todo == [])
  }

  lemma SubscribeKeepsRegistry(b: BrokerState, topic: string)
    requires RegistryOk(b) && Enabled(b, Subscribe(topic))
    ensures RegistryOk(Fire(b, Subscribe(topic)))
  {
    var a, newest := Fire(b, Subscribe(topic)), |b.channels|;
    if !b.closed {
      forall t, c | t in a.subscribers && c in a.subscribers[t] ensures IsOpen(a, c) && a.channels[c].topic == t {
        if t != topic || c != newest {
          assert t in b.subscribers && c in b.subscribers[t];
          assert IsOpen(b, c);
        }
      }
      forall c | 0 <= c < |a.channels| && a.channels[c].open ensures c in Under(a, a.channels[c].topic) {
        if c != newest { assert c in Under(b, b.channels[c].topic); }
      }
      assert newest in a.subscribers[topic];
    }
  }

  lemma UnsubscribeKeepsRegistry(b: BrokerState, c: ChannelId)
    requires RegistryOk(b) && Enabled(b, Unsubscribe(c))
    ensures RegistryOk(Fire(b, Unsubscribe(c)))
  {
    hide RegistryOk;
    var t := b.channels[c].topic;
    if c in Under(b, t) {
      RegisteredLeaves(b, c);
    } else {
      StrangerLeaves(b, t, c);
    }
  }

  lemma StrangerLeaves(b: BrokerState, t: string, c: ChannelId)
    requires RegistryOk(b) && c !in Under(b, t)
    ensures FireUnsubscribe(b, t, c) == b
  {
    if t in b.subscribers {
      assert b.subscribers[t] - {c} == b.subscribers[t];
      assert b.subscribers[t := b.subscribers[t]] == b.subscribers;
    }
  }

  lemma RegisteredLeaves(b: BrokerState, c: ChannelId)
    requires RegistryOk(b) && c < |b.channels| && c in Under(b, b.channels[c].topic)
    ensures RegistryOk(FireUnsubscribe(b, b.channels[c].topic, c))
  {
    var t := b.channels[c].topic;
    var a := FireUnsubscribe(b, t, c);
    OthersStay(b, t, c);
    assert IsOpen(b, c);
    forall u, d | u in a.subscribers && d in a.subscribers[u] ensures IsOpen(a, d) && a.channels[d].topic == u {
      assert u in b.subscribers && d in b.subscribers[u] && d != c;
      assert IsOpen(b, d);
    }
    forall d | 0 <= d < |a.channels| && a.channels[d].open ensures d in Under(a, a.channels[d].topic) {
      assert d != c && d in Under(b, b.channels[d].topic);
    }
  }

  /** Ending one subscription takes its channel from its topic, shuts it, and does nothing else. */
  lemma OthersStay(b: BrokerState, t: string, c: ChannelId)
    requires c < |b.channels| && c in Under(b, t)
    ensures var a := FireUnsubscribe(b, t, c);
            && (forall u :: Under(a, u) == if u == t then Under(b, u) - {c} else Under(b, u))
            && |a.channels| == |b.channels| && !a.channels[c].open
            && (forall d :: 0 <= d < |a.channels| ==> a.channels[d].topic == b.channels[d].topic)
            && (forall d :: 0 <= d < |a.channels| && d != c ==> a.channels[d] == b.channels[d])
  {
  }

  lemma CloseKeepsRegistry(b: BrokerState)
    requires RegistryOk(b)
    ensures RegistryOk(FireClose(b))
  {
    var a := FireClose(b);
    forall c | 0 <= c < |a.channels| ensures !a.channels[c].open {
      if b.channels[c].open { assert c in Registered(b); }
    }
  }

  /** Only who is registered, and which channels are open, matters. */
  lemma SameRegistry(b: BrokerState, a: BrokerState)
    requires RegistryOk(b)
    requires a.subscribers == b.subscribers && a.closed == b.closed && a.panicked == b.panicked
    requires |a.channels| == |b.channels|
    requires forall c :: 0 <= c < |b.channels| ==>
               a.channels[c].open == b.channels[c].open && a.channels[c].topic == b.channels[c].topic
    ensures RegistryOk(a)
  {
    forall t, c | t in a.subscribers && c in a.subscribers[t] ensures IsOpen(a, c) && a.channels[c].topic == t {
      assert IsOpen(b, c);
    }
    forall c | 0 <= c < |a.channels| && a.channels[c].open ensures c in Under(a, a.channels[c].topic) {
      assert c in Under(b, b.channels[c].topic);
    }
  }

  lemma FirstIsOpen(b: BrokerState, p: PublicationId)
    requires TodoOpen(b) && Enabled(b, Send(p))
    ensures IsOpen(b, b.publications[p].todo[0])
  {
    assert b.publications[p].todo[0] in b.publications[p].todo;
  }

  lemma FireKeepsRegistry(b: BrokerState, s: HubStep)
    requires RegistryOk(b) && TodoOpen(b) && Enabled(b, s)
    ensures RegistryOk(Fire(b, s))
  {
    hide RegistryOk, TodoOpen;
    match s {
      case Subscribe(topic) => SubscribeKeepsRegistry(b, topic);
      case Unsubscribe(c) => UnsubscribeKeepsRegistry(b, c);
      case Close => CloseKeepsRegistry(b);
      case Send(p) => FirstIsOpen(b, p); SameRegistry(b, Fire(b, s));
      case _ => SameRegistry(b, Fire(b, s));
    }
  }

  lemma CollectedIsOpen(b: BrokerState, e: Event, order: seq<ChannelId>)
    requires RegistryOk(b) && multiset(order) == Collected(b, e)
    ensures forall c :: c in order ==> IsOpen(b, c)
  {
    forall c | c in order ensures IsOpen(b, c) {
      assert c in multiset(order);
      assert c in Under(b, Topic(e)) || c in Under(b, e.namespace) || c in Under(b, ALL);
    }
  }

  lemma FireKeepsTodo(b: BrokerState, s: HubStep)
    requires RegistryOk(b) && TodoOpen(b) && Enabled(b, s)
    ensures TodoOpen(Fire(b, s))
  {
    hide RegistryOk, Collected, Registered;
    match s {
      case Begin(e, order) => CollectedIsOpen(b, e, order); BeginKeepsTodo(b, e, order);
      case Send(p) => SendKeepsTodo(b, p);
      case Unsubscribe(_) => NobodyServed(b, Fire(b, s));
      case Close => NobodyServed(b, Fire(b, s));
      case _ => SameTodo(b, Fire(b, s));
    }
  }

  lemma SameTodo(b: BrokerState, a: BrokerState)
    requires TodoOpen(b) && |a.publications| == |b.publications|
    requires forall p :: 0 <= p < |a.publications| ==>
               a.publications[p].todo == b.publications[p].todo
               && (a.publications[p].active == b.publications[p].active || b.publications[p].todo == [])
    requires forall c :: IsOpen(b, c) ==> IsOpen(a, c)
    ensures TodoOpen(a)
  {
    forall p, c | 0 <= p < |a.publications| && c in a.publications[p].todo ensures IsOpen(a, c) {
      assert c in b.publications[p].todo;
    }
  }

  lemma BeginKeepsTodo(b: BrokerState, e: Event, order: seq<ChannelId>)
    requires TodoOpen(b) && Enabled(b, Begin(e, order)) && forall c :: c in order ==> IsOpen(b, c)
    ensures TodoOpen(Fire(b, Begin(e, order)))
  {
    hide Collected, Registered;
    var a := Fire(b, Begin(e, order));
    forall p, c | 0 <= p < |a.publications| && c in a.publications[p].todo ensures IsOpen(a, c) {
      if p < |b.publications| { assert c in b.publications[p].todo; } else { assert c in order; }
      assert IsOpen(b, c);
    }
  }

  lemma SendKeepsTodo(b: BrokerState, p: PublicationId)
    requires TodoOpen(b) && Enabled(b, Send(p))
    ensures TodoOpen(Fire(b, Send(p)))
  {
    FirstIsOpen(b, p);
    var a := Fire(b, Send(p));
    forall q, c | 0 <= q < |a.publications| && c in a.publications[q].todo ensures IsOpen(a, c) {
      assert c in b.publications[q].todo;
      assert IsOpen(b, c);
    }
  }

  lemma NobodyServed(b: BrokerState, a: BrokerState)
    requires TodoOpen(b) && NoReaders(b) && a.publications == b.publications
    ensures TodoOpen(a)
  {
  }

  lemma {:induction false} RunKeepsRegistry(steps: seq<HubStep>, states: seq<BrokerState>, n: nat)
    requires IsRun(steps, states) && n < |states|
    ensures RegistryOk(states[n]) && TodoOpen(states[n])
  {
    hide RegistryOk, TodoOpen, Enabled, Fire;
    if n == 0 {
      NothingAtStart();
    } else {
      RunKeepsRegistry(steps, states, n - 1);
      FireKeepsRegistry(states[n - 1], steps[n - 1]);
      FireKeepsTodo(states[n - 1], steps[n - 1]);
    }
  }

  lemma NothingAtStart()
    ensures RegistryOk(START) && TodoOpen(START)
  {
  }

  /** No run sends on a closed channel or closes one twice, whatever is repeated or comes after Close. */
  lemma NeverPanics(steps: seq<HubStep>, states: seq<BrokerState>, n: nat)
    requires IsRun(steps, states) && n < |states|
    ensures !states[n].panicked
    ensures forall t, c :: t in states[n].subscribers && c in states[n].subscribers[t] ==> IsOpen(states[n], c)
    ensures forall p, c :: 0 <= p < |states[n].publications| && c in states[n].publications[p].todo ==> IsOpen(states[n], c)
    ensures forall c :: 0 <= c < |states[n].channels| && states[n].channels[c].open ==>
              forall t :: t in states[n].subscribers ==> (c in states[n].subscribers[t] <==> t == states[n].channels[c].topic)
    ensures states[n].closed ==> forall c :: 0 <= c < |states[n].channels| ==> !states[n].channels[c].open
  {
    hide IsRun;
    RunKeepsRegistry(steps, states, n);
  }

  // ---------------------------------------------------------------- what can happen

  /** A publication can begin at any time, in any order of what it collects, and can go on to its end;
      readers can take what is buffered; the lock can be had once nobody publishes. */
  lemma StepsCanHappen(b: BrokerState, e: Event, order: seq<ChannelId>, p: PublicationId, c: ChannelId, topic: string)
    ensures multiset(order) == Collected(b, e) ==> Enabled(b, Begin(e, order))
    ensures p < |b.publications| && b.publications[p].active ==> Enabled(b, if b.publications[p].todo == [] then End(p) else Send(p))
    ensures c < |b.channels| && b.channels[c].buffer != [] ==> Enabled(b, Receive(c))
    ensures (forall q :: 0 <= q < |b.publications| ==> !b.publications[q].active) ==>
              Enabled(b, Subscribe(topic)) && Enabled(b, Close) && (c < |b.channels| ==> Enabled(b, Unsubscribe(c)))
  {
    hide Collected;
  }

  // ---------------------------------------------------------------- after closing

  lemma FireKeepsClosed(b: BrokerState, s: HubStep)
    requires Enabled(b, s) && b.closed
    ensures Fire(b, s).closed && |Fire(b, s).channels| == |b.channels|
  {
    hide Collected, Registered;
  }

  /** After a close every channel is shut, and from then on none is opened and none is ever added. */
  lemma {:induction false} ClosedForGood(steps: seq<HubStep>, states: seq<BrokerState>, i: nat, n: nat)
    requires IsRun(steps, states) && i < n < |states| && steps[i] == Close
    ensures states[n].closed && states[n].subscribers == map[] && |states[n].channels| == |states[i].channels|
    ensures forall c :: 0 <= c < |states[n].channels| ==> !states[n].channels[c].open
    decreases n
  {
    hide Fire, Enabled, RegistryOk, TodoOpen;
    RunKeepsRegistry(steps, states, n);
    if i + 1 < n {
      ClosedForGood(steps, states, i, n - 1);
      FireKeepsClosed(states[n - 1], steps[n - 1]);
    } else {
      CloseCloses(states[i]);
    }
    ClosedMeansShut(states[n]);
  }

  lemma CloseCloses(b: BrokerState)
    requires Enabled(b, Close)
    ensures Fire(b, Close).closed && |Fire(b, Close).channels| == |b.channels|
  {
    hide Collected, Registered;
  }

  lemma ClosedMeansShut(b: BrokerState)
    requires RegistryOk(b) && b.closed
    ensures b.subscribers == map[] && forall c :: 0 <= c < |b.channels| ==> !b.channels[c].open
  {
  }
}
