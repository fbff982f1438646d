/** What subscribers get: every matching event offered once, in order, within a bounded buffer. */
module Delivery {
  import opened Events
  import opened Hub

  // ---------------------------------------------------------------- channels stay faithful

  ghost predicate ChannelsFaithful(b: BrokerState) {
    forall c :: 0 <= c < |b.channels| ==> Faithful(b.channels[c])
  }

  lemma ClosingKeepsFaithful(channels: seq<Channel<PublicationId>>, gone: set<ChannelId>)
    requires forall c :: 0 <= c < |channels| ==> Faithful(channels[c])
    ensures forall c :: 0 <= c < |channels| ==> Faithful(CloseChannels(channels, gone)[c])
  {
    hide Subsequence;
    var after := CloseChannels(channels, gone);
    forall c | 0 <= c < |after| ensures Faithful(after[c]) { assert Faithful(channels[c]); }
  }

  lemma FireKeepsFaithful(b: BrokerState, s: HubStep)
    requires ChannelsFaithful(b) && Enabled(b, s)
    ensures ChannelsFaithful(Fire(b, s))
  {
    hide Collected, Registered;
    match s {
      case Unsubscribe(c) => hide Faithful; ClosingKeepsFaithful(b.channels, {c});
      case Close => hide Faithful; ClosingKeepsFaithful(b.channels, Registered(b));
      case Send(p) =>
        hide Faithful;
        var c := b.publications[p].todo[0];
        if IsOpen(b, c) { OfferKeepsFaithful(b.channels[c], p); }
      case Receive(c) => hide Faithful; TakeKeepsFaithful(b.channels[c]);
      case _ =>
    }
  }

  /** In every run each subscriber has received, in order, a part of what it was offered; the rest
      is in its buffer of at most 16 or was dropped, and the three add up. */
  lemma {:induction false} RunKeepsFaithful(steps: seq<HubStep>, states: seq<BrokerState>, n: nat)
    requires IsRun(steps, states) && n < |states|
    ensures ChannelsFaithful(states[n])
  {
    hide ChannelsFaithful, Enabled, Fire;
    if n == 0 {
      FaithfulAtStart();
    } else {
      RunKeepsFaithful(steps, states, n - 1);
      FireKeepsFaithful(states[n - 1], steps[n - 1]);
    }
  }

  lemma FaithfulAtStart()
    ensures ChannelsFaithful(START)
  {
  }

  /** A reader takes the oldest message that is buffered for it, and nothing else changes. */
  lemma ReceiveTakesOldest(b: BrokerState, c: ChannelId)
    requires Enabled(b, Receive(c))
    ensures var a := Fire(b, Receive(c));
            && a == b.(channels := a.channels) && |a.channels| == |b.channels|
            && (forall d :: 0 <= d < |a.channels| && d != c ==> a.channels[d] == b.channels[d])
            && [b.channels[c].buffer[0]] + a.channels[c].buffer == b.channels[c].buffer
            && a.channels[c].received == b.channels[c].received + [b.channels[c].buffer[0]]
            && a.channels[c] == b.channels[c].(buffer := a.channels[c].buffer, received := a.channels[c].received)
  {
    hide Collected, Registered;
    assert [b.channels[c].buffer[0]] + b.channels[c].buffer[1..] == b.channels[c].buffer;
  }

  /** The state after the reader of a channel has taken everything. */
  ghost function Drained(b: BrokerState, c: ChannelId): BrokerState
    requires c < |b.channels|
    decreases |b.channels[c].buffer|
  {
    if b.channels[c].buffer == [] then b
    else
      ReceiveTakesOldest(b, c);
      Drained(Fire(b, Receive(c)), c)
  }

  /** Reading on, a reader gets exactly what is buffered, in order, also after its channel was closed. */
  lemma {:induction false} DrainingDelivers(b: BrokerState, c: ChannelId)
    requires c < |b.channels|
    ensures var a := Drained(b, c);
            c < |a.channels| && a.channels[c].buffer == [] && a.channels[c].received == b.channels[c].received + b.channels[c].buffer
    decreases |b.channels[c].buffer|
  {
    hide Fire, Enabled;
    if b.channels[c].buffer != [] {
      CanReceive(b, c);
      ReceiveTakesOldest(b, c);
      DrainingDelivers(Fire(b, Receive(c)), c);
    }
  }

  lemma CanReceive(b: BrokerState, c: ChannelId)
    requires c < |b.channels| && b.channels[c].buffer != []
    ensures Enabled(b, Receive(c))
  {
  }

  /** A step drops a message only on a full buffer. */
  lemma DropsOnlyWhenFull(b: BrokerState, s: HubStep, c: ChannelId)
    requires Enabled(b, s) && c < |b.channels|
    ensures c < |Fire(b, s).channels|
    ensures Fire(b, s).channels[c].dropped
         == b.channels[c].dropped
            + (if s.Send? && b.publications[s.publication].todo[0] == c && b.channels[c].open
                  && |b.channels[c].buffer| >= CAPACITY then 1 else 0)
  {
    hide Collected, Registered;
  }

  predicate SendsTo(b: BrokerState, s: HubStep, c: ChannelId) {
    s.Send? && s.publication < |b.publications| && b.publications[s.publication].todo != []
    && b.publications[s.publication].todo[0] == c
  }

  /** A subscriber whose backlog is below 16 at every send gets everything it is offered. */
  lemma {:induction false} NothingDroppedBelowCapacity(steps: seq<HubStep>, states: seq<BrokerState>, n: nat, c: ChannelId)
    requires IsRun(steps, states) && n < |states| && c < |states[n].channels|
    requires forall i :: 0 <= i < n && SendsTo(states[i], steps[i], c) && c < |states[i].channels| ==>
               |states[i].channels[c].buffer| < CAPACITY
    ensures states[n].channels[c].dropped == 0
    ensures states[n].channels[c].received + states[n].channels[c].buffer == states[n].channels[c].offered
  {
    hide Fire, Enabled;
    RunKeepsFaithful(steps, states, n);
    assert Faithful(states[n].channels[c]);
    if n > 0 {
      var before := states[n - 1];
      if c < |before.channels| {
        NothingDroppedBelowCapacity(steps, states, n - 1, c);
        SendIsEnabled(before, steps[n - 1]);
        DropsOnlyWhenFull(before, steps[n - 1], c);
      } else {
        NewChannelIsEmpty(before, steps[n - 1], c);
      }
    }
  }

  lemma SendIsEnabled(b: BrokerState, s: HubStep)
    requires Enabled(b, s)
    ensures s.Send? ==> s.publication < |b.publications| && b.publications[s.publication].todo != []
  {
  }

  lemma NewChannelIsEmpty(b: BrokerState, s: HubStep, c: ChannelId)
    requires Enabled(b, s) && |b.channels| <= c < |Fire(b, s).channels|
    ensures Fire(b, s).channels[c].dropped == 0 && Fire(b, s).channels[c].offered == []
  {
    hide Collected, Registered;
  }

  // ---------------------------------------------------------------- offered exactly once

  /** Offers made to a channel and offers still to be made add up to what the event calls for. */
  ghost predicate Accounted(b: BrokerState, p: PublicationId, c: ChannelId)
    requires p < |b.publications| && c < |b.channels|
  {
    var pub := b.publications[p];
    multiset(b.channels[c].offered)[p] + multiset(pub.todo)[c]
    == if c in pub.audience then Copies(pub.event, b.channels[c].topic) else 0
  }

  ghost predicate OffersOk(b: BrokerState) {
    && (forall p, c :: 0 <= p < |b.publications| && 0 <= c < |b.channels| ==> Accounted(b, p, c))
    && (forall p, c :: 0 <= p < |b.publications| && c in b.publications[p].audience ==> c < |b.channels|)
    && (forall c, p :: 0 <= c < |b.channels| && p in b.channels[c].offered ==> p < |b.publications|)
  }

  /** A publication collects each registered channel as often as its topic calls for. */
  lemma CollectedCounts(b: BrokerState, e: Event, c: ChannelId)
    requires RegistryOk(b) && c < |b.channels|
    ensures Collected(b, e)[c] == if !b.closed && c in Registered(b) then Copies(e, b.channels[c].topic) else 0
  {
    UnderOwnTopic(b, c, Topic(e));
    UnderOwnTopic(b, c, e.namespace);
    UnderOwnTopic(b, c, ALL);
  }

  lemma UnderOwnTopic(b: BrokerState, c: ChannelId, t: string)
    requires RegistryOk(b) && c < |b.channels|
    ensures c in Under(b, t) <==> c in Registered(b) && t == b.channels[c].topic
  {
    if c in Registered(b) {
      var u :| u in b.subscribers && c in b.subscribers[u];
      assert b.channels[c].topic == u;
    }
  }

  lemma BeginKeepsOffers(b: BrokerState, e: Event, order: seq<ChannelId>)
    requires OffersOk(b) && RegistryOk(b) && Enabled(b, Begin(e, order))
    ensures OffersOk(Fire(b, Begin(e, order)))
  {
    hide Collected;
    var a := Fire(b, Begin(e, order));
    forall p, c | 0 <= p < |a.publications| && 0 <= c < |a.channels| ensures Accounted(a, p, c) {
      if p < |b.publications| {
        assert Accounted(b, p, c);
      } else {
        CollectedCounts(b, e, c);
        assert p !in b.channels[c].offered;
      }
    }
    forall c | c in Registered(b) ensures c < |b.channels| {
      var u :| u in b.subscribers && c in b.subscribers[u];
      assert IsOpen(b, c);
    }
  }

  lemma SendAccounts(b: BrokerState, p: PublicationId, q: PublicationId, c: ChannelId)
    requires Enabled(b, Send(p)) && IsOpen(b, b.publications[p].todo[0])
    requires q < |b.publications| && c < |b.channels| && Accounted(b, q, c)
    ensures Accounted(Fire(b, Send(p)), q, c)
  {
    hide Copies;
    var todo := b.publications[p].todo;
    assert todo == [todo[0]] + todo[1..];
    assert multiset(todo) == multiset{todo[0]} + multiset(todo[1..]);
  }

  lemma SendKeepsOffers(b: BrokerState, p: PublicationId)
    requires OffersOk(b) && TodoOpen(b) && Enabled(b, Send(p))
    ensures OffersOk(Fire(b, Send(p)))
  {
    FirstIsOpen(b, p);
    var a := Fire(b, Send(p));
    SendShape(b, p);
    hide Accounted, Fire, Enabled, TodoOpen;
    forall q, c | 0 <= q < |a.publications| && 0 <= c < |a.channels| ensures Accounted(a, q, c) {
      SendAccounts(b, p, q, c);
    }
    forall c, q | 0 <= c < |a.channels| && q in a.channels[c].offered ensures q < |a.publications| {
      if q != p { assert q in b.channels[c].offered; }
    }
  }

  lemma SendShape(b: BrokerState, p: PublicationId)
    requires Enabled(b, Send(p)) && IsOpen(b, b.publications[p].todo[0])
    ensures var a := Fire(b, Send(p));
            && p < |a.publications| == |b.publications| && |a.channels| == |b.channels|
            && (forall q :: 0 <= q < |b.publications| ==> a.publications[q].audience == b.publications[q].audience)
            && (forall c :: 0 <= c < |b.channels| ==>
                  a.channels[c].offered == b.channels[c].offered || a.channels[c].offered == b.channels[c].offered + [p])
  {
  }

  lemma SubscribeKeepsOffers(b: BrokerState, topic: string)
    requires OffersOk(b) && TodoOpen(b) && Enabled(b, Subscribe(topic))
    ensures OffersOk(Fire(b, Subscribe(topic)))
  {
    var a := Fire(b, Subscribe(topic));
    forall p, c | 0 <= p < |a.publications| && 0 <= c < |a.channels| ensures Accounted(a, p, c) {
      if c < |b.channels| { assert Accounted(b, p, c); }
    }
  }

  /** Steps that touch neither offers nor publications. */
  lemma SameOffers(b: BrokerState, a: BrokerState)
    requires OffersOk(b) && |a.channels| == |b.channels| && |a.publications| == |b.publications|
    requires forall c :: 0 <= c < |b.channels| ==>
               a.channels[c].offered == b.channels[c].offered && a.channels[c].topic == b.channels[c].topic
    requires forall p :: 0 <= p < |b.publications| ==>
               a.publications[p].(active := b.publications[p].active) == b.publications[p]
    ensures OffersOk(a)
  {
    forall p, c | 0 <= p < |a.publications| && 0 <= c < |a.channels| ensures Accounted(a, p, c) {
      assert Accounted(b, p, c);
    }
  }

  lemma FireKeepsOffers(b: BrokerState, s: HubStep)
    requires OffersOk(b) && RegistryOk(b) && TodoOpen(b) && Enabled(b, s)
    ensures OffersOk(Fire(b, s))
  {
    hide OffersOk, RegistryOk, TodoOpen, Collected, Registered;
    match s {
      case Subscribe(topic) => SubscribeKeepsOffers(b, topic);
      case Begin(e, order) => BeginKeepsOffers(b, e, order);
      case Send(p) => SendKeepsOffers(b, p);
      case _ => SameOffers(b, Fire(b, s));
    }
  }

  lemma OffersAtStart()
    ensures OffersOk(START)
  {
  }

  lemma {:induction false} RunKeepsOffers(steps: seq<HubStep>, states: seq<BrokerState>, n: nat)
    requires IsRun(steps, states) && n < |states|
    ensures OffersOk(states[n])
  {
    hide OffersOk, RegistryOk, TodoOpen, Enabled, Fire;
    if n == 0 {
      OffersAtStart();
    } else {
      RunKeepsOffers(steps, states, n - 1);
      RunKeepsRegistry(steps, states, n - 1);
      FireKeepsOffers(states[n - 1], steps[n - 1]);
    }
  }

  /** A finished publication was offered to each channel subscribed when it began as often as the
      channel's topic calls for, and to no other channel. */
  lemma FinishedPublicationsWereOffered(steps: seq<HubStep>, states: seq<BrokerState>, n: nat, p: PublicationId, c: ChannelId)
    requires IsRun(steps, states) && n < |states|
    requires p < |states[n].publications| && !states[n].publications[p].active && c < |states[n].channels|
    ensures var pub := states[n].publications[p];
            multiset(states[n].channels[c].offered)[p]
            == if c in pub.audience then Copies(pub.event, states[n].channels[c].topic) else 0
  {
    hide IsRun, RegistryOk;
    RunKeepsOffers(steps, states, n);
    RunKeepsRegistry(steps, states, n);
    assert Accounted(states[n], p, c);
  }

  /** For events away from the wildcard that is once if the topic, the namespace or "*" was subscribed to. */
  lemma OfferedExactlyOnce(steps: seq<HubStep>, states: seq<BrokerState>, n: nat, p: PublicationId, c: ChannelId)
    requires IsRun(steps, states) && n < |states|
    requires p < |states[n].publications| && !states[n].publications[p].active && c < |states[n].channels|
    requires var e := states[n].publications[p].event; Topic(e) != ALL && e.namespace != ALL
    ensures var pub, topic := states[n].publications[p], states[n].channels[c].topic;
            multiset(states[n].channels[c].offered)[p]
            == if c in pub.audience && (topic == Topic(pub.event) || topic == ALL
                                        || (pub.event.namespace != "" && topic == pub.event.namespace)) then 1 else 0
  {
    hide IsRun, Copies;
    FinishedPublicationsWereOffered(steps, states, n, p, c);
    OfferedOnce(states[n].publications[p].event, states[n].channels[c].topic);
  }

  // ---------------------------------------------------------------- the order of publications

  /** Later states only add offers, and none of a publication that had finished. */
  ghost predicate OffersGrow(b: BrokerState, a: BrokerState, c: ChannelId, p: PublicationId) {
    && c < |b.channels| && c < |a.channels| && p < |b.publications| && p < |a.publications|
    && b.channels[c].offered <= a.channels[c].offered
    && p !in a.channels[c].offered[|b.channels[c].offered|..]
    && !a.publications[p].active
  }

  lemma FireGrowsOffers(b: BrokerState, s: HubStep, c: ChannelId, p: PublicationId)
    requires Enabled(b, s) && c < |b.channels| && p < |b.publications| && !b.publications[p].active
    ensures OffersGrow(b, Fire(b, s), c, p)
  {
    hide Collected, Registered;
  }

  lemma OffersGrowTransitive(x: BrokerState, y: BrokerState, z: BrokerState, c: ChannelId, p: PublicationId)
    requires OffersGrow(x, y, c, p) && OffersGrow(y, z, c, p)
    ensures OffersGrow(x, z, c, p)
  {
    var a, b, d := x.channels[c].offered, y.channels[c].offered, z.channels[c].offered;
    assert d[|a|..] == b[|a|..] + d[|b|..];
  }

  lemma {:induction false} OffersGrowOverRun(steps: seq<HubStep>, states: seq<BrokerState>, i: nat, j: nat, c: ChannelId, p: PublicationId)
    requires IsRun(steps, states) && i <= j < |states|
    requires c < |states[i].channels| && p < |states[i].publications| && !states[i].publications[p].active
    ensures OffersGrow(states[i], states[j], c, p)
    decreases j
  {
    hide Enabled, Fire;
    if i < j {
      hide OffersGrow;
      OffersGrowOverRun(steps, states, i, j - 1, c, p);
      StillThere(states[i], states[j - 1], c, p);
      FireGrowsOffers(states[j - 1], steps[j - 1], c, p);
      OffersGrowTransitive(states[i], states[j - 1], states[j], c, p);
    }
  }

  lemma StillThere(b: BrokerState, a: BrokerState, c: ChannelId, p: PublicationId)
    requires OffersGrow(b, a, c, p)
    ensures c < |a.channels| && p < |a.publications| && !a.publications[p].active
  {
  }

  /** When publication p had finished before q began, every subscriber is offered p before q. */
  lemma FinishedFirstIsOfferedFirst(steps: seq<HubStep>, states: seq<BrokerState>, i: nat, j: nat, c: ChannelId,
                                    p: PublicationId, q: PublicationId, x: nat, y: nat)
    requires IsRun(steps, states) && i <= j < |states| && c < |states[i].channels| && c < |states[j].channels|
    requires p < |states[i].publications| && !states[i].publications[p].active && q >= |states[i].publications|
    requires x < |states[j].channels[c].offered| && states[j].channels[c].offered[x] == p
    requires y < |states[j].channels[c].offered| && states[j].channels[c].offered[y] == q
    ensures x < y
  {
    hide IsRun, Accounted;
    OffersGrowOverRun(steps, states, i, j, c, p);
    RunKeepsOffers(steps, states, i);
    var early, late := states[i].channels[c].offered, states[j].channels[c].offered;
    SplitPositions(early, late, p, q, x, y);
  }

  lemma SplitPositions<M>(early: seq<M>, late: seq<M>, p: M, q: M, x: nat, y: nat)
    requires early <= late && p !in late[|early|..] && q !in early
    requires x < |late| && late[x] == p && y < |late| && late[y] == q
    ensures x < y
  {
    assert forall k :: |early| <= k < |late| ==> late[k] == late[|early|..][k - |early|];
    assert forall k :: 0 <= k < |early| ==> late[k] == early[k];
  }
}
