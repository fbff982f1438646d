/** The broker as it runs: maps of channel sets, changed in place under its lock.

    Sending and closing demand an open channel; the methods are proved to meet that demand. */
module EventBroker {
  import opened Options
  import opened Events

  class EventChannel {
    var state: Channel<Event>

    constructor (topic: string)
      ensures state == NewChannel(topic)
    {
      state := NewChannel(topic);
    }

    /** A send in a select with a default branch. */
    method Send(e: Event)
      requires state.open
      modifies this
      ensures state == Offer(old(state), e)
    {
      if |state.buffer| < CAPACITY {
        state := state.(buffer := state.buffer + [e], offered := state.offered + [e]);
      } else {
        state := state.(offered := state.offered + [e], dropped := state.dropped + 1);
      }
    }

    method Shut()
      requires state.open
      modifies this
      ensures state == old(state).(open := false)
    {
      state := state.(open := false);
    }
  }

  datatype Subscription = Subscription(topic: string, channel: EventChannel)

  class Broker {
    var subscribers: map<string, set<EventChannel>>
    var closed: bool
    ghost var registered: set<EventChannel>

    constructor ()
      ensures Valid() && !closed && subscribers == map[] && registered == {}
    {
      subscribers, closed, registered := map[], false, {};
    }

    function Under(topic: string): set<EventChannel>
      reads this
    {
      if topic in subscribers then subscribers[topic] else {}
    }

    /** Registered channels are open and under their own topic, no topic is empty, a closed broker
        has no subscribers. */
    ghost predicate Valid()
      reads this, registered
    {
      && (forall t :: t in subscribers ==> subscribers[t] != {})
      && (forall t, c :: t in subscribers && c in subscribers[t] ==> c in registered && c.state.topic == t)
      && (forall c :: c in registered ==> c.state.open && c in Under(c.state.topic))
      && (closed ==> subscribers == map[])
    }

    method Subscribe(topic: string) returns (subscription: Option<Subscription>)
      requires Valid()
      modifies this
      ensures Valid() && closed == old(closed)
      ensures closed ==> subscription.None? && subscribers == old(subscribers) && registered == old(registered)
      ensures !closed ==>
                && subscription.Some? && subscription.value.topic == topic
                && fresh(subscription.value.channel) && subscription.value.channel.state == NewChannel(topic)
                && subscribers == old(subscribers)[topic := old(Under(topic)) + {subscription.value.channel}]
                && registered == old(registered) + {subscription.value.channel}
    {
      if closed {
        return None;
      }
      var channel := new EventChannel(topic);
      subscribers := subscribers[topic := Under(topic) + {channel}];
      registered := registered + {channel};
      return Some(Subscription(topic, channel));
    }

    /** Any subscription may be ended any number of times, also after the broker was closed. */
    method Unsubscribe(s: Subscription)
      requires Valid() && s.channel.state.topic == s.topic
      modifies this, s.channel
      ensures Valid() && closed == old(closed)
      ensures s.channel.state == if s.channel in old(registered) then old(s.channel.state).(open := false) else old(s.channel.state)
      ensures registered == old(registered) - {s.channel}
      ensures forall t :: Under(t) == old(Under(t)) - {s.channel}
    {
      if s.topic in subscribers {
        var under := subscribers[s.topic];
        if s.channel in under {
          under := under - {s.channel};
          registered := registered - {s.channel};
          s.channel.Shut();
        }
        subscribers := if under == {} then subscribers - {s.topic} else subscribers[s.topic := under];
        assert forall t :: Under(t) == old(Under(t)) - {s.channel};
      }
    }

    method Collect(into: seq<EventChannel>, topic: string) returns (channels: seq<EventChannel>)
      ensures multiset(channels) == multiset(into) + multiset(Under(topic))
    {
      channels := into;
      var todo := Under(topic);
      while todo != {}
        invariant todo <= Under(topic)
        invariant multiset(channels) == multiset(into) + multiset(Under(topic) - todo)
        decreases |todo|
      {
        var c :| c in todo;
        assert Under(topic) - (todo - {c}) == (Under(topic) - todo) + {c};
        channels := channels + [c];
        todo := todo - {c};
      }
      assert Under(topic) - todo == Under(topic);
    }

    /** Every subscriber is offered the event as often as its topic calls for. Away from "*", those
        it concerns have it as their newest message if they had room, and the others are left alone. */
    method Publish(e: Event)
      requires Valid()
      modifies registered
      ensures Valid()
      ensures forall c :: c in registered ==> c.state == OfferTimes(old(c.state), e, Copies(e, old(c.state.topic)))
      ensures Topic(e) != ALL && e.namespace != ALL ==>
                forall c :: c in registered ==> DeliveredOnce(old(c.state), c.state, e, Concerns(e, old(c.state.topic)))
    {
      hide Copies, Offer, DeliveredOnce, Concerns, Topic;
      if closed {
        return;
      }
      var channels: seq<EventChannel> := CollectAll(e);
      CollectedOnlyRegistered(e, channels);
      SendAll(e, channels);
      forall c | c in registered ensures c.state == OfferTimes(old(c.state), e, Copies(e, old(c.state.topic))) {
        if c !in channels { assert multiset(channels)[c] == 0; }
      }
      if Topic(e) != ALL && e.namespace != ALL {
        forall c | c in registered ensures DeliveredOnce(old(c.state), c.state, e, Concerns(e, old(c.state.topic))) {
          CopiesDeliverOnce(old(c.state), e, e);
        }
      }
    }

    method CollectAll(e: Event) returns (channels: seq<EventChannel>)
      ensures multiset(channels)
           == multiset(Under(Topic(e)))
              + (if e.namespace != "" && Topic(e) != e.namespace then multiset(Under(e.namespace)) else multiset{})
              + multiset(Under(ALL))
    {
      hide Under, Topic;
      channels := Collect([], Topic(e));
      if e.namespace != "" && Topic(e) != e.namespace {
        channels := Collect(channels, e.namespace);
      }
      channels := Collect(channels, ALL);
    }

    lemma CollectedOnlyRegistered(e: Event, channels: seq<EventChannel>)
      requires Valid()
      requires multiset(channels)
            == multiset(Under(Topic(e)))
               + (if e.namespace != "" && Topic(e) != e.namespace then multiset(Under(e.namespace)) else multiset{})
               + multiset(Under(ALL))
      ensures forall c :: c in channels ==> c in registered
      ensures forall c :: c in registered ==> multiset(channels)[c] == Copies(e, c.state.topic)
    {
      forall c | c in channels ensures c in registered {
        assert c in multiset(channels);
        assert c in Under(Topic(e)) || c in Under(e.namespace) || c in Under(ALL);
      }
      forall c | c in registered ensures multiset(channels)[c] == Copies(e, c.state.topic) {
        OwnTopicOnly(c, Topic(e));
        OwnTopicOnly(c, e.namespace);
        OwnTopicOnly(c, ALL);
      }
    }

    lemma OwnTopicOnly(c: EventChannel, t: string)
      requires Valid() && c in registered
      ensures c in Under(t) <==> t == c.state.topic
    {
    }

    /** Channels of topics that are gone are shut, the others are as they were. */
    ghost predicate PartlyClosed(was: map<EventChannel, Channel<Event>>)
      reads this, registered
    {
      && registered == was.Keys
      && (forall t, c :: t in subscribers && c in subscribers[t] ==> c in was && was[c].topic == t)
      && (forall c :: c in was && was[c].topic in subscribers ==> c in subscribers[was[c].topic])
      && (forall c :: c in was ==>
            c.state == if was[c].topic in subscribers then was[c] else was[c].(open := false))
    }

    method CloseTopic(topic: string, ghost was: map<EventChannel, Channel<Event>>)
      requires PartlyClosed(was) && topic in subscribers
      requires forall c :: c in was ==> was[c].open
      modifies this`subscribers, registered
      ensures PartlyClosed(was) && subscribers == old(subscribers) - {topic}
    {
      ShutAll(subscribers[topic]);
      subscribers := subscribers - {topic};
    }

    /** Closing ends every subscription, and closing again does nothing. */
    method Close()
      requires Valid()
      modifies this, registered
      ensures Valid() && closed && subscribers == map[] && registered == {}
      ensures forall c :: c in old(registered) ==> c.state == old(c.state).(open := false)
    {
      closed := true;
      ghost var was := map c | c in registered :: c.state;
      CloseTopics(was);
      registered := {};
    }

    method CloseTopics(ghost was: map<EventChannel, Channel<Event>>)
      requires PartlyClosed(was) && forall c :: c in was ==> was[c].open
      modifies this`subscribers, registered
      ensures PartlyClosed(was) && subscribers == map[]
    {
      hide PartlyClosed;
      var topics := subscribers.Keys;
      while topics != {}
        invariant topics == subscribers.Keys && PartlyClosed(was)
        decreases |topics|
      {
        var t :| t in topics;
        CloseTopic(t, was);
        topics := topics - {t};
      }
      assert subscribers == map[];
    }
  }

  method SendAll(e: Event, channels: seq<EventChannel>)
    requires forall c :: c in channels ==> c.state.open
    modifies channels
    ensures forall c :: c in channels ==> c.state == OfferTimes(old(c.state), e, multiset(channels)[c])
  {
    hide Offer;
    for i := 0 to |channels|
      invariant forall c :: c in channels ==> c.state == OfferTimes(old(c.state), e, multiset(channels[..i])[c])
    {
      assert channels[..i + 1] == channels[..i] + [channels[i]];
      assert channels[i] in channels;
      channels[i].Send(e);
    }
    assert channels[..|channels|] == channels;
  }

  method ShutAll(channels: set<EventChannel>)
    requires forall c :: c in channels ==> c.state.open
    modifies channels
    ensures forall c :: c in channels ==> c.state == old(c.state).(open := false)
  {
    var todo := channels;
    while todo != {}
      invariant todo <= channels
      invariant forall c :: c in channels ==> c.state == if c in todo then old(c.state) else old(c.state).(open := false)
      decreases |todo|
    {
      var c :| c in todo;
      c.Shut();
      todo := todo - {c};
    }
  }
}
