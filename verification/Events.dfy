/** Catalog events, the topics they are published under, and what a subscription channel does. */
module Events {

  /** What routes an event; its type, time and payload play no part. */
  datatype Event = Event(namespace: string, table: string, view: string)

  const ALL := "*"

  function Topic(e: Event): string {
    if e.table != "" then e.namespace + "/" + e.table
    else if e.view != "" then e.namespace + "/" + e.view
    else if e.namespace != "" then e.namespace
    else ALL
  }

  /** How many times `Publish` collects a channel subscribed to this topic: once for the exact topic,
      once for the namespace when the topic is below it, once for all events. */
  function Copies(e: Event, subscription: string): nat {
    (if subscription == Topic(e) then 1 else 0)
    + (if e.namespace != "" && Topic(e) != e.namespace && subscription == e.namespace then 1 else 0)
    + (if subscription == ALL then 1 else 0)
  }

  lemma WildcardTopic(e: Event)
    ensures Topic(e) == ALL <==> e.table == "" && e.view == "" && (e.namespace == "" || e.namespace == ALL)
  {
    assert |ALL| == 1;
    if e.table != "" { assert |Topic(e)| == |e.namespace| + 1 + |e.table|; }
    else if e.view != "" { assert |Topic(e)| == |e.namespace| + 1 + |e.view|; }
  }

  /** The name of the table or the view an event is about; a table goes before a view. */
  function Name(e: Event): string {
    if e.table != "" then e.table else e.view
  }

  /** The topic of a table or view event is its namespace, a slash, and its name; of another event
      its namespace, or "*" when it has none. */
  lemma TopicParts(e: Event)
    ensures Name(e) != "" ==>
              && |Topic(e)| == |e.namespace| + 1 + |Name(e)|
              && Topic(e)[..|e.namespace|] == e.namespace
              && Topic(e)[|e.namespace|] == '/'
              && Topic(e)[|e.namespace| + 1..] == Name(e)
    ensures Name(e) == "" && e.namespace != "" ==> Topic(e) == e.namespace
    ensures Name(e) == "" && e.namespace == "" ==> Topic(e) == "*"
  {
    if Name(e) != "" {
      assert Topic(e) == e.namespace + ("/" + Name(e));
      assert Topic(e)[|e.namespace|..] == "/" + Name(e);
      assert Topic(e)[|e.namespace| + 1..] == ("/" + Name(e))[1..];
    }
  }

  /** For namespaces without a slash, topics are the same exactly when namespace and name are. */
  lemma TopicsTellApart(e: Event, f: Event)
    requires '/' !in e.namespace && '/' !in f.namespace && Name(e) != "" && Name(f) != ""
    ensures Topic(e) == Topic(f) <==> e.namespace == f.namespace && Name(e) == Name(f)
  {
    TopicParts(e);
    TopicParts(f);
    if Topic(e) == Topic(f) {
      assert Topic(e)[|f.namespace|] == '/' && Topic(f)[|e.namespace|] == '/';
      assert |e.namespace| == |f.namespace|;
    }
  }

  /** With a slash in the namespace, events of different namespaces can share their topic. */
  lemma NestedNamespacesCanMeet()
    ensures var e, f := Event("a/b", "c", ""), Event("a", "b/c", "");
            e.namespace != f.namespace && Topic(e) == Topic(f)
  {
    var e, f := Event("a/b", "c", ""), Event("a", "b/c", "");
    assert Topic(e) == "a/b/c" && Topic(f) == "a/b/c";
    assert |e.namespace| != |f.namespace|;
  }

  /** Away from the wildcard, a subscriber is offered a matching event once and no other event. */
  lemma OfferedOnce(e: Event, subscription: string)
    requires Topic(e) != ALL && e.namespace != ALL
    ensures Copies(e, subscription)
         == if subscription == Topic(e) || (e.namespace != "" && subscription == e.namespace) || subscription == ALL
            then 1 else 0
  {
  }

  /** That is exactly when no subscriber is offered an event twice. */
  lemma NeverTwiceExactlyAwayFromWildcard(e: Event)
    ensures (forall s :: Copies(e, s) <= 1) <==> Topic(e) != ALL && e.namespace != ALL
  {
    if Topic(e) == ALL || e.namespace == ALL {
      WildcardTopic(e);
      assert Copies(e, ALL) == 2;
    } else {
      forall s ensures Copies(e, s) <= 1 { OfferedOnce(e, s); }
    }
  }

  // ---------------------------------------------------------------- channels

  const CAPACITY := 16

  /** A subscription's channel, with a record of what it was offered and what its reader took. */
  datatype Channel<M> = Channel(topic: string, open: bool, buffer: seq<M>, received: seq<M>, offered: seq<M>, dropped: nat)

  function NewChannel<M>(topic: string): Channel<M> {
    Channel(topic, true, [], [], [], 0)
  }

  /** A send that does not block: a full channel drops the message. */
  function Offer<M>(c: Channel<M>, m: M): Channel<M> {
    if |c.buffer| < CAPACITY then c.(buffer := c.buffer + [m], offered := c.offered + [m])
    else c.(offered := c.offered + [m], dropped := c.dropped + 1)
  }

  function OfferTimes<M>(c: Channel<M>, m: M, n: nat): (r: Channel<M>)
    ensures r.open == c.open && r.topic == c.topic
  {
    if n == 0 then c else Offer(OfferTimes(c, m, n - 1), m)
  }

  /** n copies of a message. */
  function Copied<M>(m: M, n: nat): (r: seq<M>)
    ensures |r| == n && forall i :: 0 <= i < n ==> r[i] == m
  {
    seq(n, _ => m)
  }

  /** Offering n times: all are on record, as many as there is room for are buffered behind what was
      there, the rest is counted as dropped; nothing else changes. */
  lemma {:induction false} OfferedTimes<M>(c: Channel<M>, m: M, n: nat)
    ensures var room := if |c.buffer| < CAPACITY then CAPACITY - |c.buffer| else 0;
            var kept := if n <= room then n else room;
            OfferTimes(c, m, n)
            == Channel(c.topic, c.open, c.buffer + Copied(m, kept), c.received, c.offered + Copied(m, n), c.dropped + (n - kept))
  {
    assert c.buffer + Copied(m, 0) == c.buffer && c.offered + Copied(m, 0) == c.offered;
    if n > 0 {
      OfferedTimes(c, m, n - 1);
      var room := if |c.buffer| < CAPACITY then CAPACITY - |c.buffer| else 0;
      assert c.offered + Copied(m, n - 1) + [m] == c.offered + Copied(m, n);
      if n <= room { assert c.buffer + Copied(m, n - 1) + [m] == c.buffer + Copied(m, n); }
    }
  }

  /** Whether a subscription to this topic is one an event is meant for. */
  predicate Concerns(e: Event, subscription: string) {
    subscription == Topic(e) || (e.namespace != "" && subscription == e.namespace) || subscription == ALL
  }

  /** What one event does to a channel: a channel it concerns has it as its newest message if there
      was room and counts it as dropped if there was not; any other channel is left alone. */
  ghost predicate DeliveredOnce<M>(before: Channel<M>, after: Channel<M>, m: M, concerned: bool) {
    if !concerned then after == before
    else
      && after.topic == before.topic && after.open == before.open && after.received == before.received
      && after.offered == before.offered + [m]
      && (|before.buffer| < 16 ==> after.buffer == before.buffer + [m] && after.dropped == before.dropped)
      && (|before.buffer| >= 16 ==> after.buffer == before.buffer && after.dropped == before.dropped + 1)
  }

  /** Away from the wildcard, offering a channel its copies delivers the event once where it should. */
  lemma CopiesDeliverOnce<M>(c: Channel<M>, m: M, e: Event)
    requires Topic(e) != ALL && e.namespace != ALL
    ensures DeliveredOnce(c, OfferTimes(c, m, Copies(e, c.topic)), m, Concerns(e, c.topic))
  {
    OfferedOnce(e, c.topic);
    OfferedTimes(c, m, Copies(e, c.topic));
    assert Copied(m, 1) == [m];
    assert c.buffer + [] == c.buffer && c.offered + [] == c.offered;
    assert Copied(m, 0) == [];
  }

  /** The reader takes the oldest message; a closed channel can still be drained. */
  function Take<M>(c: Channel<M>): Channel<M>
    requires c.buffer != []
  {
    c.(buffer := c.buffer[1..], received := c.received + [c.buffer[0]])
  }

  ghost predicate Subsequence<M(!new)>(a: seq<M>, b: seq<M>) {
    a == [] ||
    (b != [] &&
      ((a[|a| - 1] == b[|b| - 1] && Subsequence(a[..|a| - 1], b[..|b| - 1])) || Subsequence(a, b[..|b| - 1])))
  }

  lemma SubsequenceGrows<M(!new)>(a: seq<M>, b: seq<M>, m: M)
    requires Subsequence(a, b)
    ensures Subsequence(a + [m], b + [m]) && Subsequence(a, b + [m])
  {
    assert (a + [m])[..|a|] == a && (b + [m])[..|b|] == b;
  }

  /** What holds of every channel: bounded, in order, nothing invented, nothing lost uncounted. */
  ghost predicate Faithful<M(!new)>(c: Channel<M>) {
    && |c.buffer| <= CAPACITY
    && Subsequence(c.received + c.buffer, c.offered)
    && |c.offered| == |c.received| + |c.buffer| + c.dropped
    && (c.dropped == 0 ==> c.received + c.buffer == c.offered)
  }

  lemma OfferKeepsFaithful<M(!new)>(c: Channel<M>, m: M)
    requires Faithful(c)
    ensures Faithful(Offer(c, m))
  {
    SubsequenceGrows(c.received + c.buffer, c.offered, m);
    assert c.received + (c.buffer + [m]) == c.received + c.buffer + [m];
  }

  lemma TakeKeepsFaithful<M(!new)>(c: Channel<M>)
    requires Faithful(c) && c.buffer != []
    ensures Faithful(Take(c))
  {
    assert c.received + [c.buffer[0]] + c.buffer[1..] == c.received + c.buffer;
  }
}
