/**
 Delivery to local subscribers: RouteToLocalSubscribersWithRequestResponse and RouteToLocalSubscribersWithQoS of
 pkg/broker/broker.go.

 A client with overlapping subscriptions appears several times in the list of matching subscribers.  Section 3.3.5 of
 MQTT 3.1.1 lets the server send it one copy, with the highest QoS of those subscriptions.  The first route does that;
 the second, taken at QoS 0 by publishes that other nodes forward, sends one copy per subscription and no properties.
 */
module Delivery {

  type Bytes = seq<bv8>

  datatype Publish = Publish(topic: string, payload: Bytes, qos: nat, userProperties: map<string, Bytes>,
                             responseTopic: string, correlationData: Bytes)

  class Mailbox {
    var queue: seq<Publish>

    constructor ()
      ensures queue == []
    {
      queue := [];
    }

    method Send(msg: Publish)
      modifies this
      ensures queue == old(queue) + [msg]
    {
      queue := queue + [msg];
    }
  }

  datatype Subscription = Subscription(mailbox: Mailbox, qos: nat)

  function Min(a: nat, b: nat): nat {
    if b < a then b else a
  }

  function Mailboxes(subs: seq<Subscription>): set<Mailbox> {
    set i | 0 <= i < |subs| :: subs[i].mailbox
  }

  // ----- What section 3.3.5 asks for -----

  /** The highest QoS among the subscriptions of one mailbox. */
  ghost predicate IsHighest(subs: seq<Subscription>, m: Mailbox, q: nat) {
    && (exists i :: 0 <= i < |subs| && subs[i] == Subscription(m, q))
    && (forall i :: 0 <= i < |subs| && subs[i].mailbox == m ==> subs[i].qos <= q)
  }

  function Highest(subs: seq<Subscription>, m: Mailbox): (q: nat)
    requires m in Mailboxes(subs)
    ensures IsHighest(subs, m, q)
  {
    var front, last := subs[..|subs| - 1], subs[|subs| - 1];
    assert subs == front + [last];
    if m in Mailboxes(front) then
      var q := Highest(front, m);
      assert exists i :: 0 <= i < |front| && front[i] == subs[i] == Subscription(m, q);
      if last.mailbox == m && q < last.qos then last.qos else q
    else
      assert forall i :: 0 <= i < |front| ==> front[i].mailbox != m;
      last.qos
  }

  /** The QoS of the one copy a mailbox gets. */
  function ResolvedQoS(subs: seq<Subscription>, publishQoS: nat, m: Mailbox): nat
    requires m in Mailboxes(subs)
  {
    Min(publishQoS, Highest(subs, m))
  }

  /** Only which subscriptions there are matters, not the order or number of times they are listed. */
  lemma OrderDoesNotMatter(subs: seq<Subscription>, subs': seq<Subscription>, publishQoS: nat, m: Mailbox)
    requires forall s :: s in subs <==> s in subs'
    requires m in Mailboxes(subs)
    ensures m in Mailboxes(subs') && ResolvedQoS(subs, publishQoS, m) == ResolvedQoS(subs', publishQoS, m)
  {
    var q := Highest(subs, m);
    assert Subscription(m, q) in subs';
    var q' := Highest(subs', m);
    assert Subscription(m, q') in subs;
  }

  // ----- The table of the first route -----

  function Noted(t: map<Mailbox, nat>, publishQoS: nat, s: Subscription): map<Mailbox, nat> {
    var q := Min(publishQoS, s.qos);
    if s.mailbox !in t || q > t[s.mailbox] then t[s.mailbox := q] else t
  }

  function Table(subs: seq<Subscription>, publishQoS: nat): map<Mailbox, nat> {
    if subs == [] then map[] else Noted(Table(subs[..|subs| - 1], publishQoS), publishQoS, subs[|subs| - 1])
  }

  /** Taking minima first and the maximum of them afterwards is the minimum with the maximum. */
  lemma {:induction false} TableResolves(subs: seq<Subscription>, publishQoS: nat)
    ensures Table(subs, publishQoS).Keys == Mailboxes(subs)
    ensures forall m <- Mailboxes(subs) :: Table(subs, publishQoS)[m] == ResolvedQoS(subs, publishQoS, m)
  {
    if subs != [] {
      var front, last := subs[..|subs| - 1], subs[|subs| - 1];
      TableResolves(front, publishQoS);
      OneMoreMailbox(front, last);
      assert subs == front + [last];
    }
  }

  lemma OneMoreMailbox(front: seq<Subscription>, last: Subscription)
    ensures Mailboxes(front + [last]) == Mailboxes(front) + {last.mailbox}
  {
    var subs := front + [last];
    forall m ensures m in Mailboxes(subs) <==> m in Mailboxes(front) || m == last.mailbox {
      assert forall i :: 0 <= i < |front| ==> subs[i] == front[i];
      assert subs[|front|] == last;
    }
  }

  method RouteWithRequestResponse(subs: seq<Subscription>, msg: Publish)
    modifies Mailboxes(subs)
    ensures forall m <- Mailboxes(subs) :: m.queue == old(m.queue) + [msg.(qos := ResolvedQoS(subs, msg.qos, m))]
  {
    var uniqueSubs := map[];
    for i := 0 to |subs|
      invariant uniqueSubs == Table(subs[..i], msg.qos)
      invariant forall m <- Mailboxes(subs) :: m.queue == old(m.queue)
    {
      assert subs[..i + 1][..i] == subs[..i];
      var effectiveQoS := msg.qos;
      if subs[i].qos < msg.qos {
        effectiveQoS := subs[i].qos;
      }
      if subs[i].mailbox !in uniqueSubs || effectiveQoS > uniqueSubs[subs[i].mailbox] {
        uniqueSubs := uniqueSubs[subs[i].mailbox := effectiveQoS];
      }
    }
    assert subs[..|subs|] == subs;
    TableResolves(subs, msg.qos);
    SendAll(uniqueSubs, msg);
  }

  method SendAll(uniqueSubs: map<Mailbox, nat>, msg: Publish)
    modifies uniqueSubs.Keys
    ensures forall m <- uniqueSubs :: m.queue == old(m.queue) + [msg.(qos := uniqueSubs[m])]
  {
    var todo := uniqueSubs.Keys;
    while todo != {}
      invariant todo <= uniqueSubs.Keys
      invariant forall m <- todo :: m.queue == old(m.queue)
      invariant forall m <- uniqueSubs.Keys - todo :: m.queue == old(m.queue) + [msg.(qos := uniqueSubs[m])]
      decreases todo
    {
      var m :| m in todo;
      m.Send(msg.(qos := uniqueSubs[m]));
      todo := todo - {m};
    }
  }

  // ----- The route without the table -----

  /** This route takes a topic and a payload only, so its messages carry no properties. */
  function Bare(topic: string, payload: Bytes, qos: nat): Publish {
    Publish(topic, payload, qos, map[], "", [])
  }

  /** The copies one mailbox gets when every subscription is served on its own. */
  function CopiesFor(subs: seq<Subscription>, topic: string, payload: Bytes, publishQoS: nat, m: Mailbox): seq<Publish> {
    if subs == [] then []
    else
      var last := subs[|subs| - 1];
      CopiesFor(subs[..|subs| - 1], topic, payload, publishQoS, m)
      + if last.mailbox == m then [Bare(topic, payload, Min(publishQoS, last.qos))] else []
  }

  /** The positions of the subscriptions of one mailbox. */
  function PositionsOf(subs: seq<Subscription>, m: Mailbox): (ps: seq<nat>)
    ensures forall i :: 0 <= i < |ps| ==> ps[i] < |subs|
  {
    if subs == [] then []
    else
      var last := |subs| - 1;
      PositionsOf(subs[..last], m) + if subs[last].mailbox == m then [last] else []
  }

  /** The positions are in order, and they are all there are. */
  ghost predicate ListsPositions(subs: seq<Subscription>, m: Mailbox, ps: seq<nat>) {
    && (forall i, j :: 0 <= i < j < |ps| ==> ps[i] < ps[j])
    && (forall k: nat :: k in ps <==> k < |subs| && subs[k].mailbox == m)
  }

  lemma {:induction false} PositionsAreListed(subs: seq<Subscription>, m: Mailbox)
    ensures ListsPositions(subs, m, PositionsOf(subs, m))
  {
    if subs != [] {
      var last := |subs| - 1;
      PositionsAreListed(subs[..last], m);
      var ps := PositionsOf(subs[..last], m);
      forall k: nat ensures k in PositionsOf(subs, m) <==> k < |subs| && subs[k].mailbox == m {
        if subs[last].mailbox == m {
          assert k in ps + [last] <==> k in ps || k == last;
        }
        assert k < last ==> subs[..last][k] == subs[k];
      }
    }
  }

  /** One copy for each subscription of the mailbox, in the order of the subscriptions, at the lower of the two QoS. */
  ghost predicate ServesInOrder(subs: seq<Subscription>, topic: string, payload: Bytes, publishQoS: nat, m: Mailbox,
                                copies: seq<Publish>)
  {
    var ps := PositionsOf(subs, m);
    && ListsPositions(subs, m, ps) && |copies| == |ps|
    && forall i :: 0 <= i < |ps| ==>
                     && copies[i].topic == topic && copies[i].payload == payload
                     && copies[i].qos == Min(publishQoS, subs[ps[i]].qos) && HasNoProperties(copies[i])
  }

  lemma {:induction false} CopiesAreInOrder(subs: seq<Subscription>, topic: string, payload: Bytes, publishQoS: nat, m: Mailbox)
    ensures ServesInOrder(subs, topic, payload, publishQoS, m, CopiesFor(subs, topic, payload, publishQoS, m))
  {
    PositionsAreListed(subs, m);
    if subs != [] {
      CopiesAreInOrder(subs[..|subs| - 1], topic, payload, publishQoS, m);
      hide ListsPositions;
    }
  }

  method RouteWithQoS(subs: seq<Subscription>, topic: string, payload: Bytes, publishQoS: nat)
    modifies Mailboxes(subs)
    ensures forall m <- Mailboxes(subs) :: m.queue == old(m.queue) + CopiesFor(subs, topic, payload, publishQoS, m)
  {
    for i := 0 to |subs|
      invariant forall m <- Mailboxes(subs) :: m.queue == old(m.queue) + CopiesFor(subs[..i], topic, payload, publishQoS, m)
    {
      assert subs[..i + 1][..i] == subs[..i];
      var effectiveQoS := publishQoS;
      if subs[i].qos < publishQoS {
        effectiveQoS := subs[i].qos;
      }
      subs[i].mailbox.Send(Publish(topic, payload, effectiveQoS, map[], "", []));
    }
    assert subs[..|subs|] == subs;
  }

  /** The callback for publishes that other nodes forward: whatever their QoS was, they are routed at QoS 0. */
  method RouteForwarded(subs: seq<Subscription>, topic: string, payload: Bytes)
    modifies Mailboxes(subs)
    ensures forall m <- Mailboxes(subs) :: m.queue == old(m.queue) + CopiesFor(subs, topic, payload, 0, m)
  {
    RouteWithQoS(subs, topic, payload, 0);
  }

  ghost predicate NoOverlap(subs: seq<Subscription>) {
    forall i, j :: 0 <= i < j < |subs| ==> subs[i].mailbox != subs[j].mailbox
  }

  predicate HasNoProperties(msg: Publish) {
    msg.userProperties == map[] && msg.responseTopic == "" && msg.correlationData == []
  }

  /** Every mailbox gets from the second route, called with this QoS, just the one message the first route sends. */
  ghost predicate SameDelivery(subs: seq<Subscription>, msg: Publish, publishQoS: nat) {
    forall m <- Mailboxes(subs) :: SameFor(subs, msg, publishQoS, m)
  }

  predicate SameFor(subs: seq<Subscription>, msg: Publish, publishQoS: nat, m: Mailbox)
    requires m in Mailboxes(subs)
  {
    CopiesFor(subs, msg.topic, msg.payload, publishQoS, m) == [msg.(qos := ResolvedQoS(subs, msg.qos, m))]
  }

  /** No subscription tells the two publish QoS apart. */
  ghost predicate SameEffect(subs: seq<Subscription>, q: nat, q': nat) {
    forall i :: 0 <= i < |subs| ==> Min(q, subs[i].qos) == Min(q', subs[i].qos)
  }

  lemma SameDeliveryIff(subs: seq<Subscription>, msg: Publish, publishQoS: nat)
    ensures SameDelivery(subs, msg, publishQoS)
            <==> subs == [] || (NoOverlap(subs) && HasNoProperties(msg) && SameEffect(subs, msg.qos, publishQoS))
  {
    if NoOverlap(subs) {
      forall i | 0 <= i < |subs|
        ensures subs[i].mailbox in Mailboxes(subs)
        ensures SameFor(subs, msg, publishQoS, subs[i].mailbox)
                <==> HasNoProperties(msg) && Min(msg.qos, subs[i].qos) == Min(publishQoS, subs[i].qos)
      {
        OneCopy(subs, msg.topic, msg.payload, publishQoS, i);
        OnlySubscription(subs, i);
        assert [Bare(msg.topic, msg.payload, Min(publishQoS, subs[i].qos))][0]
               == Bare(msg.topic, msg.payload, Min(publishQoS, subs[i].qos));
      }
      hide SameFor, HasNoProperties;
      assert SameDelivery(subs, msg, publishQoS)
          <==> forall i :: 0 <= i < |subs| ==> SameFor(subs, msg, publishQoS, subs[i].mailbox);
      assert subs != [] ==> (SameFor(subs, msg, publishQoS, subs[0].mailbox) ==> HasNoProperties(msg));
    } else {
      var i, j :| 0 <= i < j < |subs| && subs[i].mailbox == subs[j].mailbox;
      TwoCopies(subs, msg.topic, msg.payload, publishQoS, i, j);
      assert subs[i].mailbox in Mailboxes(subs);
      assert !SameFor(subs, msg, publishQoS, subs[i].mailbox);
    }
  }

  /**
   The two routes deliver the same messages exactly when no mailbox has two matching subscriptions and there are no
   properties to lose.
   */
  lemma RoutesAgreeIff(subs: seq<Subscription>, msg: Publish)
    ensures SameDelivery(subs, msg, msg.qos) <==> subs == [] || (NoOverlap(subs) && HasNoProperties(msg))
  {
    SameDeliveryIff(subs, msg, msg.qos);
  }

  /**
   A publish forwarded to another node reaches the subscribers there as it would reach the same subscribers at home
   exactly when, in addition, it or every subscription has QoS 0.
   */
  lemma ForwardedAgreesIff(subs: seq<Subscription>, msg: Publish)
    ensures SameDelivery(subs, msg, 0)
            <==> subs == [] || (NoOverlap(subs) && HasNoProperties(msg)
                                && (msg.qos == 0 || forall i :: 0 <= i < |subs| ==> subs[i].qos == 0))
  {
    SameDeliveryIff(subs, msg, 0);
  }

  lemma OnlySubscription(subs: seq<Subscription>, i: nat)
    requires NoOverlap(subs) && i < |subs|
    ensures subs[i].mailbox in Mailboxes(subs) && Highest(subs, subs[i].mailbox) == subs[i].qos
  {
    var m := subs[i].mailbox;
    assert m in Mailboxes(subs);
    var k :| 0 <= k < |subs| && subs[k] == Subscription(m, Highest(subs, m));
  }

  lemma {:induction false} NoCopy(subs: seq<Subscription>, topic: string, payload: Bytes, publishQoS: nat, m: Mailbox)
    requires forall i :: 0 <= i < |subs| ==> subs[i].mailbox != m
    ensures CopiesFor(subs, topic, payload, publishQoS, m) == []
  {
    if subs != [] {
      NoCopy(subs[..|subs| - 1], topic, payload, publishQoS, m);
    }
  }

  lemma {:induction false} OneCopy(subs: seq<Subscription>, topic: string, payload: Bytes, publishQoS: nat, i: nat)
    requires NoOverlap(subs) && i < |subs|
    ensures CopiesFor(subs, topic, payload, publishQoS, subs[i].mailbox)
            == [Bare(topic, payload, Min(publishQoS, subs[i].qos))]
  {
    var front := subs[..|subs| - 1];
    if i == |front| {
      NoCopy(front, topic, payload, publishQoS, subs[i].mailbox);
    } else {
      OneCopy(front, topic, payload, publishQoS, i);
    }
  }

  lemma {:induction false} TwoCopies(subs: seq<Subscription>, topic: string, payload: Bytes, publishQoS: nat, i: nat, j: nat)
    requires i < j < |subs| && subs[i].mailbox == subs[j].mailbox
    ensures |CopiesFor(subs, topic, payload, publishQoS, subs[i].mailbox)| >= 2
  {
    var front := subs[..|subs| - 1];
    if j < |front| {
      TwoCopies(front, topic, payload, publishQoS, i, j);
    } else {
      SomeCopy(front, topic, payload, publishQoS, i);
    }
  }

  lemma {:induction false} SomeCopy(subs: seq<Subscription>, topic: string, payload: Bytes, publishQoS: nat, i: nat)
    requires i < |subs|
    ensures |CopiesFor(subs, topic, payload, publishQoS, subs[i].mailbox)| >= 1
  {
    if i < |subs| - 1 {
      SomeCopy(subs[..|subs| - 1], topic, payload, publishQoS, i);
    }
  }
}
