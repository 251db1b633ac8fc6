/**
  * Over a relay that loses nothing and keeps order, an exchange that comes to
  * rest has succeeded: when both ends have candidates and have sent their current
  * message and nothing is on the way, each holds the other's current number.
  * Crossed offers, new attempts, dropped entries and empty candidate lists are
  * all allowed on the way there.
  */
module NegotiationConvergence {
  import opened Negotiation
  import opened NegotiationRuns

  /** Nothing is lost, order is kept and a send is reported as it happened. */
  predicate Reliable(e: Event)
  {
    match e
    case Publish(left, reported) => left == reported
    case Relay(at) => at == 0
    case Handle(at, _) => at == 0
    case LoseUp(_) => false
    case LoseDown(_) => false
    case _ => true
  }

  predicate Quiet(w: World)
  {
    && w.a.link.Some? && w.a.link.value.published
    && w.b.link.Some? && w.b.link.value.published
    && w.ab.up == w.ab.down == w.ba.up == w.ba.down == []
  }

  /** Both ends hold each other's current number. */
  predicate Connected(w: World)
  {
    && w.a.link.Some? && w.b.link.Some?
    && w.a.link.value.peer == w.b.link.value.local
    && w.b.link.value.peer == w.a.link.value.local
  }

  function Queue(c: Channel): (q: seq<Message>)
  {
    c.down + c.up
  }

  /** The current message has been sent and handled. */
  predicate Delivered(s: Side, c: Channel)
  {
    s.link.Some? && s.link.value.published && Queue(c) == []
  }

  /** This end still owes the other a new offer. */
  predicate Fresh(s: Side, c: Channel)
  {
    s.link.None? || (!Delivered(s, c) && (s.link.value.waiting || !s.link.value.reachable))
  }

  ghost predicate Rising(q: seq<Message>)
  {
    forall i, j :: 0 <= i < j < |q| ==> q[i].generation < q[j].generation
  }

  ghost predicate Above(g: nat, q: seq<Message>)
  {
    forall i :: 0 <= i < |q| ==> g < q[i].generation
  }

  ghost predicate Below(g: nat, q: seq<Message>)
  {
    forall i :: 0 <= i < |q| ==> q[i].generation < g
  }

  ghost predicate Fifo(w: World)
  {
    var q := Queue(w.ab);
    && Rising(q)
    && Above(w.ab.last, w.ab.up)
    && (w.b.link.Some? ==> w.b.link.value.peer <= w.ab.last && Above(w.b.link.value.peer, q))
    && (w.a.link.Some? ==>
          var l := w.a.link.value;
          && (l.published ==> l.reachable && (q == [] || q[|q| - 1].generation == l.local))
          && (!l.published ==> w.ab.last < l.local && Below(l.local, q)))
  }

  /**
    * A handled message was taken up, or the other end owes a new offer; an answer
    * not handled yet is still awaited, or the other end owes a new offer; and the
    * end that wins crossed offers has none on the way once it stops waiting.
    */
  ghost predicate Progress(w: World)
  {
    Taken(w) && Awaited(w) && NoOfferBehind(w)
  }

  ghost predicate Taken(w: World)
  {
    Delivered(w.a, w.ab) ==>
      (w.b.link.Some? && w.b.link.value.peer == w.a.link.value.local) || Fresh(w.b, w.ba)
  }

  ghost predicate Awaited(w: World)
  {
    w.a.link.Some? && w.a.link.value.responseTo != 0 && w.a.link.value.reachable && !Delivered(w.a, w.ab) ==>
      || (&& w.b.link.Some? && w.b.link.value.local == w.a.link.value.responseTo
          && w.b.link.value.waiting && Delivered(w.b, w.ba))
      || Fresh(w.b, w.ba)
  }

  ghost predicate NoOfferBehind(w: World)
  {
    w.aFirst && w.a.link.Some? && !w.a.link.value.waiting ==>
      forall m :: m in Queue(w.ab) ==> m.responseTo != 0
  }

  ghost predicate Ordered(w: World)
  {
    Fifo(w) && Fifo(Swap(w)) && Progress(w) && Progress(Swap(w))
  }

  /** What the invariant of every run says about `a` and its queue, with order kept. */
  ghost predicate Known(w: World)
  {
    && w.ab.last <= w.a.generation
    && (forall m :: m in Queue(w.ab) ==> 0 < m.generation <= w.a.generation)
    && (forall m :: m in w.ab.down ==> m.generation <= w.ab.last)
    && (w.a.link.Some? ==>
          var a := w.a.link.value;
          && (a.waiting <==> a.peer == 0)
          && (a.responseTo != 0 ==> a.peer == a.responseTo)
          && (a.peer != 0 && a.responseTo == 0 ==> Delivered(w.a, w.ab))
          && (w.b.link.Some? && w.b.link.value.peer == a.local ==>
                Delivered(w.a, w.ab)
                && forall m :: m in Queue(w.ba) && m.responseTo == a.local ==> m.generation == w.b.link.value.local)
          && (forall m :: m in Queue(w.ba) && m.responseTo == a.local ==> Delivered(w.a, w.ab))
          && (forall m :: m in Queue(w.ab) && m.generation == a.local ==>
                m == Current(a) && (m.responseTo == 0 ==> a.peer == 0)))
  }

  /** A number the relay is done with, if still current, was sent and handled. */
  lemma SpentIsDelivered(w: World)
    requires Good(w) && Fifo(w) && w.a.link.Some? && Spent(TrafficOf(w.ab), w.a.link.value.local)
    ensures Delivered(w.a, w.ab)
  {}

  lemma GoodIsKnown(w: World)
    requires Good(w) && Fifo(w)
    ensures Known(w)
  {
    var v := ViewOf(w);
    assert forall m :: m in Queue(w.ab) ==> m in v.ab.air;
    assert forall m :: m in Queue(w.ba) ==> m in v.ba.air;
    assert forall m :: m in w.ab.down ==> m.generation in v.ab.pending;
    if w.a.link.Some? {
      var a := w.a.link.value;
      if Spent(v.ab, a.local) {
        SpentIsDelivered(w);
      }
      forall m | m in Queue(w.ba) && m.responseTo == a.local
        ensures Delivered(w.a, w.ab)
      {
        assert Answered(v.ba.air, a.local);
      }
    }
  }

  // ---- Steps that do not handle a message ----

  lemma PrepareKeepsOrder(w: World, reachable: bool)
    requires Ordered(w) && Known(w) && Known(Swap(w))
    ensures Ordered(StepA(w, Prepare(reachable)))
  {}

  lemma EraseKeepsOrder(w: World)
    requires Ordered(w)
    ensures Ordered(StepA(w, Erase))
  {}

  lemma BumpKeepsOrder(w: World)
    requires Ordered(w)
    ensures Ordered(StepA(w, Bump))
  {
    var v := StepA(w, Bump);
    assert Fifo(v);
    assert Fifo(Swap(v));
    assert Delivered(v.a, v.ab) == Delivered(w.a, w.ab) && Fresh(v.a, v.ab) == Fresh(w.a, w.ab);
    assert Progress(v);
    assert Progress(Swap(v));
  }

  lemma PublishKeepsFifo(w: World, sent: bool)
    requires Fifo(w) && Fifo(Swap(w)) && CanPublish(w.a)
    ensures
      var v := StepA(w, Publish(sent, sent));
      && Queue(v.ab) == (if sent then Queue(w.ab) + [Current(w.a.link.value)] else Queue(w.ab))
      && Fifo(v) && Fifo(Swap(v))
  {
    var v := StepA(w, Publish(sent, sent));
    var q, m := Queue(w.ab), Current(w.a.link.value);
    assert Queue(v.ab) == if sent then q + [m] else q;
    assert Below(m.generation, q) ==> Rising(q + [m]);
    assert forall g: nat :: Above(g, q) && g < m.generation ==> Above(g, q + [m]);
  }

  lemma PublishKeepsOrder(w: World, sent: bool)
    requires Ordered(w) && Known(w) && CanPublish(w.a)
    ensures Ordered(StepA(w, Publish(sent, sent)))
  {
    hide Fifo, Queue;
    PublishKeepsFifo(w, sent);
    var v := StepA(w, Publish(sent, sent));
    assert v.ba == w.ba;
    assert Progress(v);
    assert Progress(Swap(v));
  }

  lemma MoveOne(a: seq<Message>, b: seq<Message>)
    requires b != []
    ensures Without(b, 0) == b[1..] && (a + [b[0]]) + b[1..] == a + b && (a + b)[|a|] == b[0]
  {
  }

  lemma RisingTail(a: seq<Message>, b: seq<Message>)
    requires b != [] && Rising(a + b)
    ensures Above(b[0].generation, b[1..])
  {
    forall i | 0 <= i < |b| - 1 ensures b[0].generation < b[1..][i].generation {
      assert (a + b)[|a|] == b[0] && (a + b)[|a| + i + 1] == b[1..][i];
    }
  }

  lemma ForwardedQueue(c: Channel)
    requires Rising(Queue(c)) && Above(c.last, c.up) && c.up != []
    ensures var d := Forwarded(c, 0);
      Queue(d) == Queue(c) && c.last < d.last && Above(d.last, d.up) && forall g: nat :: Below(g, Queue(c)) ==> d.last < g
  {
    MoveOne(c.down, c.up);
    RisingTail(c.down, c.up);
    hide Without, Rising;
  }

  /** In order, every number reaches the relay above the last: the filter stops nothing. */
  lemma RelayKeepsOrder(w: World)
    requires Ordered(w) && w.ab.up != []
    ensures Queue(Forwarded(w.ab, 0)) == Queue(w.ab)
    ensures Ordered(StepA(w, Relay(0)))
  {
    ForwardedQueue(w.ab);
    hide Queue, Forwarded, Rising, Above, Below;
    var v := StepA(w, Relay(0));
    assert v.ba == w.ba && v.a == w.a && v.b == w.b;
    assert Fifo(v);
    assert Fifo(Swap(v));
    assert Progress(v);
    assert Progress(Swap(v));
  }

  // ---- Handling a message ----

  /** An offer its sender has replaced by the time it is handled leaves that sender waiting, or without a path. */
  lemma OfferFindsNoAnswerBehind(w: World)
    requires Ordered(w) && Known(w) && Known(Swap(w))
    requires w.ba.down != [] && w.ba.down[0].responseTo == 0
    requires w.a.link.Some? && w.a.link.value.reachable && !(w.a.link.value.waiting && w.aFirst)
    requires w.b.link.Some? && w.ba.down[0].generation != w.b.link.value.local
    ensures w.b.link.value.waiting || !w.b.link.value.reachable
  {
    assert w.ba.down[0] in Queue(w.ba);
  }

  lemma TailOf(q: seq<Message>)
    requires q != [] && Rising(q)
    ensures Rising(q[1..]) && Above(q[0].generation, q[1..])
    ensures forall g: nat :: Above(g, q) ==> Above(g, q[1..])
    ensures forall g: nat :: Below(g, q) ==> Below(g, q[1..])
  {}

  lemma HandledQueue(w: World, reachable: bool)
    requires w.ba.down != []
    ensures
      var v := StepA(w, Handle(0, reachable));
      Queue(w.ba)[0] == w.ba.down[0] && Queue(v.ba) == Queue(w.ba)[1..] && w.ba.down[0] in Queue(w.ba)
  {
    var v := StepA(w, Handle(0, reachable));
    assert Queue(v.ba) == Queue(w.ba)[1..];
    assert Queue(w.ba)[0] == w.ba.down[0];
  }

  lemma HandleKeepsFifoOfA(w: World, reachable: bool)
    requires Fifo(w) && Known(w) && w.ba.down != []
    ensures Fifo(StepA(w, Handle(0, reachable)))
  {
    hide Queue, Rising;
    assert forall i :: 0 <= i < |Queue(w.ab)| ==> Queue(w.ab)[i] in Queue(w.ab);
  }

  lemma HandleKeepsFifoOfB(w: World, reachable: bool)
    requires Fifo(Swap(w)) && Known(Swap(w)) && w.ba.down != []
    ensures Fifo(Swap(StepA(w, Handle(0, reachable))))
  {
    HandledQueue(w, reachable);
    TailOf(Queue(w.ba));
    assert w.ba.down[0].generation <= w.ba.last;
    assert 0 < w.ba.down[0].generation;
    assert Above(0, Queue(w.ba)[1..]);
  }

  lemma HandleKeepsProgressOfA(w: World, reachable: bool)
    requires Ordered(w) && Known(w) && Known(Swap(w)) && w.ba.down != []
    ensures Progress(StepA(w, Handle(0, reachable)))
  {
    hide Rising, Queue;
    HandledQueue(w, reachable);
    TailOf(Queue(w.ba));
    var v := StepA(w, Handle(0, reachable));
    assert v.ab == w.ab;
    assert Taken(v);
    assert Awaited(v);
    assert NoOfferBehind(v);
  }

  lemma HandleKeepsProgressOfB(w: World, reachable: bool)
    requires Ordered(w) && Known(w) && Known(Swap(w)) && w.ba.down != []
    ensures Progress(Swap(StepA(w, Handle(0, reachable))))
  {
    HandledQueue(w, reachable);
    TailOf(Queue(w.ba));
    var v := StepA(w, Handle(0, reachable));
    var m := w.ba.down[0];
    assert Queue(v.ab) == Queue(w.ab);
    if w.b.link.Some? && Delivered(v.b, v.ba) {
      assert Queue(w.ba) == [m];
      assert m.generation == w.b.link.value.local;
    }
    hide Rising, Queue;
    assert Taken(Swap(v));
    if w.b.link.Some? && w.a.link.Some? && m.responseTo == 0 && m.generation != w.b.link.value.local
      && w.a.link.value.reachable && !(w.a.link.value.waiting && w.aFirst) {
      OfferFindsNoAnswerBehind(w);
    }
    assert Awaited(Swap(v));
  }

  // ---- Runs ----

  lemma SwapIsGood(w: World)
    requires Good(w)
    ensures Good(Swap(w))
  {
  }

  lemma ReliableStepKeepsOrder(w: World, e: Event)
    requires Good(w) && Ordered(w) && Enabled(w, e) && Reliable(e)
    ensures Good(StepA(w, e)) && Ordered(StepA(w, e))
  {
    hide Good;
    StepAKeepsGood(w, e);
    SwapIsGood(w);
    GoodIsKnown(w);
    GoodIsKnown(Swap(w));
    match e
    case Prepare(reachable) => PrepareKeepsOrder(w, reachable);
    case Erase => EraseKeepsOrder(w);
    case Bump => BumpKeepsOrder(w);
    case Publish(left, reported) => PublishKeepsOrder(w, left);
    case Relay(at) => RelayKeepsOrder(w);
    case Handle(at, reachable) =>
      HandleKeepsFifoOfA(w, reachable);
      HandleKeepsFifoOfB(w, reachable);
      HandleKeepsProgressOfA(w, reachable);
      HandleKeepsProgressOfB(w, reachable);
  }

  lemma {:induction false} ReliableRunIsOrdered(aFirst: bool, run: seq<Action>)
    requires forall x :: x in run ==> Reliable(x.event)
    ensures Good(After(aFirst, run)) && Ordered(After(aFirst, run))
  {
    if run != [] {
      var w, x := After(aFirst, run[..|run| - 1]), run[|run| - 1];
      ReliableRunIsOrdered(aFirst, run[..|run| - 1]);
      var v := if x.byA then w else Swap(w);
      if Enabled(v, x.event) {
        assert Good(v) && Ordered(v) by {
          assert Swap(Swap(w)) == w;
        }
        ReliableStepKeepsOrder(v, x.event);
      }
    }
  }

  /** A reliable run that comes to rest with both messages sent has connected both ends. */
  lemma QuietIsConnected(aFirst: bool, run: seq<Action>)
    requires forall x :: x in run ==> Reliable(x.event)
    ensures Quiet(After(aFirst, run)) ==> Connected(After(aFirst, run))
  {
    ReliableRunIsOrdered(aFirst, run);
  }
}
