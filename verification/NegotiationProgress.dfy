/**
  * An exchange in which nothing new is started and everything is delivered comes
  * to rest: each delivery lowers a potential. With what rest means, both ends are
  * then connected.
  */
module NegotiationProgress {
  import opened Bytes
  import opened Negotiation
  import opened NegotiationRuns
  import opened NegotiationConvergence

  /** Sending, forwarding and handling, in order, with candidates to be found. */
  predicate Delivers(x: Action)
  {
    x.event == Publish(true, true) || x.event == Relay(0) || x.event == Handle(0, true)
  }

  predicate CanHappen(w: World, x: Action)
  {
    Enabled(if x.byA then w else Swap(w), x.event)
  }

  /** Every action delivers something there is to deliver. */
  predicate DeliveryRun(w: World, run: seq<Action>)
    decreases |run|
  {
    run == [] || (Delivers(run[0]) && CanHappen(w, run[0]) && DeliveryRun(Step(w, run[0]), run[1..]))
  }

  function From(w: World, run: seq<Action>): (r: World)
    decreases |run|
  {
    if run == [] then w else From(Step(w, run[0]), run[1..])
  }

  /** Both ends have an entry and candidates. */
  predicate Ready(w: World)
  {
    w.a.link.Some? && w.a.link.value.reachable && w.b.link.Some? && w.b.link.value.reachable
  }

  ghost predicate AtRest(w: World)
  {
    forall x :: Delivers(x) ==> !CanHappen(w, x)
  }

  // ---- The potential ----

  /**
    * What handling a message can still cause: nothing after an answer; one
    * answer after an offer of the end that wins crossed offers; and one such
    * offer after an offer of the other end.
    */
  function Weight(m: Message, first: bool): (n: nat)
  {
    if m.responseTo != 0 then 1 else if first then 4 else 7
  }

  function Sum(q: seq<Message>, first: bool, way: nat): (n: nat)
  {
    if q == [] then 0 else Weight(q[0], first) + way + Sum(q[1..], first, way)
  }

  function Unsent(s: Side, first: bool): (n: nat)
  {
    if CanPublish(s) then Weight(Current(s.link.value), first) + 2 else 0
  }

  function Outgoing(s: Side, c: Channel, first: bool): (n: nat)
  {
    Unsent(s, first) + Sum(c.up, first, 1) + Sum(c.down, first, 0)
  }

  function Potential(w: World): (n: nat)
  {
    Outgoing(w.a, w.ab, w.aFirst) + Outgoing(w.b, w.ba, !w.aFirst)
  }

  lemma {:induction false} SumAppends(q: seq<Message>, m: Message, first: bool, way: nat)
    ensures Sum(q + [m], first, way) == Sum(q, first, way) + Weight(m, first) + way
  {
    if q == [] {
      assert q + [m] == [m] && [m][1..] == [];
    } else {
      assert (q + [m])[1..] == q[1..] + [m];
      SumAppends(q[1..], m, first, way);
    }
  }

  lemma PublishLowers(w: World)
    requires CanPublish(w.a)
    ensures Potential(StepA(w, Publish(true, true))) < Potential(w)
  {
    SumAppends(w.ab.up, Current(w.a.link.value), w.aFirst, 1);
  }

  lemma RelayLowers(w: World)
    requires w.ab.up != []
    ensures Potential(StepA(w, Relay(0))) < Potential(w)
  {
    var m := w.ab.up[0];
    assert Without(w.ab.up, 0) == w.ab.up[1..];
    SumAppends(w.ab.down, m, w.aFirst, 0);
  }

  lemma HandleLowers(w: World)
    requires w.ba.down != []
    ensures Potential(StepA(w, Handle(0, true))) < Potential(w)
  {
    assert Without(w.ba.down, 0) == w.ba.down[1..];
  }

  lemma SwapKeeps(w: World)
    ensures Potential(Swap(w)) == Potential(w) && Ready(Swap(w)) == Ready(w)
  {
    hide Outgoing;
  }

  lemma DeliveryKeepsReady(w: World, x: Action)
    requires Delivers(x) && Enabled(w, x.event) && Ready(w)
    ensures Ready(StepA(w, x.event))
  {
    hide Forwarded, Without;
  }

  lemma DeliveryLowers(w: World, x: Action)
    requires Delivers(x) && CanHappen(w, x)
    ensures Potential(Step(w, x)) < Potential(w) && (Ready(w) ==> Ready(Step(w, x)))
  {
    hide Potential, Ready, Received, Forwarded, StepA, Swap;
    var v := if x.byA then w else Swap(w);
    SwapKeeps(w);
    SwapKeeps(StepA(v, x.event));
    if Ready(v) {
      DeliveryKeepsReady(v, x);
    }
    match x.event
    case Publish(_, _) => PublishLowers(v);
    case Relay(_) => RelayLowers(v);
    case Handle(_, _) => HandleLowers(v);
  }

  /** No run delivers more often than the potential it starts with allows. */
  lemma {:induction false} DeliveryIsBounded(w: World, run: seq<Action>)
    requires DeliveryRun(w, run)
    ensures |run| + Potential(From(w, run)) <= Potential(w) && (Ready(w) ==> Ready(From(w, run)))
    decreases |run|
  {
    hide Potential, Step, Ready;
    if run != [] {
      DeliveryLowers(w, run[0]);
      DeliveryIsBounded(Step(w, run[0]), run[1..]);
    }
  }

  /** When nothing is left to deliver, both messages are sent and nothing is on the way. */
  lemma RestIsQuiet(w: World)
    requires Ready(w) && AtRest(w)
    ensures Quiet(w)
  {
    assert !CanHappen(w, Action(true, Publish(true, true))) && !CanHappen(w, Action(false, Publish(true, true)));
    assert !CanHappen(w, Action(true, Relay(0))) && !CanHappen(w, Action(false, Relay(0)));
    assert !CanHappen(w, Action(true, Handle(0, true))) && !CanHappen(w, Action(false, Handle(0, true)));
  }

  lemma {:induction false} DeliveryReachesRest(w: World) returns (run: seq<Action>)
    ensures DeliveryRun(w, run) && AtRest(From(w, run))
    decreases Potential(w)
  {
    hide Potential, Step;
    if AtRest(w) {
      run := [];
    } else {
      var x :| Delivers(x) && CanHappen(w, x);
      DeliveryLowers(w, x);
      var rest := DeliveryReachesRest(Step(w, x));
      run := [x] + rest;
      assert run[1..] == rest;
    }
  }

  // ---- Connecting ----

  lemma {:induction false} AfterFrom(aFirst: bool, run: seq<Action>, more: seq<Action>)
    ensures After(aFirst, run + more) == From(After(aFirst, run), more)
    decreases |more|
  {
    hide Step;
    if more == [] {
      assert run + more == run;
    } else {
      assert run + more == (run + [more[0]]) + more[1..];
      assert (run + [more[0]])[..|run|] == run;
      AfterFrom(aFirst, run + [more[0]], more[1..]);
    }
  }

  lemma {:induction false} DeliveriesAreReliable(w: World, run: seq<Action>)
    requires DeliveryRun(w, run)
    ensures forall x :: x in run ==> Reliable(x.event)
    decreases |run|
  {
    hide Step;
    if run != [] {
      DeliveriesAreReliable(Step(w, run[0]), run[1..]);
    }
  }

  /**
    * From every state of a reliable run with candidates at both ends: delivering,
    * in any order the queues allow and without new attempts, stops after a bounded
    * number of actions, and where it stops both ends are connected.
    */
  lemma DeliveryConnects(aFirst: bool, run: seq<Action>, more: seq<Action>)
    requires (forall x :: x in run ==> Reliable(x.event)) && Ready(After(aFirst, run)) && DeliveryRun(After(aFirst, run), more)
    ensures |more| <= Potential(After(aFirst, run))
    ensures AtRest(From(After(aFirst, run), more)) ==> var w := After(aFirst, run + more); Quiet(w) && Connected(w)
  {
    hide Step, Potential, Ready, Quiet, Connected, AtRest, NegotiationRuns.After;
    var w := After(aFirst, run);
    DeliveryIsBounded(w, more);
    AfterFrom(aFirst, run, more);
    DeliveriesAreReliable(w, more);
    if AtRest(From(w, more)) {
      RestIsQuiet(From(w, more));
      QuietIsConnected(aFirst, run + more);
    }
  }

  /** Such runs exist from every such state. */
  lemma ConnectionIsReached(aFirst: bool, run: seq<Action>) returns (more: seq<Action>)
    requires (forall x :: x in run ==> Reliable(x.event)) && Ready(After(aFirst, run))
    ensures DeliveryRun(After(aFirst, run), more) && |more| <= Potential(After(aFirst, run))
    ensures var w := After(aFirst, run + more); Quiet(w) && Connected(w)
  {
    hide Step, Potential, Ready, Quiet, Connected;
    more := DeliveryReachesRest(After(aFirst, run));
    DeliveryConnects(aFirst, run, more);
  }

  /** Two ends that only prepare, and so cross their offers, connect within eighteen actions. */
  lemma CrossedOffersConnect(aFirst: bool) returns (more: seq<Action>)
    ensures var run := [Action(true, Prepare(true)), Action(false, Prepare(true))] + more; Quiet(After(aFirst, run)) && Connected(After(aFirst, run))
    ensures |more| <= 18
  {
    var a, b := Action(true, Prepare(true)), Action(false, Prepare(true));
    var run := [a, b];
    assert run[..|run| - 1] == [a] && [a][..|[a]| - 1] == [];
    assert After(aFirst, [a]) == Step(After(aFirst, []), a);
    var w := After(aFirst, run);
    assert w == Step(Step(Start(aFirst), a), b);
    assert w.a == Prepared(Side(0, None), true) && w.b == Prepared(Side(0, None), true);
    assert w.ab == Channel([], 0, []) && w.ba == Channel([], 0, []);
    assert Ready(w) && Potential(w) <= 18;
    hide Step, Potential, Ready, Quiet, Connected;
    more := ConnectionIsReached(aFirst, run);
  }
}
