/**
  * Two processes negotiating over a relay: the step relation, and agreement in
  * every reachable state whatever is lost, delayed, repeated or reordered.
  */
module NegotiationRuns {
  import opened Bytes
  import opened Negotiation

  /**
    * One direction. `up` holds messages on their way to the relay, `last` is the
    * relay's highest forwarded number for this sender and recipient, and `down`
    * holds what it forwarded and the recipient has not handled.
    */
  datatype Channel = Channel(up: seq<Message>, last: nat, down: seq<Message>)

  /** `aFirst`: the identifier of `a` precedes that of `b`. */
  datatype World = World(aFirst: bool, a: Side, b: Side, ab: Channel, ba: Channel)

  function Swap(w: World): (r: World)
  {
    World(!w.aFirst, w.b, w.a, w.ba, w.ab)
  }

  datatype Event =
    | Prepare(reachable: bool)
    | Erase
    | Bump
    | Publish(left: bool, reported: bool)  // the message may leave although the send is reported failed
    | Relay(at: nat)
    | LoseUp(at: nat)
    | LoseDown(at: nat)
    | Handle(at: nat, reachable: bool)

  function Without<T>(s: seq<T>, at: nat): (r: seq<T>)
    requires at < |s|
  {
    s[..at] + s[at + 1..]
  }

  /** The relay's filter: a number is forwarded once, and never after a higher one. */
  function Forwarded(c: Channel, at: nat): (r: Channel)
    requires at < |c.up|
  {
    var m := c.up[at];
    if m.generation > c.last
    then Channel(Without(c.up, at), m.generation, c.down + [m])
    else c.(up := Without(c.up, at))
  }

  predicate Enabled(w: World, e: Event)
  {
    match e
    case Publish(_, _) => CanPublish(w.a)
    case Relay(at) => at < |w.ab.up|
    case LoseUp(at) => at < |w.ab.up|
    case LoseDown(at) => at < |w.ab.down|
    case Handle(at, _) => at < |w.ba.down|
    case _ => true
  }

  /** An event of process `a` or of its outgoing channel. */
  function StepA(w: World, e: Event): (r: World)
    requires Enabled(w, e)
  {
    match e
    case Prepare(reachable) => w.(a := Prepared(w.a, reachable))
    case Erase => w.(a := w.a.(link := None))
    case Bump => w.(a := Bumped(w.a))
    case Publish(left, reported) =>
      var l := w.a.link.value;
      w.(a := w.a.(link := Some(l.(published := reported))),
         ab := if left then w.ab.(up := w.ab.up + [Current(l)]) else w.ab)
    case Relay(at) => w.(ab := Forwarded(w.ab, at))
    case LoseUp(at) => w.(ab := w.ab.(up := Without(w.ab.up, at)))
    case LoseDown(at) => w.(ab := w.ab.(down := Without(w.ab.down, at)))
    case Handle(at, reachable) =>
      w.(a := Received(w.a, w.ba.down[at], w.aFirst, reachable),
         ba := w.ba.(down := Without(w.ba.down, at)))
  }

  /** `byA` picks the process. */
  datatype Action = Action(byA: bool, event: Event)

  /** An action that is not enabled does nothing, so every sequence of actions is a run. */
  function Step(w: World, x: Action): (r: World)
  {
    var v := if x.byA then w else Swap(w);
    if !Enabled(v, x.event) then w
    else if x.byA then StepA(v, x.event) else Swap(StepA(v, x.event))
  }

  function Start(aFirst: bool): (w: World)
  {
    World(aFirst, Side(0, None), Side(0, None), Channel([], 0, []), Channel([], 0, []))
  }

  function After(aFirst: bool, run: seq<Action>): (w: World)
  {
    if run == [] then Start(aFirst)
    else Step(After(aFirst, run[..|run| - 1]), run[|run| - 1])
  }

  // ---- The invariant, over what a channel carries rather than how ----

  /** `air`: every message on the way. `pending`: numbers forwarded and not handled. */
  datatype Traffic = Traffic(air: set<Message>, last: nat, pending: set<nat>)

  datatype View = View(a: Side, b: Side, ab: Traffic, ba: Traffic)

  ghost function TrafficOf(c: Channel): Traffic
  {
    Traffic((set m | m in c.up) + (set m | m in c.down), c.last, set m | m in c.down :: m.generation)
  }

  ghost function ViewOf(w: World): View
  {
    View(w.a, w.b, TrafficOf(w.ab), TrafficOf(w.ba))
  }

  ghost function Flip(v: View): View
  {
    View(v.b, v.a, v.ba, v.ab)
  }

  /** The relay is done with this number: forwarded or skipped, and handled or lost if forwarded. */
  ghost predicate Spent(t: Traffic, g: nat)
  {
    g <= t.last && g !in t.pending
  }

  ghost predicate WellFormed(v: View)
  {
    && (v.a.link.Some? ==>
          var l := v.a.link.value;
          && 0 < l.local <= v.a.generation
          && l.peer <= v.b.generation
          && (l.waiting <==> l.peer == 0)
          && (l.responseTo != 0 ==> l.peer == l.responseTo))
    && v.ab.last <= v.a.generation
    && (forall m :: m in v.ab.air ==>
          && 0 < m.generation <= v.a.generation
          && m.responseTo <= v.b.generation
          && (v.a.link.Some? && m.generation == v.a.link.value.local ==> m == Current(v.a.link.value)))
    && (forall g :: g in v.ab.pending ==> g <= v.ab.last)
  }

  /** Every message that answers `g` carries the number `n`. */
  ghost predicate AnswersUnder(air: set<Message>, g: nat, n: nat)
  {
    forall m :: m in air && m.responseTo == g ==> m.generation == n
  }

  ghost predicate Answered(air: set<Message>, g: nat)
  {
    exists m :: m in air && m.responseTo == g
  }

  /**
    * What `a` has said about the current number of `b`: it says so only after
    * the relay is done with that number, always under one number of its own,
    * and that number is the one both ends end up with.
    */
  ghost predicate SingleAnswer(v: View)
  {
    v.b.link.Some? ==>
      var b := v.b.link.value;
      && (Answered(v.ab.air, b.local) ==>
            Spent(v.ba, b.local) && b.responseTo == 0 && exists n :: AnswersUnder(v.ab.air, b.local, n))
      && (v.a.link.Some? && v.a.link.value.peer == b.local ==>
            var a := v.a.link.value;
            && Spent(v.ba, b.local)
            && AnswersUnder(v.ab.air, b.local, a.local)
            && (|| (a.responseTo == b.local && b.responseTo == 0)
                || (a.responseTo == 0 && b.responseTo == a.local && b.peer == a.local)))
      && (b.peer != 0 && b.responseTo == 0 ==>
            && Spent(v.ba, b.local)
            && AnswersUnder(v.ab.air, b.local, b.peer)
            && (v.a.link.Some? && v.a.link.value.peer == b.local ==> v.a.link.value.local == b.peer))
  }

  ghost predicate Inv(v: View)
  {
    WellFormed(v) && WellFormed(Flip(v)) && SingleAnswer(v) && SingleAnswer(Flip(v))
  }

  lemma PreparedKeepsInv(v: View, reachable: bool)
    requires Inv(v)
    ensures Inv(v.(a := Prepared(v.a, reachable)))
  {}

  lemma ErasedKeepsInv(v: View)
    requires Inv(v)
    ensures Inv(v.(a := v.a.(link := None)))
  {}

  lemma BumpedKeepsInv(v: View)
    requires Inv(v)
    ensures Inv(v.(a := Bumped(v.a)))
  {}

  lemma PublishedKeepsInv(v: View, reported: bool, air: set<Message>)
    requires Inv(v) && v.a.link.Some?
    requires v.ab.air <= air <= v.ab.air + {Current(v.a.link.value)}
    ensures Inv(v.(a := v.a.(link := Some(v.a.link.value.(published := reported))), ab := v.ab.(air := air)))
  {
    var l := v.a.link.value;
    var u := v.(a := v.a.(link := Some(l.(published := reported))), ab := v.ab.(air := air));
    assert WellFormed(u) && WellFormed(Flip(u));
    if v.b.link.Some? {
      var b := v.b.link.value;
      if Answered(air, b.local) && !Answered(v.ab.air, b.local) {
        assert AnswersUnder(air, b.local, l.local);
      } else if Answered(air, b.local) {
        var n :| AnswersUnder(v.ab.air, b.local, n);
        assert AnswersUnder(air, b.local, n);
      }
    }
    assert SingleAnswer(u);
    assert SingleAnswer(Flip(u));
  }

  /** Losing messages, and forwarding a number above everything forwarded before, keeps the invariant. */
  lemma CarriedKeepsInv(v: View, t: Traffic)
    requires Inv(v)
    requires t.air <= v.ab.air && v.ab.last <= t.last <= v.a.generation
    requires forall g :: g in t.pending ==> g <= t.last && (g in v.ab.pending || g > v.ab.last)
    ensures Inv(v.(ab := t))
  {
    var u := v.(ab := t);
    assert forall g :: Spent(v.ab, g) ==> Spent(t, g);
    assert forall g, n :: AnswersUnder(v.ab.air, g, n) ==> AnswersUnder(t.air, g, n);
    assert SingleAnswer(u);
    assert SingleAnswer(Flip(u));
  }

  /** A message that has just left the channel of `b`, as the invariant describes it. */
  ghost predicate JustArrived(v: View, m: Message)
  {
    && 0 < m.generation <= v.b.generation && m.responseTo <= v.a.generation
    && Spent(v.ba, m.generation)
    && (v.b.link.Some? && m.generation == v.b.link.value.local ==>
          && m == Current(v.b.link.value)
          && (m.responseTo == 0 ==> v.b.link.value.peer == 0 && !Answered(v.ab.air, m.generation)))
    && (v.a.link.Some? && m.responseTo == v.a.link.value.local ==>
          && Spent(v.ab, m.responseTo)
          && AnswersUnder(v.ba.air, m.responseTo, m.generation)
          && (v.b.link.Some? && v.b.link.value.peer == m.responseTo ==> v.b.link.value.local == m.generation))
  }

  lemma ReceivedKeepsInv(v: View, m: Message, first: bool, reachable: bool)
    requires Inv(v) && JustArrived(v, m)
    ensures Inv(v.(a := Received(v.a, m, first, reachable)))
  {
    var u := v.(a := Received(v.a, m, first, reachable));
    assert WellFormed(u);
    assert WellFormed(Flip(u));
    assert SingleAnswer(u);
    assert SingleAnswer(Flip(u));
  }

  lemma ArrivalIsFresh(v: View, m: Message)
    requires Inv(v) && m in v.ba.air && m.generation in v.ba.pending
    ensures JustArrived(v.(ba := v.ba.(pending := v.ba.pending - {m.generation})), m)
  {
    if v.a.link.Some? && m.responseTo == v.a.link.value.local {
      assert Answered(v.ba.air, m.responseTo);
    }
  }

  // ---- The invariant along a run ----

  /** The relay forwards a number at most once, so the numbers waiting for `b` are distinct. */
  ghost predicate Distinct(s: seq<Message>)
  {
    forall i, j :: 0 <= i < j < |s| ==> s[i].generation != s[j].generation
  }

  ghost predicate Good(w: World)
  {
    Distinct(w.ab.down) && Distinct(w.ba.down) && Inv(ViewOf(w))
  }

  lemma WithoutMembers(s: seq<Message>, at: nat)
    requires at < |s|
    ensures forall m :: m in Without(s, at) ==> m in s
    ensures Distinct(s) ==> Distinct(Without(s, at))
    ensures Distinct(s) ==> forall m :: m in Without(s, at) ==> m.generation != s[at].generation
  {}

  lemma LosingUp(c: Channel, at: nat)
    requires at < |c.up|
    ensures TrafficOf(c.(up := Without(c.up, at))).air <= TrafficOf(c).air
  {
    WithoutMembers(c.up, at);
  }

  lemma LosingDown(c: Channel, at: nat)
    requires at < |c.down| && Distinct(c.down)
    ensures
      var t := TrafficOf(c.(down := Without(c.down, at)));
      t.air <= TrafficOf(c).air && t.pending <= TrafficOf(c).pending - {c.down[at].generation}
  {
    WithoutMembers(c.down, at);
  }

  lemma Forwarding(c: Channel, at: nat)
    requires at < |c.up| && Distinct(c.down)
    requires forall i :: 0 <= i < |c.down| ==> c.down[i].generation <= c.last
    ensures
      var d := Forwarded(c, at);
      && c.up[at] in TrafficOf(c).air
      && TrafficOf(d).air <= TrafficOf(c).air
      && Distinct(d.down)
      && c.last <= d.last && (d.last == c.last || d.last == c.up[at].generation)
      && forall g :: g in TrafficOf(d).pending ==> g <= d.last && (g in TrafficOf(c).pending || g > c.last)
  {
    LosingUp(c, at);
    var d := Forwarded(c, at);
    forall m | m in d.down
      ensures m in c.down || m == c.up[at]
    {}
  }

  lemma RelayKeepsGood(w: World, at: nat)
    requires Good(w) && at < |w.ab.up|
    ensures Good(StepA(w, Relay(at)))
  {
    var v := ViewOf(w);
    forall i | 0 <= i < |w.ab.down|
      ensures w.ab.down[i].generation <= w.ab.last
    {
      assert w.ab.down[i].generation in v.ab.pending;
    }
    Forwarding(w.ab, at);
    CarriedKeepsInv(v, TrafficOf(Forwarded(w.ab, at)));
  }

  lemma PendingIsBehind(v: View)
    requires Inv(v)
    ensures v.ba.last <= v.b.generation && forall g :: g in v.ba.pending ==> g <= v.ba.last
  {}

  lemma HandleKeepsGood(w: World, at: nat, reachable: bool)
    requires Good(w) && at < |w.ba.down|
    ensures Good(StepA(w, Handle(at, reachable)))
  {
    hide WellFormed, SingleAnswer, Received;
    var m := w.ba.down[at];
    var v := ViewOf(w);
    assert m in v.ba.air && m.generation in v.ba.pending;
    ArrivalIsFresh(v, m);
    var t := TrafficOf(w.ba.(down := Without(w.ba.down, at)));
    LosingDown(w.ba, at);
    WithoutMembers(w.ba.down, at);
    PendingIsBehind(v);
    CarriedKeepsInv(Flip(v), t);
    ReceivedKeepsInv(v.(ba := t), m, w.aFirst, reachable);
  }

  lemma StepAKeepsGood(w: World, e: Event)
    requires Good(w) && Enabled(w, e)
    ensures Good(StepA(w, e))
  {
    var v := ViewOf(w);
    match e
    case Prepare(reachable) => PreparedKeepsInv(v, reachable);
    case Erase => ErasedKeepsInv(v);
    case Bump => BumpedKeepsInv(v);
    case Publish(left, reported) =>
      PublishedKeepsInv(v, reported, TrafficOf(StepA(w, e).ab).air);
    case Relay(at) => RelayKeepsGood(w, at);
    case LoseUp(at) =>
      LosingUp(w.ab, at);
      CarriedKeepsInv(v, TrafficOf(w.ab.(up := Without(w.ab.up, at))));
    case LoseDown(at) =>
      LosingDown(w.ab, at);
      WithoutMembers(w.ab.down, at);
      CarriedKeepsInv(v, TrafficOf(w.ab.(down := Without(w.ab.down, at))));
    case Handle(at, reachable) => HandleKeepsGood(w, at, reachable);
  }

  lemma StepKeepsGood(w: World, x: Action)
    requires Good(w)
    ensures Good(Step(w, x))
  {
    var v := if x.byA then w else Swap(w);
    if Enabled(v, x.event) {
      StepAKeepsGood(v, x.event);
    }
  }

  lemma {:induction false} RunIsGood(aFirst: bool, run: seq<Action>)
    ensures Good(After(aFirst, run))
  {
    if run != [] {
      RunIsGood(aFirst, run[..|run| - 1]);
      StepKeepsGood(After(aFirst, run[..|run| - 1]), run[|run| - 1]);
    }
  }

  function BindingOf(local: DeviceId, peer: DeviceId, l: Link): (b: PeerBinding)
  {
    PeerBinding(local, peer, l.local, l.peer)
  }

  /**
    * In every reachable state, if the number `a` holds for `b` is `b`'s current
    * one and `b` holds any number for `a`, the two bindings are exact reverses.
    */
  lemma BindingsAreReversed(da: DeviceId, db: DeviceId, run: seq<Action>)
    requires da != db
    ensures
      var w := After(Before(da, db), run);
      w.a.link.Some? && w.b.link.Some? && w.a.link.value.peer == w.b.link.value.local && w.b.link.value.peer != 0 ==>
        BindingOf(da, db, w.a.link.value) == BindingOf(db, da, w.b.link.value).Reversed()
  {
    RunIsGood(Before(da, db), run);
  }

  /**
    * The relay's filter is needed: an offer handled a second time, after the
    * entry was prepared again, leaves `a` answering under a number `b` never uses.
    */
  lemma RepeatedOfferBreaksAgreement()
    ensures
      var b0 := Prepared(Side(0, None), true);
      var offer := Current(b0.link.value);
      var a1 := Received(Prepared(Side(0, None), true), offer, false, true);
      var a2 := Received(Prepared(a1, true), offer, false, true);
      var b1 := Received(b0, Current(a1.link.value), true, true);
      && a2.link.value.peer == b1.link.value.local
      && b1.link.value.peer != 0
      && b1.link.value.peer != a2.link.value.local
  {}
}
