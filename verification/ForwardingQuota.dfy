/**
  * Three-level token-bucket admission of forwarded packets, with `double` as
  * `real` and time in seconds. Every admission is charged to its device, its
  * network and the whole authority at once.
  */
module ForwardingQuota {
  import opened Bytes

  datatype Resource = Octets | Deliveries | Controls

  datatype Amounts = Amounts(octets: real, deliveries: real, controls: real)
  {
    function Get(r: Resource): real {
      match r
      case Octets => octets
      case Deliveries => deliveries
      case Controls => controls
    }
  }

  /** Tokens earned per second. */
  datatype Limits = Limits(device: Amounts, network: Amounts, authority: Amounts)

  ghost predicate Positive(a: Amounts)
  {
    a.octets > 0.0 && a.deliveries > 0.0 && a.controls > 0.0
  }

  datatype Bucket = Bucket(tokens: Amounts, updated: real, initialized: bool)

  const FRESH := Bucket(Amounts(0.0, 0.0, 0.0), 0.0, false)
  const BURST: real := 2.0
  const CAPACITY: nat := 4096
  const IDLE: real := 300.0
  const PRUNE_INTERVAL: real := 30.0
  const MAX_UINT64: nat := 0xffff_ffff_ffff_ffff

  datatype Quota = Quota(limits: Limits, devices: map<DeviceId, Bucket>, networks: map<NetworkId, Bucket>,
                         aggregate: Bucket, nextPrune: real)

  function Min(a: real, b: real): real
  {
    if a <= b then a else b
  }

  /** What a bucket holds of one resource at time `now`, whether or not it has been brought up to date. */
  function Level(b: Bucket, rate: Amounts, r: Resource, now: real): (v: real)
  {
    if !b.initialized then BURST * rate.Get(r)
    else if now <= b.updated then b.tokens.Get(r)
    else Min(BURST * rate.Get(r), b.tokens.Get(r) + (now - b.updated) * rate.Get(r))
  }

  function Refilled(b: Bucket, rate: Amounts, now: real): (r: Bucket)
  {
    if !b.initialized then Bucket(Amounts(rate.octets * BURST, rate.deliveries * BURST, rate.controls * BURST), now, true)
    else if now <= b.updated then b
    else
      var seconds := now - b.updated;
      Bucket(Amounts(Min(rate.octets * BURST, b.tokens.octets + seconds * rate.octets),
                     Min(rate.deliveries * BURST, b.tokens.deliveries + seconds * rate.deliveries),
                     Min(rate.controls * BURST, b.tokens.controls + seconds * rate.controls)), now, true)
  }

  predicate Expired(b: Bucket, now: real)
  {
    now > b.updated && now - b.updated > IDLE
  }

  function Kept<K(==)>(buckets: map<K, Bucket>, now: real): (r: map<K, Bucket>)
  {
    map k | k in buckets && !Expired(buckets[k], now) :: buckets[k]
  }

  function Pruned(q: Quota, now: real): (r: Quota)
  {
    if now < q.nextPrune then q
    else q.(devices := Kept(q.devices, now), networks := Kept(q.networks, now), nextPrune := now + PRUNE_INTERVAL)
  }

  function Find<K(==)>(buckets: map<K, Bucket>, k: K): (b: Bucket)
  {
    if k in buckets then buckets[k] else FRESH
  }

  datatype Request =
    | ControlMessage(actor: DeviceId, now: real)
    | Delivery(actor: DeviceId, network: NetworkId, size: nat, recipients: nat, now: real)

  predicate HasRoom(q: Quota, x: Request)
  {
    && (x.actor in q.devices || |q.devices| < CAPACITY)
    && (x.Delivery? ==> x.network in q.networks || |q.networks| < CAPACITY)
  }

  predicate WellFormed(x: Request)
  {
    x.Delivery? ==> x.size > 0 && 0 < x.recipients <= 4096 && x.size <= MAX_UINT64 / x.recipients
  }

  function Spend(b: Bucket, a: Amounts): (r: Bucket)
  {
    b.(tokens := Amounts(b.tokens.octets - a.octets, b.tokens.deliveries - a.deliveries, b.tokens.controls - a.controls))
  }

  /** A control request looks at control tokens alone, a delivery at the other two kinds. */
  predicate Covers(b: Bucket, x: Request)
  {
    var a := Cost(x);
    if x.ControlMessage? then b.tokens.controls >= a.controls
    else b.tokens.octets >= a.octets && b.tokens.deliveries >= a.deliveries
  }

  function Cost(x: Request): (a: Amounts)
  {
    match x
    case ControlMessage(_, _) => Amounts(0.0, 0.0, 1.0)
    case Delivery(_, _, size, recipients, _) => Amounts((size * recipients) as real, recipients as real, 0.0)
  }

  /** One call of `control` or `admit`: the new state and the answer. */
  function Step(q: Quota, x: Request): (r: (Quota, bool))
  {
    Serve(Pruned(q, x.now), x)
  }

  /** The call without the pruning in front of it. */
  function Serve(p: Quota, x: Request): (r: (Quota, bool))
  {
    if !WellFormed(x) || !HasRoom(p, x) then (p, false)
    else
      var device := Refilled(Find(p.devices, x.actor), p.limits.device, x.now);
      if x.ControlMessage? then
        var ok := Covers(device, x);
        (p.(devices := p.devices[x.actor := Paid(device, x, ok)]), ok)
      else
        var network := Refilled(Find(p.networks, x.network), p.limits.network, x.now);
        var aggregate := Refilled(p.aggregate, p.limits.authority, x.now);
        var ok := Covers(device, x) && Covers(network, x) && Covers(aggregate, x);
        (p.(devices := p.devices[x.actor := Paid(device, x, ok)], networks := p.networks[x.network := Paid(network, x, ok)],
            aggregate := Paid(aggregate, x, ok)), ok)
  }

  function Paid(b: Bucket, x: Request, ok: bool): (r: Bucket)
  {
    if ok then Spend(b, Cost(x)) else b
  }

  // ---- Accounts ----

  datatype Account = OfDevice(device: DeviceId) | OfNetwork(network: NetworkId) | OfAuthority

  function BucketOf(q: Quota, k: Account): (b: Bucket)
  {
    match k
    case OfDevice(d) => Find(q.devices, d)
    case OfNetwork(n) => Find(q.networks, n)
    case OfAuthority => q.aggregate
  }

  function RateOf(l: Limits, k: Account): (a: Amounts)
  {
    match k
    case OfDevice(_) => l.device
    case OfNetwork(_) => l.network
    case OfAuthority => l.authority
  }

  function LevelOf(q: Quota, k: Account, r: Resource, now: real): (v: real)
  {
    Level(BucketOf(q, k), RateOf(q.limits, k), r, now)
  }

  predicate Charges(x: Request, k: Account)
  {
    match k
    case OfDevice(d) => x.actor == d
    case OfNetwork(n) => x.Delivery? && x.network == n
    case OfAuthority => x.Delivery?
  }

  function Charge(x: Request, accepted: bool, k: Account, r: Resource): (v: real)
  {
    if accepted && Charges(x, k) then Cost(x).Get(r) else 0.0
  }

  // ---- Levels over time ----

  ghost predicate Sound(b: Bucket, rate: Amounts, now: real)
  {
    b.initialized ==> b.updated <= now && forall r :: 0.0 <= b.tokens.Get(r) <= BURST * rate.Get(r)
  }

  ghost predicate Inv(q: Quota, now: real)
  {
    forall k :: Positive(RateOf(q.limits, k)) && Sound(BucketOf(q, k), RateOf(q.limits, k), now)
  }

  /** What a level becomes when nothing is spent for a while. */
  function Grown(v: real, rate: real, seconds: real): (w: real)
  {
    Min(BURST * rate, v + seconds * rate)
  }

  lemma PositiveGet(a: Amounts, r: Resource)
    requires Positive(a)
    ensures a.Get(r) > 0.0
  {
    match r case Octets => case Deliveries => case Controls =>
  }

  lemma GrowthComposes(v: real, rate: real, s: real, t: real)
    requires rate > 0.0 && s >= 0.0 && t >= 0.0
    ensures Grown(Grown(v, rate, s), rate, t) == Grown(v, rate, s + t)
    ensures Grown(v, rate, s) <= v + s * rate
    ensures v >= 0.0 ==> Grown(v, rate, s) >= 0.0
    ensures Grown(BURST * rate, rate, s) == BURST * rate
  {
    assert s * rate >= 0.0 && t * rate >= 0.0;
    assert (s + t) * rate == s * rate + t * rate;
  }

  lemma LevelIsGrowth(b: Bucket, rate: Amounts, r: Resource, now: real)
    requires Sound(b, rate, now) && b.initialized
    ensures Level(b, rate, r, now) == Grown(b.tokens.Get(r), rate.Get(r), now - b.updated)
  {
    assert 0.0 <= b.tokens.Get(r) <= BURST * rate.Get(r);
  }

  lemma LevelGrows(b: Bucket, rate: Amounts, r: Resource, now: real, later: real)
    requires Sound(b, rate, now) && Positive(rate) && now <= later
    ensures 0.0 <= Level(b, rate, r, now) <= BURST * rate.Get(r)
    ensures Level(b, rate, r, later) == Grown(Level(b, rate, r, now), rate.Get(r), later - now)
  {
    PositiveGet(rate, r);
    if b.initialized {
      assert b.tokens.Get(r) >= 0.0;
      LevelIsGrowth(b, rate, r, now);
      LevelIsGrowth(b, rate, r, later);
      GrowthComposes(b.tokens.Get(r), rate.Get(r), now - b.updated, later - now);
    } else {
      GrowthComposes(BURST * rate.Get(r), rate.Get(r), later - now, 0.0);
    }
  }

  lemma RefillReachesLevel(b: Bucket, rate: Amounts, now: real)
    requires Sound(b, rate, now) && Positive(rate)
    ensures Sound(Refilled(b, rate, now), rate, now) && Refilled(b, rate, now).initialized
    ensures Refilled(b, rate, now).updated == now
    ensures forall r :: Refilled(b, rate, now).tokens.Get(r) == Level(b, rate, r, now)
  {
    forall r ensures Refilled(b, rate, now).tokens.Get(r) == Level(b, rate, r, now)
      ensures 0.0 <= Level(b, rate, r, now) <= BURST * rate.Get(r)
    {
      LevelGrows(b, rate, r, now, now);
    }
  }

  /** A bucket idle for over five minutes is full: dropping it changes no level. */
  lemma ExpiredIsFull(b: Bucket, rate: Amounts, r: Resource, now: real)
    requires Sound(b, rate, now) && Positive(rate) && Expired(b, now)
    ensures Level(b, rate, r, now) == Level(FRESH, rate, r, now)
  {
    PositiveGet(rate, r);
    if b.initialized {
      LevelIsGrowth(b, rate, r, now);
      assert b.tokens.Get(r) >= 0.0;
      GrowsFull(b.tokens.Get(r), rate.Get(r), now - b.updated);
    }
    hide Amounts.Get;
  }

  lemma GrowsFull(v: real, rate: real, seconds: real)
    requires v >= 0.0 && rate > 0.0 && seconds > IDLE
    ensures Grown(v, rate, seconds) == BURST * rate
  {
    IdleFills(seconds, rate);
  }

  lemma IdleFills(seconds: real, rate: real)
    requires seconds > IDLE && rate > 0.0
    ensures seconds * rate >= BURST * rate
  {
    assert (seconds - BURST) * rate >= 0.0;
    assert seconds * rate == (seconds - BURST) * rate + BURST * rate;
  }

  lemma PruneKeepsLevels(q: Quota, now: real)
    requires Inv(q, now)
    ensures Inv(Pruned(q, now), now)
    ensures forall k, r :: LevelOf(Pruned(q, now), k, r, now) == LevelOf(q, k, r, now)
  {
    forall k, r ensures LevelOf(Pruned(q, now), k, r, now) == LevelOf(q, k, r, now) {
      var b := BucketOf(q, k);
      if b != BucketOf(Pruned(q, now), k) {
        ExpiredIsFull(b, RateOf(q.limits, k), r, now);
      }
    }
  }

  // ---- One request ----

  /** The bucket of account `k` after a request that had room and was accepted or not. */
  function Settled(q: Quota, x: Request, accepted: bool, k: Account): (b: Bucket)
  {
    var b := BucketOf(q, k);
    if !Charges(x, k) then b
    else
      Paid(Refilled(b, RateOf(q.limits, k), x.now), x, accepted)
  }

  lemma ServeSettles(q: Quota, x: Request, k: Account)
    ensures var (q', ok) := Serve(q, x);
      && q'.limits == q.limits
      && BucketOf(q', k) == if WellFormed(x) && HasRoom(q, x) then Settled(q, x, ok, k) else BucketOf(q, k)
  {
  }

  ghost predicate Affordable(q: Quota, x: Request)
  {
    forall k, r :: Charges(x, k) ==> Cost(x).Get(r) <= LevelOf(q, k, r, x.now)
  }

  lemma CoversExactly(b: Bucket, x: Request)
    requires forall r :: b.tokens.Get(r) >= 0.0
    ensures Covers(b, x) <==> forall r :: Cost(x).Get(r) <= b.tokens.Get(r)
  {
    assert b.tokens.Get(Octets) >= 0.0 && b.tokens.Get(Deliveries) >= 0.0 && b.tokens.Get(Controls) >= 0.0;
    if forall r :: Cost(x).Get(r) <= b.tokens.Get(r) {
      assert Cost(x).Get(Octets) <= b.tokens.Get(Octets);
      assert Cost(x).Get(Deliveries) <= b.tokens.Get(Deliveries);
      assert Cost(x).Get(Controls) <= b.tokens.Get(Controls);
    }
  }

  lemma CostIsNotNegative(x: Request, r: Resource)
    ensures Cost(x).Get(r) >= 0.0
  {
    if x.Delivery? {
      assert x.size * x.recipients >= 0;
    }
  }

  lemma SpendKeepsSound(b: Bucket, rate: Amounts, x: Request)
    requires Sound(b, rate, x.now) && b.initialized && Covers(b, x)
    ensures Sound(Spend(b, Cost(x)), rate, x.now)
    ensures forall r :: Spend(b, Cost(x)).tokens.Get(r) == b.tokens.Get(r) - Cost(x).Get(r)
  {
    CoversExactly(b, x);
    forall r ensures 0.0 <= Spend(b, Cost(x)).tokens.Get(r) <= BURST * rate.Get(r)
      ensures Spend(b, Cost(x)).tokens.Get(r) == b.tokens.Get(r) - Cost(x).Get(r)
    {
      CostIsNotNegative(x, r);
      assert 0.0 <= b.tokens.Get(r) <= BURST * rate.Get(r);
    }
  }

  lemma SoundBucket(q: Quota, k: Account, now: real)
    requires Inv(q, now)
    ensures Sound(BucketOf(q, k), RateOf(q.limits, k), now) && Positive(RateOf(q.limits, k))
  {
  }

  lemma AccountCovers(q: Quota, x: Request, k: Account)
    requires Inv(q, x.now)
    ensures Covers(Refilled(BucketOf(q, k), RateOf(q.limits, k), x.now), x)
        <==> forall r :: Cost(x).Get(r) <= LevelOf(q, k, r, x.now)
  {
    var rate := RateOf(q.limits, k);
    SoundBucket(q, k, x.now);
    RefillReachesLevel(BucketOf(q, k), rate, x.now);
    var b := Refilled(BucketOf(q, k), rate, x.now);
    CoversExactly(b, x);
    assert forall r :: b.tokens.Get(r) == LevelOf(q, k, r, x.now);
  }

  lemma ServedExactly(q: Quota, x: Request)
    requires Inv(q, x.now)
    ensures Serve(q, x).1 <==> WellFormed(x) && HasRoom(q, x) && Affordable(q, x)
  {
    forall k | Charges(x, k)
      ensures Covers(Refilled(BucketOf(q, k), RateOf(q.limits, k), x.now), x)
          <==> forall r :: Cost(x).Get(r) <= LevelOf(q, k, r, x.now)
    {
      AccountCovers(q, x, k);
    }
    assert Charges(x, OfDevice(x.actor));
    if x.Delivery? {
      assert Charges(x, OfNetwork(x.network)) && Charges(x, OfAuthority);
    }
  }

  /** A request is accepted exactly when it is well formed, fits the maps and every account it charges can pay. */
  lemma AcceptedExactly(q: Quota, x: Request)
    requires Inv(q, x.now)
    ensures Step(q, x).1 <==> WellFormed(x) && HasRoom(Pruned(q, x.now), x) && Affordable(q, x)
  {
    hide Serve, Pruned, HasRoom, WellFormed, LevelOf;
    PruneKeepsLevels(q, x.now);
    ServedExactly(Pruned(q, x.now), x);
  }

  lemma ServedIsCovered(q: Quota, x: Request, k: Account)
    requires Serve(q, x).1 && Charges(x, k)
    ensures WellFormed(x) && HasRoom(q, x)
    ensures Covers(Refilled(BucketOf(q, k), RateOf(q.limits, k), x.now), x)
  {
  }

  lemma SettledLevel(q: Quota, x: Request, accepted: bool, k: Account, r: Resource)
    requires Inv(q, x.now)
    requires accepted && Charges(x, k) ==> Covers(Refilled(BucketOf(q, k), RateOf(q.limits, k), x.now), x)
    ensures var b, rate := Settled(q, x, accepted, k), RateOf(q.limits, k);
      && Sound(b, rate, x.now) && (b.initialized || b == BucketOf(q, k))
      && Level(b, rate, r, x.now) == LevelOf(q, k, r, x.now) - Charge(x, accepted, k, r)
  {
    hide Refilled, Covers, Spend, Cost;
    var rate := RateOf(q.limits, k);
    SoundBucket(q, k, x.now);
    if Charges(x, k) {
      RefillReachesLevel(BucketOf(q, k), rate, x.now);
      var b := Refilled(BucketOf(q, k), rate, x.now);
      if accepted {
        SpendKeepsSound(b, rate, x);
        SpendIsUpToDate(b, x);
      }
    }
  }

  lemma SpendIsUpToDate(b: Bucket, x: Request)
    ensures Spend(b, Cost(x)).updated == b.updated && Spend(b, Cost(x)).initialized == b.initialized
  {
  }

  lemma ServedCharge(q: Quota, x: Request, k: Account, r: Resource)
    requires Inv(q, x.now)
    ensures LevelOf(Serve(q, x).0, k, r, x.now) == LevelOf(q, k, r, x.now) - Charge(x, Serve(q, x).1, k, r)
    ensures Sound(BucketOf(Serve(q, x).0, k), RateOf(q.limits, k), x.now)
  {
    hide Serve, HasRoom, WellFormed, Level, Refilled, Covers, Settled, Sound, Inv, BucketOf, RateOf, Cost, Charges;
    ServeSettles(q, x, k);
    var ok := Serve(q, x).1;
    SoundBucket(q, k, x.now);
    if ok && Charges(x, k) {
      ServedIsCovered(q, x, k);
    }
    SettledLevel(q, x, ok, k, r);
  }

  lemma ServeKeepsInv(q: Quota, x: Request, now: real)
    requires Inv(q, now) && now <= x.now
    ensures Inv(q, x.now) && Inv(Serve(q, x).0, x.now) && Serve(q, x).0.limits == q.limits
  {
    hide Serve, BucketOf, RateOf, Charge, LevelOf;
    assert Inv(q, x.now);
    ServeSettles(q, x, OfAuthority);
    forall k ensures Sound(BucketOf(Serve(q, x).0, k), RateOf(q.limits, k), x.now) {
      ServedCharge(q, x, k, Octets);
    }
  }

  lemma StepKeepsInv(q: Quota, x: Request, now: real)
    requires Inv(q, now) && now <= x.now
    ensures Inv(q, x.now) && Inv(Step(q, x).0, x.now) && Step(q, x).0.limits == q.limits
  {
    hide Serve, BucketOf, RateOf;
    assert Inv(q, x.now);
    PruneKeepsLevels(q, x.now);
    ServeKeepsInv(Pruned(q, x.now), x, x.now);
  }

  /** The charge, and nothing else, leaves each account. */
  lemma ChargedExactly(q: Quota, x: Request, k: Account, r: Resource)
    requires Inv(q, x.now)
    ensures LevelOf(Step(q, x).0, k, r, x.now) == LevelOf(q, k, r, x.now) - Charge(x, Step(q, x).1, k, r)
  {
    hide Serve, LevelOf, Charge;
    PruneKeepsLevels(q, x.now);
    ServedCharge(Pruned(q, x.now), x, k, r);
  }

  // ---- The same in plain numbers ----

  /** A control request needs room in the map and one control token of its device. */
  lemma ControlExactly(q: Quota, actor: DeviceId, now: real)
    requires Inv(q, now)
    ensures var devices := Pruned(q, now).devices;
      Step(q, ControlMessage(actor, now)).1 <==> (actor in devices || |devices| < 4096) && LevelOf(q, OfDevice(actor), Controls, now) >= 1.0
  {
    hide Step, Pruned, LevelOf;
    var x := ControlMessage(actor, now);
    AcceptedExactly(q, x);
    assert Charges(x, OfDevice(actor));
    if LevelOf(q, OfDevice(actor), Controls, now) >= 1.0 {
      forall k, r | Charges(x, k) ensures Cost(x).Get(r) <= LevelOf(q, k, r, now) {
        LevelIsBounded(q, now, k, r);
      }
    } else {
      assert Cost(x).Get(Controls) == 1.0;
    }
  }

  ghost predicate CanPay(q: Quota, k: Account, size: nat, recipients: nat, now: real)
  {
    LevelOf(q, k, Octets, now) >= (size * recipients) as real && LevelOf(q, k, Deliveries, now) >= recipients as real
  }

  /** A delivery needs a sane size and number of recipients, room in both maps, and all its octets and deliveries at all three levels. */
  lemma DeliveryExactly(q: Quota, actor: DeviceId, network: NetworkId, size: nat, recipients: nat, now: real)
    requires Inv(q, now)
    ensures var p := Pruned(q, now);
      Step(q, Delivery(actor, network, size, recipients, now)).1 <==>
        && size > 0 && 0 < recipients <= 4096 && size * recipients <= 0xffff_ffff_ffff_ffff
        && (actor in p.devices || |p.devices| < 4096) && (network in p.networks || |p.networks| < 4096)
        && CanPay(q, OfDevice(actor), size, recipients, now) && CanPay(q, OfNetwork(network), size, recipients, now)
        && CanPay(q, OfAuthority, size, recipients, now)
  {
    hide Step, Pruned, LevelOf;
    var x := Delivery(actor, network, size, recipients, now);
    AcceptedExactly(q, x);
    if recipients > 0 {
      FitsExactly(size, recipients);
    }
    AffordableMeans(q, x);
  }

  lemma AffordableMeans(q: Quota, x: Request)
    requires Inv(q, x.now) && x.Delivery?
    ensures Affordable(q, x) <==>
      && CanPay(q, OfDevice(x.actor), x.size, x.recipients, x.now) && CanPay(q, OfNetwork(x.network), x.size, x.recipients, x.now)
      && CanPay(q, OfAuthority, x.size, x.recipients, x.now)
  {
    hide LevelOf;
    assert Charges(x, OfDevice(x.actor)) && Charges(x, OfNetwork(x.network)) && Charges(x, OfAuthority);
    assert Cost(x).Get(Octets) == (x.size * x.recipients) as real && Cost(x).Get(Deliveries) == x.recipients as real;
    forall k, r | Charges(x, k) && CanPay(q, k, x.size, x.recipients, x.now) ensures Cost(x).Get(r) <= LevelOf(q, k, r, x.now) {
      LevelIsBounded(q, x.now, k, r);
    }
  }

  lemma FitsExactly(size: nat, recipients: nat)
    requires recipients > 0
    ensures size <= MAX_UINT64 / recipients <==> size * recipients <= MAX_UINT64
  {
    QuotientExactly(MAX_UINT64, recipients, size);
  }

  lemma QuotientExactly(m: nat, d: nat, x: nat)
    requires d > 0
    ensures x <= m / d <==> x * d <= m
  {
    var q, r := m / d, m % d;
    assert m == q * d + r;
    if x <= q {
      Grows(x, q, d);
    } else {
      Grows(q + 1, x, d);
      assert (q + 1) * d == q * d + d;
    }
  }

  lemma {:induction false} Grows(a: nat, b: nat, d: nat)
    requires a <= b
    ensures a * d <= b * d
  {
    if a < b {
      Grows(a, b - 1, d);
      assert b * d == (b - 1) * d + d;
    }
  }

  /** What an accepted request takes from an account. */
  lemma ChargeMeans(x: Request, k: Account)
    ensures Charge(x, false, k, Octets) == Charge(x, false, k, Deliveries) == Charge(x, false, k, Controls) == 0.0
    ensures x.ControlMessage? ==>
      && Charge(x, true, k, Octets) == Charge(x, true, k, Deliveries) == 0.0 && Charge(x, true, k, Controls) == if k == OfDevice(x.actor) then 1.0 else 0.0
    ensures x.Delivery? ==>
      var mine := k == OfDevice(x.actor) || k == OfNetwork(x.network) || k == OfAuthority;
      && Charge(x, true, k, Octets) == (if mine then (x.size * x.recipients) as real else 0.0)
      && Charge(x, true, k, Deliveries) == (if mine then x.recipients as real else 0.0) && Charge(x, true, k, Controls) == 0.0
  {
  }

  /** Without requests an account earns its rate up to two seconds' worth, which is also what it starts with. */
  lemma WaitingEarns(q: Quota, k: Account, r: Resource, now: real, later: real)
    requires Inv(q, now) && now <= later
    ensures var rate, v := RateOf(q.limits, k).Get(r), LevelOf(q, k, r, now) + (later - now) * RateOf(q.limits, k).Get(r);
      LevelOf(q, k, r, later) == if v <= 2.0 * rate then v else 2.0 * rate
    ensures !BucketOf(q, k).initialized ==> LevelOf(q, k, r, now) == 2.0 * RateOf(q.limits, k).Get(r)
  {
    hide BucketOf, RateOf, Sound, Amounts.Get;
    LevelGrows(BucketOf(q, k), RateOf(q.limits, k), r, now, later);
  }

  /** Every thirty seconds at most, the buckets untouched for over five minutes go, and no others. */
  lemma PrunedExactly(q: Quota, now: real, d: DeviceId, n: NetworkId)
    ensures d in Pruned(q, now).devices <==> d in q.devices && (now < q.nextPrune || now - q.devices[d].updated <= 300.0)
    ensures n in Pruned(q, now).networks <==> n in q.networks && (now < q.nextPrune || now - q.networks[n].updated <= 300.0)
    ensures Pruned(q, now).nextPrune == if now < q.nextPrune then q.nextPrune else now + 30.0
    ensures Pruned(q, now).aggregate == q.aggregate
  {
  }

  // ---- Whole runs ----

  /** The requests come in time order, none before `now`. */
  predicate Ordered(xs: seq<Request>, now: real)
  {
    xs == [] || (now <= xs[0].now && Ordered(xs[1..], xs[0].now))
  }

  function EndOf(xs: seq<Request>, now: real): (t: real)
  {
    if xs == [] then now else xs[|xs| - 1].now
  }

  function After(q: Quota, xs: seq<Request>): (r: Quota)
    decreases |xs|
  {
    if xs == [] then q else After(Step(q, xs[0]).0, xs[1..])
  }

  /** What a run takes out of one account. */
  function Admitted(q: Quota, xs: seq<Request>, k: Account, r: Resource): (v: real)
    decreases |xs|
  {
    if xs == [] then 0.0
    else Charge(xs[0], Step(q, xs[0]).1, k, r) + Admitted(Step(q, xs[0]).0, xs[1..], k, r)
  }

  lemma {:induction false} RunKeepsInv(q: Quota, xs: seq<Request>, now: real)
    requires Inv(q, now) && Ordered(xs, now)
    ensures Inv(After(q, xs), EndOf(xs, now)) && After(q, xs).limits == q.limits
    decreases |xs|
  {
    if xs != [] {
      StepKeepsInv(q, xs[0], now);
      RunKeepsInv(Step(q, xs[0]).0, xs[1..], xs[0].now);
      assert EndOf(xs, now) == EndOf(xs[1..], xs[0].now);
    }
  }

  /** One request and the wait before it: what is spent plus what is left is at most what was there plus what was earned. */
  lemma StepBalance(q: Quota, x: Request, now: real, k: Account, r: Resource)
    requires Inv(q, now) && now <= x.now
    ensures Charge(x, Step(q, x).1, k, r) + LevelOf(Step(q, x).0, k, r, x.now)
         <= LevelOf(q, k, r, now) + (x.now - now) * RateOf(q.limits, k).Get(r)
  {
    hide Step, Charge, Level, Sound;
    var rate := RateOf(q.limits, k);
    StepKeepsInv(q, x, now);
    ChargedExactly(q, x, k, r);
    LevelGrows(BucketOf(q, k), rate, r, now, x.now);
  }

  lemma EarnedAdds(a: real, b: real, c: real, rate: real)
    ensures (b - a) * rate + (c - b) * rate == (c - a) * rate
  {
  }

  lemma {:induction false} RunBalance(q: Quota, xs: seq<Request>, now: real, k: Account, r: Resource)
    requires Inv(q, now) && Ordered(xs, now)
    ensures Admitted(q, xs, k, r) + LevelOf(After(q, xs), k, r, EndOf(xs, now))
         <= LevelOf(q, k, r, now) + (EndOf(xs, now) - now) * RateOf(q.limits, k).Get(r)
    decreases |xs|
  {
    hide Step, Charge, LevelOf, Inv, RateOf, Amounts.Get;
    if xs != [] {
      var x := xs[0];
      StepKeepsInv(q, x, now);
      StepBalance(q, x, now, k, r);
      RunBalance(Step(q, x).0, xs[1..], x.now, k, r);
      assert EndOf(xs, now) == EndOf(xs[1..], x.now);
      EarnedAdds(now, x.now, EndOf(xs, now), RateOf(q.limits, k).Get(r));
    }
  }

  /** A quota before its first request. */
  function Configured(l: Limits): (q: Quota)
  {
    Quota(l, map[], map[], FRESH, 0.0)
  }

  lemma ConfiguredIsSound(l: Limits, now: real)
    requires Positive(l.device) && Positive(l.network) && Positive(l.authority)
    ensures Inv(Configured(l), now)
  {
  }

  lemma InvLasts(q: Quota, now: real, later: real)
    requires Inv(q, now) && now <= later
    ensures Inv(q, later)
  {
  }

  lemma LevelIsBounded(q: Quota, now: real, k: Account, r: Resource)
    requires Inv(q, now)
    ensures 0.0 <= LevelOf(q, k, r, now) <= BURST * RateOf(q.limits, k).Get(r)
  {
    hide Level, BucketOf, RateOf, Sound;
    LevelGrows(BucketOf(q, k), RateOf(q.limits, k), r, now, now);
  }

  lemma SegmentIsBounded(q: Quota, interval: seq<Request>, from: real, k: Account, r: Resource)
    requires Inv(q, from) && Ordered(interval, from)
    ensures Admitted(q, interval, k, r) <= BURST * RateOf(q.limits, k).Get(r) + (EndOf(interval, from) - from) * RateOf(q.limits, k).Get(r)
  {
    hide *;
    RunBalance(q, interval, from, k, r);
    RunKeepsInv(q, interval, from);
    LevelIsBounded(q, from, k, r);
    LevelIsBounded(After(q, interval), EndOf(interval, from), k, r);
  }

  /**
    * Whatever happened before, what an interval admits is at most a burst and
    * what the interval earns, for every device, every network and the whole
    * authority, in octets, deliveries and control requests.
    */
  lemma IntervalIsBounded(l: Limits, earlier: seq<Request>, interval: seq<Request>, start: real, from: real, k: Account, r: Resource)
    requires Positive(l.device) && Positive(l.network) && Positive(l.authority)
    requires Ordered(earlier, start) && EndOf(earlier, start) <= from && Ordered(interval, from)
    ensures Admitted(After(Configured(l), earlier), interval, k, r)
         <= BURST * RateOf(l, k).Get(r) + (EndOf(interval, from) - from) * RateOf(l, k).Get(r)
  {
    hide Inv, After, EndOf, Ordered, Admitted, RateOf, Amounts.Get;
    ConfiguredIsSound(l, start);
    RunKeepsInv(Configured(l), earlier, start);
    var q := After(Configured(l), earlier);
    InvLasts(q, EndOf(earlier, start), from);
    SegmentIsBounded(q, interval, from, k, r);
  }

  // ---- Pruning cannot be seen ----

  function Answers(q: Quota, xs: seq<Request>): (a: seq<bool>)
    decreases |xs|
  {
    if xs == [] then [] else [Step(q, xs[0]).1] + Answers(Step(q, xs[0]).0, xs[1..])
  }

  /** The answers of a quota that never forgets a bucket. */
  function UnprunedAnswers(q: Quota, xs: seq<Request>): (a: seq<bool>)
    decreases |xs|
  {
    if xs == [] then [] else [Serve(q, xs[0]).1] + UnprunedAnswers(Serve(q, xs[0]).0, xs[1..])
  }

  /** Without pruning, the maps never fill up in this run. */
  predicate UnprunedHasRoom(q: Quota, xs: seq<Request>)
    decreases |xs|
  {
    xs == [] || (HasRoom(q, xs[0]) && UnprunedHasRoom(Serve(q, xs[0]).0, xs[1..]))
  }

  /** Two quotas a caller cannot tell apart, the second holding every bucket of the first. */
  ghost predicate Alike(p: Quota, q: Quota, now: real)
  {
    && p.limits == q.limits && Inv(p, now) && Inv(q, now)
    && p.devices.Keys <= q.devices.Keys && p.networks.Keys <= q.networks.Keys
    && |q.devices| <= CAPACITY && |q.networks| <= CAPACITY
    && forall k, r :: LevelOf(p, k, r, now) == LevelOf(q, k, r, now)
  }

  lemma Subset<T>(a: set<T>, b: set<T>)
    requires a <= b
    ensures |a| <= |b| && (a != b ==> |a| < |b|)
  {
    assert b == a + (b - a);
    assert a != b ==> |b - a| > 0;
  }

  lemma SmallerHasRoom(p: Quota, q: Quota, x: Request)
    requires p.devices.Keys <= q.devices.Keys && p.networks.Keys <= q.networks.Keys
    requires |q.devices| <= CAPACITY && |q.networks| <= CAPACITY && HasRoom(q, x)
    ensures HasRoom(p, x)
  {
    Subset(p.devices.Keys, q.devices.Keys);
    Subset(p.networks.Keys, q.networks.Keys);
    assert |p.devices| == |p.devices.Keys| && |q.devices| == |q.devices.Keys|;
    assert |p.networks| == |p.networks.Keys| && |q.networks| == |q.networks.Keys|;
  }

  lemma ServedKeys(q: Quota, x: Request)
    ensures var q' := Serve(q, x).0; var served := WellFormed(x) && HasRoom(q, x);
      && q'.devices.Keys == q.devices.Keys + (if served then {x.actor} else {})
      && q'.networks.Keys == q.networks.Keys + (if served && x.Delivery? then {x.network} else {})
  {
    hide Refilled, Paid, Covers, Find, WellFormed, HasRoom;
    var q' := Serve(q, x).0;
    if WellFormed(x) && HasRoom(q, x) {
      UpdatedKeys(q.devices, x.actor, q'.devices[x.actor]);
      if x.Delivery? {
        UpdatedKeys(q.networks, x.network, q'.networks[x.network]);
      }
    }
  }

  lemma UpdatedKeys<K, V>(m: map<K, V>, k: K, v: V)
    ensures m[k := v].Keys == m.Keys + {k}
  {
  }

  lemma AddedSize<K, V>(m: map<K, V>, n: map<K, V>, k: K)
    requires n.Keys == m.Keys + {k}
    ensures |n| == if k in m then |m| else |m| + 1
  {
    assert |m| == |m.Keys| && |n| == |n.Keys|;
    assert k in m ==> m.Keys + {k} == m.Keys;
  }

  lemma SameSize<K, V>(m: map<K, V>, n: map<K, V>)
    requires n.Keys == m.Keys
    ensures |n| == |m|
  {
    assert |m| == |m.Keys| && |n| == |n.Keys|;
  }

  lemma ServeKeepsKeys(p: Quota, q: Quota, x: Request)
    requires p.devices.Keys <= q.devices.Keys && p.networks.Keys <= q.networks.Keys
    requires |q.devices| <= CAPACITY && |q.networks| <= CAPACITY
    requires HasRoom(q, x)
    ensures var p', q' := Serve(p, x).0, Serve(q, x).0;
      && p'.devices.Keys <= q'.devices.Keys && p'.networks.Keys <= q'.networks.Keys
      && |q'.devices| <= CAPACITY && |q'.networks| <= CAPACITY
  {
    hide Serve, WellFormed;
    ServedKeys(p, x);
    ServedKeys(q, x);
    var q' := Serve(q, x).0;
    if WellFormed(x) {
      AddedSize(q.devices, q'.devices, x.actor);
    } else {
      SameSize(q.devices, q'.devices);
    }
    if WellFormed(x) && x.Delivery? {
      AddedSize(q.networks, q'.networks, x.network);
    } else {
      SameSize(q.networks, q'.networks);
    }
  }

  lemma WaitingKeepsAlike(p: Quota, q: Quota, now: real, later: real)
    requires Alike(p, q, now) && now <= later
    ensures Alike(p, q, later)
  {
    hide Level;
    InvLasts(p, now, later);
    InvLasts(q, now, later);
    forall k, r ensures LevelOf(p, k, r, later) == LevelOf(q, k, r, later) {
      assert LevelOf(p, k, r, now) == LevelOf(q, k, r, now);
      LevelGrows(BucketOf(p, k), RateOf(p.limits, k), r, now, later);
      LevelGrows(BucketOf(q, k), RateOf(q.limits, k), r, now, later);
    }
  }

  lemma PruningKeepsAlike(p: Quota, q: Quota, now: real)
    requires Alike(p, q, now)
    ensures Alike(Pruned(p, now), q, now)
  {
    hide Inv, LevelOf;
    PruneKeepsLevels(p, now);
  }

  lemma ServingKeepsAlike(p: Quota, q: Quota, x: Request)
    requires Alike(p, q, x.now) && HasRoom(q, x)
    ensures Serve(p, x).1 == Serve(q, x).1
    ensures Alike(Serve(p, x).0, Serve(q, x).0, x.now)
  {
    hide Serve, HasRoom, Inv, LevelOf, WellFormed, Charge, Charges;
    SmallerHasRoom(p, q, x);
    ServedExactly(p, x);
    ServedExactly(q, x);
    ServeKeepsInv(p, x, x.now);
    ServeKeepsInv(q, x, x.now);
    ServeKeepsKeys(p, q, x);
    forall k, r ensures LevelOf(Serve(p, x).0, k, r, x.now) == LevelOf(Serve(q, x).0, k, r, x.now) {
      assert LevelOf(p, k, r, x.now) == LevelOf(q, k, r, x.now);
      ServedCharge(p, x, k, r);
      ServedCharge(q, x, k, r);
    }
  }

  lemma {:induction false} AlikeAnswerAlike(p: Quota, q: Quota, xs: seq<Request>, now: real)
    requires Alike(p, q, now) && Ordered(xs, now) && UnprunedHasRoom(q, xs)
    ensures Answers(p, xs) == UnprunedAnswers(q, xs)
    decreases |xs|
  {
    hide Serve, HasRoom, Alike, Pruned;
    if xs != [] {
      var x := xs[0];
      WaitingKeepsAlike(p, q, now, x.now);
      PruningKeepsAlike(p, q, x.now);
      ServingKeepsAlike(Pruned(p, x.now), q, x);
      AlikeAnswerAlike(Step(p, x).0, Serve(q, x).0, xs[1..], x.now);
    }
  }

  /** Over a whole run, forgetting idle buckets changes no answer, the size of the maps aside. */
  lemma PruningIsInvisible(l: Limits, xs: seq<Request>, start: real)
    requires Positive(l.device) && Positive(l.network) && Positive(l.authority)
    requires Ordered(xs, start) && UnprunedHasRoom(Configured(l), xs)
    ensures Answers(Configured(l), xs) == UnprunedAnswers(Configured(l), xs)
  {
    ConfiguredIsSound(l, start);
    AlikeAnswerAlike(Configured(l), Configured(l), xs, start);
  }

  // ---- The object ----

  predicate Holds(b: Bucket, bytes: nat, recipients: nat)
  {
    b.tokens.octets >= bytes as real && b.tokens.deliveries >= recipients as real
  }

  function Less(b: Bucket, bytes: nat, recipients: nat): (r: Bucket)
  {
    b.(tokens := b.tokens.(octets := b.tokens.octets - bytes as real, deliveries := b.tokens.deliveries - recipients as real))
  }

  lemma DeliveryIsPaid(b: Bucket, x: Request)
    requires x.Delivery?
    ensures Holds(b, x.size * x.recipients, x.recipients) == Covers(b, x)
    ensures Less(b, x.size * x.recipients, x.recipients) == Paid(b, x, true)
  {
  }

  lemma RefusedDelivery(q: Quota, x: Request)
    requires !WellFormed(x) || !HasRoom(q, x)
    ensures Serve(q, x) == (q, false)
  {
  }

  class ForwardingQuota {
    var limits: Limits
    var devices: map<DeviceId, Bucket>
    var networks: map<NetworkId, Bucket>
    var aggregate: Bucket
    var nextPrune: real
    var admittedDeliveries: nat
    var admittedBytes: nat
    var quotaRejections: nat
    var controlRejections: nat

    function View(): (q: Quota)
      reads this
    {
      Quota(limits, devices, networks, aggregate, nextPrune)
    }

    constructor (l: Limits)
      ensures View() == Configured(l)
      ensures admittedDeliveries == admittedBytes == quotaRejections == controlRejections == 0
    {
      limits, devices, networks, aggregate, nextPrune := l, map[], map[], FRESH, 0.0;
      admittedDeliveries, admittedBytes, quotaRejections, controlRejections := 0, 0, 0, 0;
    }

    method Prune(now: real)
      modifies this`devices, this`networks, this`nextPrune
      ensures View() == Pruned(old(View()), now)
    {
      if now < nextPrune {
        return;
      }
      devices := map d | d in devices && !Expired(devices[d], now) :: devices[d];
      networks := map n | n in networks && !Expired(networks[n], now) :: networks[n];
      nextPrune := now + PRUNE_INTERVAL;
    }

    /** Spends one control token of the actor; a refusal is counted. */
    method Control(actor: DeviceId, now: real) returns (ok: bool)
      modifies this
      ensures (View(), ok) == Step(old(View()), ControlMessage(actor, now))
      ensures controlRejections == old(controlRejections) + if ok then 0 else 1
      ensures quotaRejections == old(quotaRejections)
      ensures admittedBytes == old(admittedBytes) && admittedDeliveries == old(admittedDeliveries)
    {
      Prune(now);
      if actor !in devices && |devices| >= CAPACITY {
        controlRejections := controlRejections + 1;
        return false;
      }
      var device := Refilled(Find(devices, actor), limits.device, now);
      ok := device.tokens.controls >= 1.0;
      if ok {
        device := device.(tokens := device.tokens.(controls := device.tokens.controls - 1.0));
      } else {
        controlRejections := controlRejections + 1;
      }
      devices := devices[actor := device];
    }

    /** Admits `size` bytes to each of `recipients`, or refuses; the counters follow the answer. */
    method Admit(actor: DeviceId, network: NetworkId, size: nat, recipients: nat, now: real) returns (ok: bool)
      modifies this
      ensures (View(), ok) == Step(old(View()), Delivery(actor, network, size, recipients, now))
      ensures quotaRejections == old(quotaRejections) + if ok then 0 else 1
      ensures admittedBytes == old(admittedBytes) + if ok then size * recipients else 0
      ensures admittedDeliveries == old(admittedDeliveries) + if ok then recipients else 0
      ensures controlRejections == old(controlRejections)
    {
      hide Serve, Kept;
      Prune(now);
      if size == 0 || recipients == 0 || recipients > 4096 || size > MAX_UINT64 / recipients
         || (actor !in devices && |devices| >= CAPACITY) || (network !in networks && |networks| >= CAPACITY) {
        quotaRejections := quotaRejections + 1;
        RefusedDelivery(View(), Delivery(actor, network, size, recipients, now));
        return false;
      }
      ok := Charged(actor, network, size, recipients, now);
    }

    /** Refills and charges the three buckets of an admissible request, or leaves them refilled. */
    method Charged(actor: DeviceId, network: NetworkId, size: nat, recipients: nat, now: real) returns (ok: bool)
      requires WellFormed(Delivery(actor, network, size, recipients, now)) && HasRoom(View(), Delivery(actor, network, size, recipients, now))
      modifies this
      ensures (View(), ok) == Serve(old(View()), Delivery(actor, network, size, recipients, now))
      ensures quotaRejections == old(quotaRejections) + if ok then 0 else 1
      ensures admittedBytes == old(admittedBytes) + if ok then size * recipients else 0
      ensures admittedDeliveries == old(admittedDeliveries) + if ok then recipients else 0
      ensures controlRejections == old(controlRejections)
    {
      hide Refilled, Covers, Holds, Less, Spend, HasRoom, WellFormed;
      var device := Refilled(Find(devices, actor), limits.device, now);
      var shared := Refilled(Find(networks, network), limits.network, now);
      var total := Refilled(aggregate, limits.authority, now);
      ghost var x := Delivery(actor, network, size, recipients, now);
      DeliveryIsPaid(device, x);
      DeliveryIsPaid(shared, x);
      DeliveryIsPaid(total, x);
      var bytes := size * recipients;
      ok := Holds(device, bytes, recipients) && Holds(shared, bytes, recipients) && Holds(total, bytes, recipients);
      if ok {
        device, shared := Less(device, bytes, recipients), Less(shared, bytes, recipients);
        total := Less(total, bytes, recipients);
        admittedDeliveries, admittedBytes := admittedDeliveries + recipients, admittedBytes + bytes;
      } else {
        quotaRejections := quotaRejections + 1;
      }
      devices, networks, aggregate := devices[actor := device], networks[network := shared], total;
    }
  }
}
