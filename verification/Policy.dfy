/**
  * Network policies: roles, groups, access rules, topology and routed
  * subnets. Enumerations are the octets they are stored in, so a decoded
  * value outside an enumeration can be represented and refused.
  */
module Policy {
  import opened Arithmetic
  import opened Bytes

  type Text = seq<byte>
  type u32 = v: int | 0 <= v < 0x1_0000_0000
  type u64 = v: int | 0 <= v < 0x1_0000_0000_0000_0000

  const MESH: byte := 0
  const HUB_SPOKE: byte := 1
  const MEMBER: byte := 0
  const ADMINISTRATOR: byte := 1
  const RESTRICTED: byte := 2

  /** The octets of "members", the group of everyone not listed. */
  const MEMBERS: Text := [109, 101, 109, 98, 101, 114, 115]

  /** A zero device and an empty group mean every member. */
  datatype Subject = Subject(device: DeviceId, group: Text)
  datatype Rule = Rule(first: Subject, second: Subject, allow: bool)
  datatype Member = Member(device: DeviceId, role: byte, group: Text)
  datatype Gateway = Gateway(device: DeviceId, approved: bool)
  datatype Route = Route(gateway: DeviceId, address: u32, prefix: byte, group: Text)

  datatype NetworkPolicy = NetworkPolicy(
    revision: u64, managed: bool, topology: byte, hubs: seq<DeviceId>, rules: seq<Rule>, groups: seq<Text>,
    members: seq<Member>, gateways: seq<Gateway>, routes: seq<Route>)

  // ---- Subnets ----

  /** The number of addresses under a prefix: the mask of the source clears the remainder by it. */
  function Block(prefix: byte): (n: nat)
    requires prefix <= 32
    ensures n > 0
  {
    Pow2(32 - prefix)
  }

  predicate SubnetContains(subnet: u32, prefix: byte, address: u32)
  {
    0 < prefix <= 32 && address - address % Block(prefix) == subnet
  }

  predicate SubnetsOverlap(a: u32, ap: byte, b: u32, bp: byte)
  {
    if ap == 0 || ap > 32 || bp == 0 || bp > 32 then true
    else
      var block := Block(if ap < bp then ap else bp);
      a - a % block == b - b % block
  }

  predicate PrivateRoutedSubnet(a: u32, p: byte)
  {
    && 8 <= p <= 30 && SubnetContains(a, p, a)
    && (|| (p >= 8 && SubnetContains(0x0a00_0000, 8, a))
        || (p >= 12 && SubnetContains(0xac10_0000, 12, a))
        || (p >= 16 && SubnetContains(0xc0a8_0000, 16, a)))
  }

  /** A stored subnet is canonical when it is its own network address. */
  predicate Canonical(a: u32, p: byte)
  {
    SubnetContains(a, p, a)
  }

  /** A canonical subnet holds the addresses from its own up to the next block. */
  lemma ContainsIsRange(a: u32, p: byte, x: u32)
    requires Canonical(a, p)
    ensures SubnetContains(a, p, x) <==> a <= x < a + Block(p)
  {
    var m := Block(p);
    assert a % m == 0;
    if a <= x < a + m {
      assert a == (a / m) * m;
      DivisionIsUnique(x, m, a / m, x - a);
    }
  }

  function Floor(x: u32, p: byte): (f: u32)
    requires p <= 32
  {
    RemainderIsSmaller(x, Block(p));
    x - x % Block(p)
  }

  lemma FloorThroughNarrower(x: u32, wide: byte, narrow: byte)
    requires wide <= narrow <= 32
    ensures Floor(Floor(x, narrow), wide) == Floor(x, wide)
  {
    hide Pow2;
    Pow2Divides(32 - narrow, 32 - wide);
    FloorOfFloor(x, Block(narrow), Pow2(narrow - wide), Block(wide));
  }

  lemma OverlapWhenWider(a: u32, ap: byte, b: u32, bp: byte)
    requires Canonical(a, ap) && Canonical(b, bp) && ap <= bp
    ensures SubnetsOverlap(a, ap, b, bp) == SubnetsOverlap(b, bp, a, ap) == SubnetContains(a, ap, b)
    ensures SubnetContains(b, bp, b)
    ensures forall x: u32 :: SubnetContains(a, ap, x) && SubnetContains(b, bp, x) ==> SubnetContains(a, ap, b)
  {
    hide Pow2, Block;
    forall x: u32 | SubnetContains(a, ap, x) && SubnetContains(b, bp, x) ensures SubnetContains(a, ap, b) {
      FloorThroughNarrower(x, ap, bp);
    }
  }

  /** The overlap test says exactly whether two canonical subnets share an address. */
  lemma OverlapIsSharing(a: u32, ap: byte, b: u32, bp: byte)
    requires Canonical(a, ap) && Canonical(b, bp)
    ensures SubnetsOverlap(a, ap, b, bp) <==> exists x: u32 :: SubnetContains(a, ap, x) && SubnetContains(b, bp, x)
  {
    hide SubnetContains, SubnetsOverlap;
    if ap <= bp {
      OverlapWhenWider(a, ap, b, bp);
    } else {
      OverlapWhenWider(b, bp, a, ap);
    }
  }

  // ---- Access ----

  function RoleIn(members: seq<Member>, d: DeviceId): (r: byte)
  {
    if members == [] then MEMBER
    else if members[0].device == d then members[0].role
    else RoleIn(members[1..], d)
  }

  function GroupIn(members: seq<Member>, d: DeviceId): (g: Text)
  {
    if members == [] then MEMBERS
    else if members[0].device == d then members[0].group
    else GroupIn(members[1..], d)
  }

  function Role(p: NetworkPolicy, d: DeviceId): (r: byte)
  {
    RoleIn(p.members, d)
  }

  function Group(p: NetworkPolicy, d: DeviceId): (g: Text)
  {
    GroupIn(p.members, d)
  }

  predicate Matches(p: NetworkPolicy, s: Subject, d: DeviceId)
  {
    if s.device != ZERO_DEVICE then s.device == d else s.group == [] || s.group == Group(p, d)
  }

  /** A rule names its two subjects in no order. */
  predicate Applies(p: NetworkPolicy, r: Rule, a: DeviceId, b: DeviceId)
  {
    (Matches(p, r.first, a) && Matches(p, r.second, b)) || (Matches(p, r.first, b) && Matches(p, r.second, a))
  }

  /** What the topology alone permits. */
  predicate Reachable(p: NetworkPolicy, a: DeviceId, b: DeviceId)
  {
    p.topology == HUB_SPOKE ==> a in p.hubs || b in p.hubs
  }

  /** Deny wins; otherwise some rule has to allow. */
  predicate RulesAllow(p: NetworkPolicy, a: DeviceId, b: DeviceId)
  {
    && (exists r :: r in p.rules && Applies(p, r, a, b))
    && (forall r :: r in p.rules && Applies(p, r, a, b) ==> r.allow)
  }

  predicate PairAllowed(p: NetworkPolicy, a: DeviceId, b: DeviceId)
  {
    && a != b && a != ZERO_DEVICE && b != ZERO_DEVICE
    && (p.managed ==> Reachable(p, a, b) && RulesAllow(p, a, b))
  }

  method PolicyAllows(p: NetworkPolicy, a: DeviceId, b: DeviceId) returns (allowed: bool)
    ensures allowed <==> PairAllowed(p, a, b)
  {
    hide Applies;
    if a == b || a == ZERO_DEVICE || b == ZERO_DEVICE {
      return false;
    }
    if !p.managed {
      return true;
    }
    if p.topology == HUB_SPOKE && a !in p.hubs && b !in p.hubs {
      return false;
    }
    allowed := false;
    for i := 0 to |p.rules|
      invariant allowed <==> exists j :: 0 <= j < i && Applies(p, p.rules[j], a, b)
      invariant forall j :: 0 <= j < i && Applies(p, p.rules[j], a, b) ==> p.rules[j].allow
    {
      if Applies(p, p.rules[i], a, b) {
        if !p.rules[i].allow {
          assert p.rules[i] in p.rules;
          return false;
        }
        allowed := true;
      }
    }
  }

  predicate FanoutAllowed(p: NetworkPolicy, a: DeviceId, b: DeviceId)
  {
    PairAllowed(p, a, b) && (p.managed ==> Role(p, a) != RESTRICTED && Role(p, b) != RESTRICTED)
  }

  predicate ApprovedGateway(gateways: seq<Gateway>, d: DeviceId)
  {
    exists i :: 0 <= i < |gateways| && gateways[i].device == d && gateways[i].approved
  }

  predicate RouteAllowed(p: NetworkPolicy, r: Route, member: DeviceId)
  {
    && p.managed && Role(p, member) != RESTRICTED
    && (r.group == [] || Group(p, member) == r.group)
    && PairAllowed(p, member, r.gateway) && ApprovedGateway(p.gateways, r.gateway)
  }

  /** Permission does not depend on which device asks, nor on the order or repetition of rules and hubs. */
  lemma AllowedAsASet(p: NetworkPolicy, q: NetworkPolicy, a: DeviceId, b: DeviceId)
    requires p.managed == q.managed && p.topology == q.topology && p.members == q.members
    requires forall r :: r in p.rules <==> r in q.rules
    requires forall d :: d in p.hubs <==> d in q.hubs
    ensures PairAllowed(p, a, b) <==> PairAllowed(q, b, a)
    ensures FanoutAllowed(p, a, b) <==> FanoutAllowed(q, b, a)
  {
    assert forall r :: Applies(p, r, a, b) <==> Applies(q, r, b, a);
  }

  /** A deny rule put anywhere takes away exactly the pairs it applies to. */
  lemma DenyTakesAway(p: NetworkPolicy, deny: Rule, at: nat, a: DeviceId, b: DeviceId)
    requires at <= |p.rules| && !deny.allow
    ensures var q := p.(rules := p.rules[..at] + [deny] + p.rules[at..]);
      PairAllowed(q, a, b) <==> PairAllowed(p, a, b) && !(p.managed && Applies(p, deny, a, b))
  {
    var q := p.(rules := p.rules[..at] + [deny] + p.rules[at..]);
    assert forall r :: Applies(p, r, a, b) <==> Applies(q, r, a, b);
    assert p.rules == p.rules[..at] + p.rules[at..];
    assert forall r :: r in q.rules <==> r in p.rules || r == deny;
  }

  /** An allow rule put anywhere never takes a pair away. */
  lemma AllowAdds(p: NetworkPolicy, allow: Rule, at: nat, a: DeviceId, b: DeviceId)
    requires at <= |p.rules| && allow.allow && PairAllowed(p, a, b)
    ensures PairAllowed(p.(rules := p.rules[..at] + [allow] + p.rules[at..]), a, b)
  {
    var q := p.(rules := p.rules[..at] + [allow] + p.rules[at..]);
    assert forall r :: Applies(p, r, a, b) <==> Applies(q, r, a, b);
    assert p.rules == p.rules[..at] + p.rules[at..];
    assert forall r :: r in q.rules <==> r in p.rules || r == allow;
  }

  /** Two spokes never talk, and the narrower permissions imply the pair. */
  lemma PermissionsNest(p: NetworkPolicy, r: Route, a: DeviceId, b: DeviceId)
    ensures p.managed && p.topology == HUB_SPOKE && a !in p.hubs && b !in p.hubs ==> !PairAllowed(p, a, b)
    ensures FanoutAllowed(p, a, b) ==> PairAllowed(p, a, b)
    ensures RouteAllowed(p, r, a) ==> PairAllowed(p, r.gateway, a)
  {
    if RouteAllowed(p, r, a) {
      AllowedAsASet(p, p, a, r.gateway);
    }
  }

  // ---- Whom rules name ----

  /** The first entry for the device gives it the group; a device without an entry is in "members". */
  predicate BelongsTo(p: NetworkPolicy, d: DeviceId, g: Text)
  {
    || (exists i :: 0 <= i < |p.members| && p.members[i].device == d && p.members[i].group == g && forall j :: 0 <= j < i ==> p.members[j].device != d)
    || ((forall i :: 0 <= i < |p.members| ==> p.members[i].device != d) && g == [109, 101, 109, 98, 101, 114, 115])
  }

  lemma {:induction false} GroupIsFirst(ms: seq<Member>, d: DeviceId) returns (i: nat)
    ensures i <= |ms| && (forall j :: 0 <= j < i ==> ms[j].device != d)
    ensures if i < |ms| then ms[i].device == d && GroupIn(ms, d) == ms[i].group && RoleIn(ms, d) == ms[i].role
            else GroupIn(ms, d) == MEMBERS && RoleIn(ms, d) == MEMBER
  {
    if ms == [] || ms[0].device == d {
      i := 0;
    } else {
      i := GroupIsFirst(ms[1..], d);
      assert forall j :: 0 < j < |ms| ==> ms[j] == ms[1..][j - 1];
      i := i + 1;
    }
  }

  lemma GroupMeans(p: NetworkPolicy, d: DeviceId, g: Text)
    ensures Group(p, d) == g <==> BelongsTo(p, d, g)
  {
    var i := GroupIsFirst(p.members, d);
  }

  /** A rule between two named groups is about the pairs with one device in each. */
  lemma GroupRule(p: NetworkPolicy, g: Text, h: Text, allow: bool, a: DeviceId, b: DeviceId)
    requires g != [] && h != []
    ensures Applies(p, Rule(Subject(ZERO_DEVICE, g), Subject(ZERO_DEVICE, h), allow), a, b)
       <==> (BelongsTo(p, a, g) && BelongsTo(p, b, h)) || (BelongsTo(p, b, g) && BelongsTo(p, a, h))
  {
    GroupMeans(p, a, g);
    GroupMeans(p, b, h);
    GroupMeans(p, b, g);
    GroupMeans(p, a, h);
    hide Group, BelongsTo;
  }

  /** A rule between two devices is about that pair, and a rule that names nobody about every pair. */
  lemma DeviceRule(p: NetworkPolicy, x: DeviceId, y: DeviceId, allow: bool, a: DeviceId, b: DeviceId)
    requires x != ZERO_DEVICE && y != ZERO_DEVICE
    ensures Applies(p, Rule(Subject(x, []), Subject(y, []), allow), a, b) <==> (a == x && b == y) || (a == y && b == x)
    ensures Applies(p, Rule(Subject(ZERO_DEVICE, []), Subject(ZERO_DEVICE, []), allow), a, b)
  {
    hide Group;
  }

  /** What the rules decide, by cases. */
  lemma RulesDecide(p: NetworkPolicy, a: DeviceId, b: DeviceId)
    requires a != b && a != ZERO_DEVICE && b != ZERO_DEVICE
    ensures !p.managed ==> PairAllowed(p, a, b)
    ensures p.managed && p.topology == 1 && a !in p.hubs && b !in p.hubs ==> !PairAllowed(p, a, b)
    ensures p.managed && (p.topology != 1 || a in p.hubs || b in p.hubs) ==>
      && ((forall r :: r in p.rules ==> !Applies(p, r, a, b)) ==> !PairAllowed(p, a, b))
      && ((exists r :: r in p.rules && Applies(p, r, a, b) && !r.allow) ==> !PairAllowed(p, a, b))
      && ((exists r :: r in p.rules && Applies(p, r, a, b)) && (forall r :: r in p.rules && Applies(p, r, a, b) ==> r.allow) ==> PairAllowed(p, a, b))
  {
    hide Applies;
  }

  /** A route is open to unrestricted members of its group that may talk to its gateway, once that is approved. */
  lemma RouteOpenExactly(p: NetworkPolicy, r: Route, d: DeviceId)
    ensures RouteAllowed(p, r, d) <==>
      && p.managed && Role(p, d) != 2 && (r.group == [] || BelongsTo(p, d, r.group)) && PairAllowed(p, d, r.gateway)
      && exists i :: 0 <= i < |p.gateways| && p.gateways[i].device == r.gateway && p.gateways[i].approved
  {
    GroupMeans(p, d, r.group);
    hide Group, BelongsTo, PairAllowed;
  }

  // ---- Private subnets ----

  /** The blocks of RFC 1918. */
  predicate IsPrivate(a: u32)
  {
    0x0a00_0000 <= a <= 0x0aff_ffff || 0xac10_0000 <= a <= 0xac1f_ffff || 0xc0a8_0000 <= a <= 0xc0a8_ffff
  }

  lemma BlockSizes()
    ensures Block(8) == 0x100_0000 && Block(12) == 0x10_0000 && Block(16) == 0x1_0000
  {
    assert Pow2(8) == 256 && Pow2(16) == 0x1_0000 && Pow2(20) == 0x10_0000 && Pow2(24) == 0x100_0000 by {
      Pow2Divides(8, 16);
      Pow2Divides(4, 20);
      Pow2Divides(16, 20);
      Pow2Divides(8, 24);
    }
  }

  lemma InBlock(a: u32)
    ensures SubnetContains(0x0a00_0000, 8, a) <==> 0x0a00_0000 <= a <= 0x0aff_ffff
    ensures SubnetContains(0xac10_0000, 12, a) <==> 0xac10_0000 <= a <= 0xac1f_ffff
    ensures SubnetContains(0xc0a8_0000, 16, a) <==> 0xc0a8_0000 <= a <= 0xc0a8_ffff
  {
    BlockSizes();
    hide Pow2, Block;
  }

  /** An address of a subnet is in every wider block that its network address is in. */
  lemma WiderContains(a: u32, p: byte, x: u32, block: u32, wide: byte)
    requires SubnetContains(a, p, x) && SubnetContains(block, wide, a) && wide <= p <= 32
    ensures SubnetContains(block, wide, x)
  {
    hide Pow2, Block;
    FloorThroughNarrower(x, wide, p);
  }

  /** A subnet that may be routed is canonical, between /8 and /30, and every address in it is private. */
  lemma RoutedIsPrivate(a: u32, p: byte, x: u32)
    requires PrivateRoutedSubnet(a, p)
    ensures 8 <= p <= 30 && SubnetContains(a, p, a) && (SubnetContains(a, p, x) ==> IsPrivate(x))
  {
    hide Pow2, Block, SubnetContains;
    InBlock(x);
    if SubnetContains(a, p, x) {
      if p >= 8 && SubnetContains(0x0a00_0000, 8, a) {
        WiderContains(a, p, x, 0x0a00_0000, 8);
      } else if p >= 12 && SubnetContains(0xac10_0000, 12, a) {
        WiderContains(a, p, x, 0xac10_0000, 12);
      } else {
        WiderContains(a, p, x, 0xc0a8_0000, 16);
      }
    }
  }

  lemma WideBlock(a: u32, p: byte, n: nat)
    requires 8 <= p <= 32 - n && a % Block(p) == 0
    ensures a % Pow2(n) == 0 && Pow2(n) <= Block(p)
  {
    Pow2Divides(n, 32 - p);
    hide Pow2;
    MultipleOfMultiple(a, Pow2(32 - p - n), Pow2(n));
  }

  lemma HalfBlocks()
    ensures Pow2(21) == 0x20_0000 && Pow2(17) == 0x2_0000
  {
    BlockSizes();
    assert Pow2(21) == 2 * Pow2(20) && Pow2(17) == 2 * Pow2(16) && Pow2(20) == Block(12) && Pow2(16) == Block(16);
  }

  lemma Misaligned(a: u32)
    ensures 0xac10_0000 <= a <= 0xac1f_ffff ==> a % 0x20_0000 != 0
    ensures 0xc0a8_0000 <= a <= 0xc0a8_ffff && a % 0x2_0000 == 0 ==> a == 0xc0a8_0000
  {
  }

  /** And every such subnet may be routed. */
  lemma PrivateIsRouted(a: u32, p: byte)
    requires 8 <= p <= 30 && SubnetContains(a, p, a) && forall x: u32 :: SubnetContains(a, p, x) ==> IsPrivate(x)
    ensures PrivateRoutedSubnet(a, p)
  {
    hide Pow2, Block;
    InBlock(a);
    Misaligned(a);
    HalfBlocks();
    assert IsPrivate(a) && a % Block(p) == 0;
    if 0xac10_0000 <= a <= 0xac1f_ffff && p < 12 {
      WideBlock(a, p, 21);
    }
    if 0xc0a8_0000 <= a <= 0xc0a8_ffff && p < 16 {
      WideBlock(a, p, 17);
      ContainsIsRange(a, p, 0xc0a9_0000);
    }
  }
}
