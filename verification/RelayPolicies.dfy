/** What taking a device out of a policy, or replacing the policy, keeps. */
module RelayPolicies {
  import opened Bytes
  import opened Policy
  import opened PolicyCodec
  import opened Relay

  /** Any two kept elements stood in the same order before. */
  lemma {:induction false} KeepKeepsOrder<T(!new)>(xs: seq<T>, keep: T -> bool, i: nat, j: nat) returns (a: nat, b: nat)
    requires i < j < |Keep(xs, keep)|
    ensures a < b < |xs| && xs[a] == Keep(xs, keep)[i] && xs[b] == Keep(xs, keep)[j]
  {
    var rest := Keep(xs[1..], keep);
    if keep(xs[0]) {
      if i == 0 {
        assert rest[j - 1] in rest;
        b :| 0 <= b < |xs[1..]| && xs[1..][b] == rest[j - 1];
        a, b := 0, b + 1;
      } else {
        a, b := KeepKeepsOrder(xs[1..], keep, i - 1, j - 1);
        a, b := a + 1, b + 1;
      }
    } else {
      a, b := KeepKeepsOrder(xs[1..], keep, i, j);
      a, b := a + 1, b + 1;
    }
  }

  lemma {:induction false} KeepIsNotLonger<T(!new)>(xs: seq<T>, keep: T -> bool)
    ensures |Keep(xs, keep)| <= |xs|
  {
    if xs != [] {
      KeepIsNotLonger(xs[1..], keep);
    }
  }

  lemma KeepsGoodDevices(hubs: seq<DeviceId>, keep: DeviceId -> bool)
    requires GoodDevices(hubs)
    ensures GoodDevices(Keep(hubs, keep))
  {
    forall i, j | 0 <= i < j < |Keep(hubs, keep)| ensures Keep(hubs, keep)[i] != Keep(hubs, keep)[j] {
      var a, b := KeepKeepsOrder(hubs, keep, i, j);
    }
  }

  lemma KeepsGoodMembers(ms: seq<Member>, keep: Member -> bool)
    requires GoodDevices(MemberDevices(ms))
    ensures GoodDevices(MemberDevices(Keep(ms, keep)))
  {
    var kept := Keep(ms, keep);
    forall i, j | 0 <= i < j < |kept| ensures kept[i].device != kept[j].device {
      var a, b := KeepKeepsOrder(ms, keep, i, j);
      assert MemberDevices(ms)[a] != MemberDevices(ms)[b];
    }
    forall i | 0 <= i < |kept| ensures kept[i].device != ZERO_DEVICE {
      assert kept[i] in kept;
      var a :| 0 <= a < |ms| && ms[a] == kept[i];
      assert MemberDevices(ms)[a] in MemberDevices(ms);
    }
  }

  lemma KeepsGoodGateways(gs: seq<Gateway>, keep: Gateway -> bool)
    requires GoodDevices(GatewayDevices(gs))
    ensures GoodDevices(GatewayDevices(Keep(gs, keep)))
  {
    var kept := Keep(gs, keep);
    forall i, j | 0 <= i < j < |kept| ensures kept[i].device != kept[j].device {
      var a, b := KeepKeepsOrder(gs, keep, i, j);
      assert GatewayDevices(gs)[a] != GatewayDevices(gs)[b];
    }
    forall i | 0 <= i < |kept| ensures kept[i].device != ZERO_DEVICE {
      assert kept[i] in kept;
      var a :| 0 <= a < |gs| && gs[a] == kept[i];
      assert GatewayDevices(gs)[a] in GatewayDevices(gs);
    }
  }

  lemma KeepsRoutesApart(rs: seq<Route>, keep: Route -> bool)
    requires RoutesApart(rs)
    ensures RoutesApart(Keep(rs, keep))
  {
    hide SubnetsOverlap;
    var kept := Keep(rs, keep);
    forall i, j | 0 <= j < i < |kept|
      ensures !SubnetsOverlap(kept[i].address, kept[i].prefix, kept[j].address, kept[j].prefix)
    {
      var a, b := KeepKeepsOrder(rs, keep, j, i);
    }
  }

  lemma KeptRoutesAreGood(p: NetworkPolicy, d: DeviceId, i: nat)
    requires i < |Without(p, d).routes|
    requires forall k :: 0 <= k < |p.routes| ==> GoodRoute(p.routes[k], p)
    ensures GoodRoute(Without(p, d).routes[i], Without(p, d))
  {
    hide PrivateRoutedSubnet, Known;
    var q := Without(p, d);
    var r := q.routes[i];
    assert r in Keep(p.routes, OtherRoute(d));
    var a :| 0 <= a < |p.routes| && p.routes[a] == r;
    assert GoodRoute(p.routes[a], p);
    var g :| 0 <= g < |p.gateways| && p.gateways[g].device == r.gateway && p.gateways[g].approved;
    assert p.gateways[g] in q.gateways;
  }

  lemma KeptRulesAreGood(p: NetworkPolicy, d: DeviceId)
    requires forall i :: 0 <= i < |p.rules| ==> GoodSubject(p.rules[i].first, p.groups) && GoodSubject(p.rules[i].second, p.groups)
    ensures forall i :: 0 <= i < |Without(p, d).rules| ==>
      GoodSubject(Without(p, d).rules[i].first, p.groups) && GoodSubject(Without(p, d).rules[i].second, p.groups)
  {
    hide GoodSubject;
    forall i | 0 <= i < |Without(p, d).rules|
      ensures GoodSubject(Without(p, d).rules[i].first, p.groups) && GoodSubject(Without(p, d).rules[i].second, p.groups)
    {
      assert Without(p, d).rules[i] in Keep(p.rules, OtherRule(d));
    }
  }

  lemma KeptMembersAreGood(p: NetworkPolicy, d: DeviceId)
    requires forall i :: 0 <= i < |p.members| ==> GoodMember(p.members[i], p.groups)
    ensures forall i :: 0 <= i < |Without(p, d).members| ==> GoodMember(Without(p, d).members[i], p.groups)
  {
    hide GoodMember;
    forall i | 0 <= i < |Without(p, d).members| ensures GoodMember(Without(p, d).members[i], p.groups) {
      assert Without(p, d).members[i] in Keep(p.members, OtherMember(d));
    }
  }

  lemma WithoutStaysSmall(p: NetworkPolicy, d: DeviceId)
    ensures SmallLists(p) ==> SmallLists(Without(p, d))
    ensures PlainMesh(p) ==> PlainMesh(Without(p, d))
  {
    KeepIsNotLonger(p.hubs, OtherDevice(d));
    KeepIsNotLonger(p.members, OtherMember(d));
    KeepIsNotLonger(p.gateways, OtherGateway(d));
    KeepIsNotLonger(p.routes, OtherRoute(d));
    KeepIsNotLonger(p.rules, OtherRule(d));
  }

  lemma RevisionIsFree(p: NetworkPolicy, revision: u64)
    requires Acceptable(p)
    ensures Acceptable(p.(revision := revision))
  {
    hide GoodDevices, GoodSubject, GoodGroups, GoodMember, PrivateRoutedSubnet, Known, ApprovedGateway, SubnetsOverlap;
    var q := p.(revision := revision);
    forall i | 0 <= i < |q.routes| ensures GoodRoute(q.routes[i], q) {
      assert GoodRoute(p.routes[i], p);
    }
  }

  /** Erasing a device leaves a policy the encoder accepts, so removing a member is never refused for it. */
  lemma WithoutIsAcceptable(p: NetworkPolicy, d: DeviceId)
    requires Acceptable(p)
    ensures Acceptable(Without(p, d))
  {
    hide GoodDevices, GoodSubject, GoodGroups, GoodMember, GoodRoute, RoutesApart, PlainMesh, SmallLists;
    KeepsGoodDevices(p.hubs, OtherDevice(d));
    KeepsGoodMembers(p.members, OtherMember(d));
    KeepsGoodGateways(p.gateways, OtherGateway(d));
    KeepsRoutesApart(p.routes, OtherRoute(d));
    KeptRulesAreGood(p, d);
    KeptMembersAreGood(p, d);
    WithoutStaysSmall(p, d);
    forall i | 0 <= i < |Without(p, d).routes| ensures GoodRoute(Without(p, d).routes[i], Without(p, d)) {
      KeptRoutesAreGood(p, d, i);
    }
  }

  // ---- Roles ----

  lemma {:induction false} RoleIsListed(ms: seq<Member>, d: DeviceId)
    ensures (exists i :: 0 <= i < |ms| && ms[i].device == d && ms[i].role == RoleIn(ms, d))
         || ((forall i :: 0 <= i < |ms| ==> ms[i].device != d) && RoleIn(ms, d) == MEMBER)
  {
    if ms != [] {
      if ms[0].device == d {
        assert ms[0].role == RoleIn(ms, d);
      } else {
        RoleIsListed(ms[1..], d);
        if i :| 0 <= i < |ms[1..]| && ms[1..][i].device == d && ms[1..][i].role == RoleIn(ms[1..], d) {
          assert ms[i + 1].device == d;
        }
      }
    }
  }

  /** The two loops over listed members are enough for every device there is. */
  lemma RolesKeptForAll(p: NetworkPolicy, next: NetworkPolicy, d: DeviceId)
    requires RolesKept(p, next)
    ensures Role(next, d) == Role(p, d)
  {
    RoleIsListed(p.members, d);
    RoleIsListed(next.members, d);
  }

  lemma {:induction false} RoleInKept(ms: seq<Member>, d: DeviceId, x: DeviceId)
    requires Distinct(MemberDevices(ms))
    ensures RoleIn(Keep(ms, OtherMember(d)), x) ==
      if x == d && RoleIn(ms, d) != RESTRICTED then MEMBER else RoleIn(ms, x)
  {
    if ms != [] {
      var rest := ms[1..];
      assert MemberDevices(rest) == MemberDevices(ms)[1..];
      RoleInKept(rest, d, x);
      var kept := Keep(rest, OtherMember(d));
      if ms[0].device == d {
        RoleIsListed(rest, d);
        forall i | 0 <= i < |rest| ensures rest[i].device != d {
          assert MemberDevices(ms)[0] != MemberDevices(ms)[i + 1];
        }
        if ms[0].role == RESTRICTED {
          assert Keep(ms, OtherMember(d)) == [ms[0]] + kept;
          assert ([ms[0]] + kept)[1..] == kept;
        } else {
          assert Keep(ms, OtherMember(d)) == kept;
        }
      } else {
        assert Keep(ms, OtherMember(d)) == [ms[0]] + kept;
        assert ([ms[0]] + kept)[1..] == kept;
      }
    }
  }

  /** Leaving resets a role to the plain one unless it is a restriction, and touches nobody else's. */
  lemma RoleAfterLeaving(p: NetworkPolicy, d: DeviceId, x: DeviceId)
    requires Acceptable(p)
    ensures Role(Without(p, d), x) == if x == d && Role(p, d) != RESTRICTED then MEMBER else Role(p, x)
  {
    assert Distinct(MemberDevices(p.members));
    RoleInKept(p.members, d, x);
  }

  lemma {:induction false} GroupInKept(ms: seq<Member>, d: DeviceId, x: DeviceId)
    requires x != d
    ensures GroupIn(Keep(ms, OtherMember(d)), x) == GroupIn(ms, x)
  {
    if ms != [] {
      GroupInKept(ms[1..], d, x);
      var kept := Keep(ms[1..], OtherMember(d));
      assert Keep(ms, OtherMember(d)) == (if OtherMember(d)(ms[0]) then [ms[0]] + kept else kept);
      assert ([ms[0]] + kept)[1..] == kept;
    }
  }

  lemma RulesStay(p: NetworkPolicy, d: DeviceId, a: DeviceId, b: DeviceId)
    requires d != ZERO_DEVICE && a != d && b != d
    ensures RulesAllow(Without(p, d), a, b) <==> RulesAllow(p, a, b)
  {
    var q := Without(p, d);
    GroupInKept(p.members, d, a);
    GroupInKept(p.members, d, b);
    forall r | r in p.rules ensures Applies(q, r, a, b) <==> Applies(p, r, a, b) {
    }
    forall r | r in p.rules && Applies(p, r, a, b) ensures r in q.rules {
    }
  }

  /** A departure changes nothing between the others: the same pairs may talk, fan out and use the routes that are left. */
  lemma OthersKeepAccess(p: NetworkPolicy, d: DeviceId, a: DeviceId, b: DeviceId)
    requires Acceptable(p) && d != ZERO_DEVICE && a != d && b != d
    ensures PairAllowed(Without(p, d), a, b) <==> PairAllowed(p, a, b)
    ensures FanoutAllowed(Without(p, d), a, b) <==> FanoutAllowed(p, a, b)
    ensures forall r :: r in p.routes && r.gateway == b ==> r in Without(p, d).routes && (RouteAllowed(Without(p, d), r, a) <==> RouteAllowed(p, r, a))
  {
    var q := Without(p, d);
    RulesStay(p, d, a, b);
    RoleAfterLeaving(p, d, a);
    RoleAfterLeaving(p, d, b);
    GroupInKept(p.members, d, a);
    assert q.topology == p.topology && q.managed == p.managed;
    assert Reachable(q, a, b) <==> Reachable(p, a, b);
    assert PairAllowed(q, a, b) <==> PairAllowed(p, a, b);
    GatewayStays(p, d, b);
    hide Acceptable, Role, Group, PairAllowed, ApprovedGateway;
  }

  lemma GatewayStays(p: NetworkPolicy, d: DeviceId, g: DeviceId)
    requires g != d
    ensures ApprovedGateway(Without(p, d).gateways, g) <==> ApprovedGateway(p.gateways, g)
  {
    assert ApprovedGateway(p.gateways, g) <==> Gateway(g, true) in p.gateways;
    assert ApprovedGateway(Without(p, d).gateways, g) <==> Gateway(g, true) in Without(p, d).gateways;
  }

  /** The policy relies on the device: as a hub, a gateway, the gateway of a route, the subject of a rule, or with a role that is no restriction. */
  predicate Mentions(p: NetworkPolicy, d: DeviceId)
  {
    || d in p.hubs || (exists m :: m in p.members && m.device == d && m.role != 2) || (exists g :: g in p.gateways && g.device == d)
    || (exists r :: r in p.routes && r.gateway == d) || (exists r :: r in p.rules && (r.first.device == d || r.second.device == d))
  }

  lemma {:induction false} KeepAll<T(!new)>(xs: seq<T>, keep: T -> bool)
    ensures Keep(xs, keep) == xs <==> forall x :: x in xs ==> keep(x)
  {
    if xs != [] {
      KeepAll(xs[1..], keep);
      KeepIsNotLonger(xs[1..], keep);
    }
  }

  lemma WhatIsKept(p: NetworkPolicy, d: DeviceId)
    ensures Keep(p.hubs, OtherDevice(d)) == p.hubs <==> d !in p.hubs
    ensures Keep(p.members, OtherMember(d)) == p.members <==> !(exists m :: m in p.members && m.device == d && m.role != 2)
    ensures Keep(p.gateways, OtherGateway(d)) == p.gateways <==> !(exists g :: g in p.gateways && g.device == d)
    ensures Keep(p.routes, OtherRoute(d)) == p.routes <==> !(exists r :: r in p.routes && r.gateway == d)
    ensures Keep(p.rules, OtherRule(d)) == p.rules <==> !(exists r :: r in p.rules && (r.first.device == d || r.second.device == d))
  {
    KeepAll(p.hubs, OtherDevice(d));
    KeepAll(p.members, OtherMember(d));
    KeepAll(p.gateways, OtherGateway(d));
    KeepAll(p.routes, OtherRoute(d));
    KeepAll(p.rules, OtherRule(d));
  }

  lemma NothingLeft(p: NetworkPolicy, d: DeviceId)
    ensures !Mentions(Without(p, d), d)
  {
  }

  /** A departure changes the policy exactly when the policy relies on the device, and then it does not any more. */
  lemma RemovedExactly(p: NetworkPolicy, d: DeviceId)
    ensures Without(p, d) == p <==> !Mentions(p, d)
    ensures !Mentions(Without(p, d), d)
    ensures Exhausted(p, d) <==> Mentions(p, d) && p.revision == 0xffff_ffff_ffff_ffff
  {
    WhatIsKept(p, d);
    NothingLeft(p, d);
    hide Keep, OtherDevice, OtherMember, OtherGateway, OtherRoute, OtherRule;
  }

  // ---- Nothing dangles ----

  /** Every device a policy relies on is a member, and the owner holds the plain role. */
  ghost predicate Anchored(net: Network, p: NetworkPolicy)
  {
    && (forall d :: d in p.hubs ==> d in net.leases)
    && (forall r :: r in p.rules ==> Present(net, r.first.device) && Present(net, r.second.device))
    && (forall g :: g in p.gateways ==> g.device in net.leases)
    && (forall r :: r in p.routes ==> r.gateway in net.leases)
    && Role(p, net.owner) == MEMBER
  }

  lemma LeavingKeepsAnchored(net: Network, d: DeviceId)
    requires Anchored(net, net.policy) && Acceptable(net.policy) && !Exhausted(net.policy, d)
    ensures Anchored(WithoutMember(net, d), WithoutMember(net, d).policy)
  {
    hide Acceptable, Keep, Role;
    RoleAfterLeaving(net.policy, d, net.owner);
    var p, q := net.policy, WithoutMember(net, d);
    SameRoles(Without(p, d), q.policy, net.owner);
    forall h | h in q.policy.hubs ensures h in q.leases {
      assert h in p.hubs && OtherDevice(d)(h);
    }
    forall r | r in q.policy.rules ensures Present(q, r.first.device) && Present(q, r.second.device) {
      assert r in p.rules && OtherRule(d)(r);
    }
    forall g | g in q.policy.gateways ensures g.device in q.leases {
      assert g in p.gateways && OtherGateway(d)(g);
    }
    forall r | r in q.policy.routes ensures r.gateway in q.leases {
      assert r in p.routes && OtherRoute(d)(r);
    }
  }

  lemma SameRoles(p: NetworkPolicy, q: NetworkPolicy, d: DeviceId)
    requires p.members == q.members
    ensures Role(p, d) == Role(q, d)
  {
  }

  // ---- What an accepted change of policy has passed ----

  lemma {:induction false} GatewaysPassed(net: Network, next: NetworkPolicy, action: Action, actor: DeviceId, gs: seq<Gateway>, g: Gateway)
    requires GatewaysCode(net, next, action, actor, gs) == Done && g in gs
    ensures Present(net, g.device)
    ensures HasGateway(net.policy, g.device) || (action == RequestGateway && g.device == actor && !g.approved)
  {
    if g != gs[0] {
      assert g in gs[1..];
      GatewaysPassed(net, next, action, actor, gs[1..], g);
    }
  }

  lemma {:induction false} RoutesPassed(s: State, n: NetworkId, routes: seq<Route>, r: Route)
    requires n in s.networks && RoutesCode(s, n, routes) == Done && r in routes
    ensures !SubnetsOverlap(r.address, r.prefix, POOL_FIRST, POOL_PREFIX) && !TakenElsewhere(s, n, r)
    ensures Present(s.networks[n], r.gateway)
  {
    hide SubnetsOverlap, TakenElsewhere;
    if r != routes[0] {
      assert r in routes[1..];
      RoutesPassed(s, n, routes[1..], r);
    }
  }

  predicate Saves(s: State, actor: DeviceId, n: NetworkId, action: Action, q: NetworkPolicy)
  {
    ManageCode(s, actor, n, action, q) == Done && action != Inspect
  }

  lemma SavedPassed(s: State, actor: DeviceId, n: NetworkId, action: Action, q: NetworkPolicy)
    requires Saves(s, actor, n, action, q)
    ensures Acceptable(q) && action != Inspect && n in s.networks && actor in s.networks[n].leases
    ensures var net := s.networks[n]; var next := Proposed(net, actor, action, q);
      && GatewaysCode(net, next, action, actor, next.gateways) == Done
      && RoutesCode(s, n, next.routes) == Done
      && SubjectsPresent(net, q) && AssignmentsValid(s, net, next)
      && next.revision == net.policy.revision == q.revision < MAX_U64
      && (action == ReplacePolicy ==> CanManage(s, n, actor))
      && (action == ReplacePolicy && actor != net.owner ==> RolesKept(net.policy, next))
      && (action == RequestGateway ==> net.policy.managed && !HasGateway(net.policy, actor) && |net.policy.gateways| < 16)
  {
    hide Acceptable, GatewaysCode, RoutesCode, SubjectsPresent, AssignmentsValid, CanManage, RolesKept, HasGateway, Revoked, Role;
  }

  lemma ProposedIsAcceptable(s: State, actor: DeviceId, n: NetworkId, action: Action, q: NetworkPolicy)
    requires Saves(s, actor, n, action, q) && Acceptable(s.networks[n].policy) && actor != ZERO_DEVICE
    ensures Acceptable(Proposed(s.networks[n], actor, action, q))
  {
    SavedPassed(s, actor, n, action, q);
    hide ManageCode, Acceptable;
    if action == RequestGateway {
      AddedGatewayIsAcceptable(s.networks[n].policy, actor);
    }
  }

  lemma AddedGatewayIsAcceptable(p: NetworkPolicy, d: DeviceId)
    requires Acceptable(p) && p.managed && !HasGateway(p, d) && |p.gateways| < 16 && d != ZERO_DEVICE
    ensures Acceptable(p.(gateways := p.gateways + [Gateway(d, false)]))
  {
    hide GoodSubject, GoodGroups, GoodMember, PrivateRoutedSubnet, Known, SubnetsOverlap;
    var q := p.(gateways := p.gateways + [Gateway(d, false)]);
    var ds := GatewayDevices(p.gateways);
    assert GatewayDevices(q.gateways) == ds + [d];
    assert forall i :: 0 <= i < |ds| ==> ds[i] == p.gateways[i].device != d;
    assert GoodDevices(GatewayDevices(q.gateways));
    forall i | 0 <= i < |q.routes| ensures GoodRoute(q.routes[i], q) {
      assert GoodRoute(p.routes[i], p);
      var g :| 0 <= g < |p.gateways| && p.gateways[g].device == p.routes[i].gateway && p.gateways[g].approved;
      assert q.gateways[g] == p.gateways[g];
    }
  }

  lemma ProposedGatewaysPresent(net: Network, next: NetworkPolicy, action: Action, actor: DeviceId)
    requires GatewaysCode(net, next, action, actor, next.gateways) == Done && GoodDevices(GatewayDevices(next.gateways))
    ensures forall g :: g in next.gateways ==> g.device in net.leases
  {
    hide GatewaysCode, HasGateway;
    forall g | g in next.gateways ensures g.device in net.leases {
      GatewaysPassed(net, next, action, actor, next.gateways, g);
      var i :| 0 <= i < |next.gateways| && next.gateways[i] == g;
      assert GatewayDevices(next.gateways)[i] in GatewayDevices(next.gateways);
    }
  }

  lemma ReplacementIsAnchored(s: State, net: Network, next: NetworkPolicy)
    requires SubjectsPresent(net, next) && AssignmentsValid(s, net, next) && GoodDevices(next.hubs)
    ensures (forall d :: d in next.hubs ==> d in net.leases) && Role(next, net.owner) == MEMBER
    ensures forall r :: r in next.rules ==> Present(net, r.first.device) && Present(net, r.second.device)
  {
    RoleIsListed(next.members, net.owner);
  }

  lemma AcceptableDevices(p: NetworkPolicy)
    requires Acceptable(p)
    ensures GoodDevices(GatewayDevices(p.gateways)) && GoodDevices(p.hubs)
  {
  }

  lemma ProposedIsAnchored(s: State, actor: DeviceId, n: NetworkId, action: Action, q: NetworkPolicy)
    requires Saves(s, actor, n, action, q) && Acceptable(s.networks[n].policy) && actor != ZERO_DEVICE
    requires Anchored(s.networks[n], s.networks[n].policy)
    ensures Anchored(s.networks[n], Proposed(s.networks[n], actor, action, q))
  {
    hide ManageCode, Acceptable, Saves, GatewaysCode, RoutesCode, SubjectsPresent, AssignmentsValid, GoodDevices, Role, RolesKept, CanManage, HasGateway;
    SavedPassed(s, actor, n, action, q);
    ProposedIsAcceptable(s, actor, n, action, q);
    var net := s.networks[n];
    var next := Proposed(net, actor, action, q);
    AcceptableDevices(next);
    ProposedGatewaysPresent(net, next, action, actor);
    forall r | r in next.routes ensures r.gateway in net.leases {
      RouteHasGateway(next, r);
    }
    if action == ReplacePolicy {
      ReplacementIsAnchored(s, net, next);
    } else {
      SameRoles(net.policy, next, net.owner);
    }
  }

  lemma RouteHasGateway(p: NetworkPolicy, r: Route)
    requires Acceptable(p) && r in p.routes
    ensures exists g :: g in p.gateways && g.device == r.gateway && g.approved
  {
    hide PrivateRoutedSubnet, Known, SubnetsOverlap;
    var i :| 0 <= i < |p.routes| && p.routes[i] == r;
    assert GoodRoute(p.routes[i], p);
    var g :| 0 <= g < |p.gateways| && p.gateways[g].device == r.gateway && p.gateways[g].approved;
    assert p.gateways[g] in p.gateways;
  }
}
