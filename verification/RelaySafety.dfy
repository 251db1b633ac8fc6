/** What holds over every run of the relay. */
module RelaySafety {
  import opened Bytes
  import opened Policy
  import opened PolicyCodec
  import opened Ipv4Fanout
  import opened Relay
  import opened RelayPolicies
  import opened RelayRuns

  function After(s: State, es: seq<Event>): (t: State)
    decreases |es|
  {
    if es == [] then s else After(Step(s, es[0]).state, es[1..])
  }

  /** Restarting the process keeps the store and forgets everything else. */
  function Restarted(s: State): (t: State)
  {
    s.(activeKeys := map[], capable := {}, keyEpochs := map[], revisions := map[])
  }

  lemma RestartKeepsInv(s: State)
    requires Inv(s)
    ensures Inv(Restarted(s))
  {
    hide SoundNetwork, Apart;
  }

  lemma EmptyIsSound(s: State)
    requires s.networks == map[] && s.accounts == map[] && s.activeKeys == map[]
    ensures Inv(s)
  {
  }

  lemma {:induction false} RunKeepsInv(s: State, es: seq<Event>)
    requires Inv(s)
    ensures Inv(After(s, es))
    decreases |es|
  {
    hide Inv, Step;
    if es != [] {
      StepKeepsInv(s, es[0]);
      RunKeepsInv(Step(s, es[0]).state, es[1..]);
    }
  }

  // ---- Routed subnets ----

  /** In every reachable state two routes of any networks, or two of one list, share no address, and none is a virtual one. */
  lemma RoutesNeverOverlap(s: State, es: seq<Event>, m: NetworkId, n: NetworkId, i: nat, j: nat)
    requires Inv(s)
    requires var t := After(s, es);
      m in t.networks && n in t.networks && i < |t.networks[m].policy.routes| && j < |t.networks[n].policy.routes| && (m != n || i != j)
    ensures var r, x := After(s, es).networks[m].policy.routes[i], After(s, es).networks[n].policy.routes[j];
      !SubnetsOverlap(r.address, r.prefix, x.address, x.prefix) && !SubnetsOverlap(r.address, r.prefix, POOL_FIRST, POOL_PREFIX)
  {
    RunKeepsInv(s, es);
    hide After, SubnetsOverlap;
    var t := After(s, es);
    var r, x := t.networks[m].policy.routes[i], t.networks[n].policy.routes[j];
    assert SoundNetwork(t.networks[m]);
    assert r in t.networks[m].policy.routes && x in t.networks[n].policy.routes;
    if m == n {
      SameNetworkApart(t.networks[m].policy, i, j);
    } else {
      assert Apart(t.networks[m].policy, t.networks[n].policy);
    }
  }

  lemma SameNetworkApart(p: NetworkPolicy, i: nat, j: nat)
    requires Acceptable(p) && i < |p.routes| && j < |p.routes| && i != j
    ensures !SubnetsOverlap(p.routes[i].address, p.routes[i].prefix, p.routes[j].address, p.routes[j].prefix)
  {
    OverlapIsSymmetric(p.routes[i].address, p.routes[i].prefix, p.routes[j].address, p.routes[j].prefix);
    assert RoutesApart(p.routes);
    hide SubnetsOverlap;
  }

  /** No address is ever leased twice, in one network or across networks. */
  lemma LeasesNeverCollide(s: State, es: seq<Event>, m: NetworkId, n: NetworkId, d: DeviceId, x: DeviceId)
    requires Inv(s) && IsMember(After(s, es), m, d) && IsMember(After(s, es), n, x) && (m != n || d != x)
    ensures After(s, es).networks[m].leases[d] != After(s, es).networks[n].leases[x]
  {
    RunKeepsInv(s, es);
    hide After, Apart, Acceptable, Anchored, RoutesOutsidePool;
    var t := After(s, es);
    assert SoundNetwork(t.networks[m]) && SoundNetwork(t.networks[n]);
    if m != n {
      BlocksAreApart(t.networks[m].subnet, t.networks[n].subnet);
    }
  }

  lemma BlocksAreApart(a: nat, b: nat)
    requires a % SUBNET_SIZE == 0 && b % SUBNET_SIZE == 0 && a != b
    ensures a + SUBNET_SIZE <= b || b + SUBNET_SIZE <= a
  {
  }

  // ---- Key epochs ----

  ghost predicate Accepted(s: State, e: Event, n: NetworkId)
  {
    e.PublishKeys? && Step(s, e).code == Done && e.envelopes != [] && e.envelopes[0].network == n
  }

  lemma {:induction false} EnvelopesPassed(s: State, n: NetworkId, actor: DeviceId, seen: set<DeviceId>, es: seq<Envelope>, i: nat)
    requires n in s.networks && actor in s.activeKeys && EnvelopesCode(s, n, actor, seen, es) == Done && i < |es|
    ensures es[i].network == n && es[i].epoch == EpochOf(s, n) && es[i].recipient in s.networks[n].leases && es[i].recipient in s.activeKeys
    decreases |es|
  {
    hide EpochOf;
    if i > 0 {
      EnvelopesPassed(s, n, actor, seen + {es[0].recipient}, es[1..], i - 1);
    }
  }

  /** An accepted publication is at the current epoch, which then has an entry. */
  lemma AcceptedIsCurrent(s: State, e: Event, n: NetworkId, i: nat)
    requires Inv(s) && Accepted(s, e, n) && i < |e.envelopes|
    ensures e.envelopes[i].network == n && e.envelopes[i].epoch == EpochOf(s, n) && n in s.keyEpochs
    ensures Step(s, e).state == s
  {
    hide NetworksSound, NetworksApart, AccountsSound, KeysSound, EnvelopesCode;
    assert n in s.networks && s.networks[n].owner == e.actor && e.actor in s.activeKeys;
    EnvelopesPassed(s, n, e.actor, {}, e.envelopes, i);
  }

  /** A change of a network moves its epoch exactly when the epoch has an entry: the first advance gives the default again. */
  lemma EpochMovesExactly(s: State, e: Event, n: NetworkId)
    requires ChangeOf(s, e, n) != Untouched
    ensures EpochOf(Step(s, e).state, n) > EpochOf(s, n) <==> n in s.keyEpochs
    ensures EpochOf(Step(s, e).state, n) >= EpochOf(s, n)
    ensures n in Step(s, e).state.keyEpochs
  {
    hide Step, ChangeOf, Follows;
    StepFollows(s, e, n);
    ChangeKeepsIdentity(s, Step(s, e).state, n, ChangeOf(s, e, n));
  }

  lemma {:induction false} EpochsGrow(s: State, es: seq<Event>, n: NetworkId)
    requires n in s.keyEpochs
    ensures n in After(s, es).keyEpochs && EpochOf(After(s, es), n) >= EpochOf(s, n)
    decreases |es|
  {
    hide Step;
    if es != [] {
      StepKeepsIdentity(s, es[0], n);
      EpochsGrow(Step(s, es[0]).state, es[1..], n);
    }
  }

  /**
    * Once a publication was accepted, a later change of the network retires its
    * epoch for good: nothing stamped with it is routed and no envelope of it is
    * accepted, however the run goes on.
    */
  lemma RetiredEpochIsDead(s: State, publish: Event, middle: seq<Event>, change: Event, later: seq<Event>, n: NetworkId, i: nat)
    requires Inv(s) && Accepted(s, publish, n) && i < |publish.envelopes|
    requires ChangeOf(After(s, middle), change, n) != Untouched
    ensures var k := publish.envelopes[i].epoch; var t := After(Step(After(s, middle), change).state, later);
      && EpochOf(t, n) > k
      && (forall a, p: Packet, admitted :: p.network == n && p.epoch <= k ==> RoutePacket(t, a, p, admitted) == {})
      && (forall e, j :: Accepted(t, e, n) && 0 <= j < |e.envelopes| ==> e.envelopes[j].epoch > k)
  {
    hide Step, ChangeOf, Inv;
    var m := After(s, middle);
    var u := Step(m, change).state;
    var t := After(u, later);
    AcceptedIsCurrent(s, publish, n, i);
    EpochsGrow(s, middle, n);
    EpochMovesExactly(m, change, n);
    EpochsGrow(u, later, n);
    RunKeepsInv(s, middle);
    StepKeepsInv(m, change);
    RunKeepsInv(u, later);
    hide After;
    forall e, j | Accepted(t, e, n) && 0 <= j < |e.envelopes| ensures e.envelopes[j].epoch > publish.envelopes[i].epoch {
      AcceptedIsCurrent(t, e, n, j);
    }
  }

  // ---- Policy revisions ----

  lemma ChangeRaisesRevision(s: State, t: State, n: NetworkId, c: Change)
    requires Follows(s, t, n, c) && n in s.networks
    ensures n in t.networks && t.networks[n].policy.revision >= s.networks[n].policy.revision
    ensures c.Replaced? ==> c.request.revision == s.networks[n].policy.revision && t.networks[n].policy.revision == c.request.revision + 1
  {
    hide Saves, Exhausted, WithMember;
    match c
    case Admitted(d) => AddingKeepsPolicy(s.networks[n], d);
    case Replaced(a, action, q) => SavedPassed(s, a, n, action, q);
    case _ =>
  }

  lemma {:induction false} RevisionsGrow(s: State, es: seq<Event>, n: NetworkId)
    requires n in s.networks
    ensures n in After(s, es).networks && After(s, es).networks[n].policy.revision >= s.networks[n].policy.revision
    decreases |es|
  {
    hide Step, Follows, ChangeOf;
    if es != [] {
      StepFollows(s, es[0], n);
      ChangeRaisesRevision(s, Step(s, es[0]).state, n, ChangeOf(s, es[0], n));
      RevisionsGrow(Step(s, es[0]).state, es[1..], n);
    }
  }

  /** Of two accepted requests the later one was built on a higher revision, so never both on the same. */
  lemma RevisionIsUsedOnce(s: State, first: Event, middle: seq<Event>, second: Event, n: NetworkId)
    requires ChangeOf(s, first, n).Replaced?
    requires ChangeOf(After(Step(s, first).state, middle), second, n).Replaced?
    ensures first.Manage? && second.Manage? && first.policy.revision < second.policy.revision
    ensures n in s.networks && first.policy.revision == s.networks[n].policy.revision
    ensures n in Step(s, first).state.networks && Step(s, first).state.networks[n].policy.revision == first.policy.revision + 1
  {
    ActorIsSomebody(s, first, n);
    StepFollows(s, first, n);
    var t := Step(s, first).state;
    ChangeRaisesRevision(s, t, n, ChangeOf(s, first, n));
    RevisionsGrow(t, middle, n);
    var u := After(t, middle);
    ActorIsSomebody(u, second, n);
    StepFollows(u, second, n);
    ChangeRaisesRevision(u, Step(u, second).state, n, ChangeOf(u, second, n));
    hide Step, ChangeOf, Follows, After;
  }

  // ---- Roles and gateways ----

  lemma ChangeKeepsRoles(s: State, t: State, n: NetworkId, c: Change, d: DeviceId)
    requires Follows(s, t, n, c) && n in s.networks && SoundNetwork(s.networks[n])
    requires c.Replaced? && c.action == ReplacePolicy ==> c.actor != s.networks[n].owner
    ensures n in t.networks
    ensures Role(t.networks[n].policy, d) == Role(s.networks[n].policy, d)
         || (c == Removed(d) && Role(s.networks[n].policy, d) == ADMINISTRATOR && Role(t.networks[n].policy, d) == MEMBER)
  {
    hide Saves, Exhausted, WithMember, Role, RolesKept;
    var p := s.networks[n].policy;
    match c
    case Admitted(x) => AddingKeepsPolicy(s.networks[n], x);
    case Removed(x) =>
      RoleAfterLeaving(p, x, d);
      SameRoles(Without(p, x), t.networks[n].policy, d);
      RoleIsKnown(p, d);
    case Replaced(a, action, q) =>
      SavedPassed(s, a, n, action, q);
      if action == ReplacePolicy {
        RolesKeptForAll(p, q, d);
      }
      SameRoles(Proposed(s.networks[n], a, action, q), t.networks[n].policy, d);
      SameRoles(p, p.(gateways := p.gateways + [Gateway(a, false)]), d);
    case _ =>
  }

  lemma RoleIsKnown(p: NetworkPolicy, d: DeviceId)
    requires Acceptable(p)
    ensures Role(p, d) <= RESTRICTED
  {
    RoleIsListed(p.members, d);
    assert forall i :: 0 <= i < |p.members| ==> GoodMember(p.members[i], p.groups);
  }

  /** `d` leaves the network by its own request or by being revoked. */
  predicate Departs(s: State, e: Event, n: NetworkId, d: DeviceId)
  {
    Step(s, e).code == Done && (e == Leave(d, n) || (e.Revoke? && e.device == d && IsMember(s, n, d)))
  }

  lemma RemovedAdministratorIsPlain(s: State, t: State, n: NetworkId, d: DeviceId)
    requires Follows(s, t, n, Removed(d)) && SoundNetwork(s.networks[n]) && Role(s.networks[n].policy, d) == ADMINISTRATOR
    ensures Role(t.networks[n].policy, d) == MEMBER
  {
    hide Exhausted, Role;
    RoleAfterLeaving(s.networks[n].policy, d, d);
    SameRoles(Without(s.networks[n].policy, d), t.networks[n].policy, d);
  }

  /**
    * An event of anyone but the owner changes the role of a device if and only if
    * the device is an administrator that leaves or is revoked; it is plain then.
    */
  lemma OnlyTheOwnerChangesRoles(s: State, e: Event, n: NetworkId, d: DeviceId)
    requires Inv(s) && n in s.networks && e.actor != s.networks[n].owner
    ensures n in Step(s, e).state.networks
    ensures Role(Step(s, e).state.networks[n].policy, d) != Role(s.networks[n].policy, d)
       <==> Role(s.networks[n].policy, d) == ADMINISTRATOR && Departs(s, e, n, d)
    ensures Departs(s, e, n, d) && Role(s.networks[n].policy, d) == ADMINISTRATOR ==> Role(Step(s, e).state.networks[n].policy, d) == MEMBER
  {
    hide Step, ChangeOf, Follows, SoundNetwork, Role, Departs;
    StepFollows(s, e, n);
    ChangedByWhom(s, e, n, d);
    var t := Step(s, e).state;
    ChangeKeepsRoles(s, t, n, ChangeOf(s, e, n), d);
    if Role(s.networks[n].policy, d) == ADMINISTRATOR && Departs(s, e, n, d) {
      RemovedAdministratorIsPlain(s, t, n, d);
    }
  }

  lemma ChangedByWhom(s: State, e: Event, n: NetworkId, d: DeviceId)
    requires n in s.networks && e.actor != s.networks[n].owner
    ensures ChangeOf(s, e, n).Replaced? ==> ChangeOf(s, e, n).actor == e.actor
    ensures Departs(s, e, n, d) ==> ChangeOf(s, e, n) == Removed(d)
    ensures ChangeOf(s, e, n) == Removed(d) && Role(s.networks[n].policy, d) == ADMINISTRATOR ==> Departs(s, e, n, d)
  {
    hide Step, Role;
    if ChangeOf(s, e, n) == Removed(d) {
      RemovedHow(s, e, n, d);
    }
  }

  lemma RemovedHow(s: State, e: Event, n: NetworkId, d: DeviceId)
    requires ChangeOf(s, e, n) == Removed(d)
    ensures e == Leave(d, n) || (e.Revoke? && e.device == d)
         || (e == Kick(e.actor, n, d) && n in s.networks && (e.actor == s.networks[n].owner || Role(s.networks[n].policy, d) != ADMINISTRATOR))
  {
    hide CreateNetwork, JoinNetwork, RedeemInvite, ApproveMember, InviteMember, ManageNetwork, JoinWithPassword, LeaveNetwork, RevokeDevice,
         RoutePacket, PublishNetworkKeys, SetPassword, CreateAccount, EnrolDevice, SetCapable, PublishDeviceKey, RemoveDeviceKey, CanManage, Exhausted, NetworksOf;
  }

  ghost predicate Appoints(e: Event, n: NetworkId, owner: DeviceId)
  {
    e.Manage? && e.network == n && e.actor == owner && e.action == ReplacePolicy
  }

  lemma NewAdministrator(s: State, e: Event, n: NetworkId, d: DeviceId)
    requires Inv(s) && n in s.networks && Role(s.networks[n].policy, d) != ADMINISTRATOR
    ensures n in Step(s, e).state.networks
    ensures Role(Step(s, e).state.networks[n].policy, d) == ADMINISTRATOR ==> Appoints(e, n, s.networks[n].owner)
  {
    StepFollows(s, e, n);
    StepKeepsIdentity(s, e, n);
    if ChangeOf(s, e, n).Replaced? {
      ActorIsSomebody(s, e, n);
    }
    hide Step, ChangeOf, Follows, SoundNetwork, Role;
    var c := ChangeOf(s, e, n);
    if !(c.Replaced? && c.action == ReplacePolicy && c.actor == s.networks[n].owner) {
      ChangeKeepsRoles(s, Step(s, e).state, n, c, d);
    }
  }

  lemma AfterFirst(s: State, es: seq<Event>, i: nat)
    requires i < |es| - 1
    ensures After(s, es[..i + 1]) == After(Step(s, es[0]).state, es[1..][..i])
  {
    hide Step;
    assert es[..i + 1][1..] == es[1..][..i];
  }

  /** Step `i` of the run is the owner saving a policy, and it makes `d` an administrator. */
  ghost predicate AppointedAt(s: State, es: seq<Event>, n: NetworkId, d: DeviceId, i: nat)
    requires i < |es|
  {
    var u := After(s, es[..i]);
    var v := Step(u, es[i]).state;
    && n in u.networks && n in v.networks && Appoints(es[i], n, u.networks[n].owner)
    && Role(u.networks[n].policy, d) != ADMINISTRATOR && Role(v.networks[n].policy, d) == ADMINISTRATOR
  }

  /** An administrator appears only through a policy the owner saved. */
  lemma {:induction false} AdministratorsAreAppointed(s: State, es: seq<Event>, n: NetworkId, d: DeviceId)
    requires Inv(s) && n in s.networks && Role(s.networks[n].policy, d) != ADMINISTRATOR
    ensures n in After(s, es).networks
    ensures Role(After(s, es).networks[n].policy, d) == ADMINISTRATOR ==> exists i :: 0 <= i < |es| && AppointedAt(s, es, n, d, i)
    decreases |es|
  {
    hide Step, Inv, Role, Appoints;
    RevisionsGrow(s, es, n);
    if es != [] && Role(After(s, es).networks[n].policy, d) == ADMINISTRATOR {
      var t := Step(s, es[0]).state;
      StepKeepsInv(s, es[0]);
      StepKeepsIdentity(s, es[0], n);
      NewAdministrator(s, es[0], n, d);
      if Role(t.networks[n].policy, d) == ADMINISTRATOR {
        assert es[..0] == [];
        assert AppointedAt(s, es, n, d, 0);
      } else {
        AdministratorsAreAppointed(t, es[1..], n, d);
        var i :| 0 <= i < |es[1..]| && AppointedAt(t, es[1..], n, d, i);
        AfterFirst(s, es, i);
        assert AppointedAt(s, es, n, d, i + 1);
      }
    }
  }

  lemma GatewayIsListed(p: NetworkPolicy, d: DeviceId)
    ensures HasGateway(p, d) <==> exists g :: g in p.gateways && g.device == d
  {
    if g :| g in p.gateways && g.device == d {
      var i :| 0 <= i < |p.gateways| && p.gateways[i] == g;
    }
  }

  lemma LeavingAddsNoGateway(p: NetworkPolicy, x: DeviceId, d: DeviceId)
    requires HasGateway(Without(p, x), d)
    ensures HasGateway(p, d)
  {
    hide Keep;
    GatewayIsListed(Without(p, x), d);
    GatewayIsListed(p, d);
  }

  lemma ChangeAddsGateway(s: State, t: State, n: NetworkId, c: Change, d: DeviceId)
    requires Follows(s, t, n, c) && n in t.networks && HasGateway(t.networks[n].policy, d)
    requires n in s.networks ==> !HasGateway(s.networks[n].policy, d)
    ensures c.Replaced? && c.action == RequestGateway && c.actor == d && n in s.networks
    ensures t.networks[n].policy.gateways == s.networks[n].policy.gateways + [Gateway(d, false)]
  {
    hide Saves, Exhausted, WithMember, HasGateway;
    match c
    case Untouched =>
    case Created(a) =>
      CreatedIsSound(t.networks[n], a);
      GatewayIsListed(UNMANAGED, d);
    case Admitted(x) => AddingKeepsPolicy(s.networks[n], x);
    case Removed(x) =>
      SameGateways(t.networks[n].policy, Without(s.networks[n].policy, x), d);
      LeavingAddsNoGateway(s.networks[n].policy, x, d);
    case Replaced(a, action, q) =>
      SavedPassed(s, a, n, action, q);
      var next := Proposed(s.networks[n], a, action, q);
      SameGateways(t.networks[n].policy, next, d);
      GatewayIsListed(next, d);
      var g :| g in next.gateways && g.device == d;
      GatewaysPassed(s.networks[n], next, action, a, next.gateways, g);
  }

  lemma SameGateways(p: NetworkPolicy, q: NetworkPolicy, d: DeviceId)
    requires p.gateways == q.gateways
    ensures HasGateway(p, d) <==> HasGateway(q, d)
  {
  }

  predicate Listed(s: State, n: NetworkId, d: DeviceId)
  {
    n in s.networks && HasGateway(s.networks[n].policy, d)
  }

  /** A gateway enters a policy only unapproved and only by the request of that very device. */
  lemma GatewayEntersByRequest(s: State, e: Event, n: NetworkId, d: DeviceId)
    requires !Listed(s, n, d) && Listed(Step(s, e).state, n, d)
    ensures e.Manage? && e.actor == d && e.network == n && e.action == RequestGateway
    ensures n in s.networks && Step(s, e).state.networks[n].policy.gateways == s.networks[n].policy.gateways + [Gateway(d, false)]
  {
    StepFollows(s, e, n);
    if ChangeOf(s, e, n) != Untouched {
      ActorIsSomebody(s, e, n);
    }
    hide Step, ChangeOf, Follows, HasGateway;
    ChangeAddsGateway(s, Step(s, e).state, n, ChangeOf(s, e, n), d);
  }

  /** Step `i` of the run is the device's own request, and it adds the device as an unapproved gateway. */
  ghost predicate EnteredAt(s: State, es: seq<Event>, n: NetworkId, d: DeviceId, i: nat)
    requires i < |es|
  {
    var u := After(s, es[..i]);
    var v := Step(u, es[i]).state;
    && es[i].Manage? && es[i].actor == d && es[i].network == n && es[i].action == RequestGateway
    && n in u.networks && n in v.networks
    && v.networks[n].policy.gateways == u.networks[n].policy.gateways + [Gateway(d, false)]
  }

  /** Over a run: every gateway that was not there at the start entered unapproved, by its own request. */
  lemma {:induction false} GatewaysAskedThemselves(s: State, es: seq<Event>, n: NetworkId, d: DeviceId)
    requires !Listed(s, n, d) && Listed(After(s, es), n, d)
    ensures exists i :: 0 <= i < |es| && EnteredAt(s, es, n, d, i)
    decreases |es|
  {
    hide Step, HasGateway;
    var t := Step(s, es[0]).state;
    if Listed(t, n, d) {
      GatewayEntersByRequest(s, es[0], n, d);
      assert es[..0] == [];
      assert EnteredAt(s, es, n, d, 0);
    } else {
      GatewaysAskedThemselves(t, es[1..], n, d);
      var i :| 0 <= i < |es[1..]| && EnteredAt(t, es[1..], n, d, i);
      AfterFirst(s, es, i);
      assert EnteredAt(s, es, n, d, i + 1);
    }
  }

  // ---- Who packets reach ----

  /** A routed packet joins two connected, unrevoked members that the policy lets talk, at the current epoch. */
  lemma RoutedIsAllowed(s: State, a: DeviceId, p: Packet, admitted: bool, d: DeviceId)
    requires Inv(s) && d in RoutePacket(s, a, p, admitted)
    ensures IsMember(s, p.network, a) && IsMember(s, p.network, d) && a != d
    ensures a in s.activeKeys && d in s.activeKeys && !Revoked(s, a) && !Revoked(s, d)
    ensures p.epoch == EpochOf(s, p.network) && PairAllowed(s.networks[p.network].policy, a, d)
  {
    hide NetworksSound, NetworksApart, AccountsSound, EpochsSound, PairAllowed;
    PairNeedsTwo(s.networks[p.network].policy, a, d);
  }

  lemma PairNeedsTwo(p: NetworkPolicy, a: DeviceId, d: DeviceId)
    ensures PairAllowed(p, a, d) ==> a != d
  {
  }

  /** A packet for one address reaches at most one device. */
  lemma UnicastReachesOne(s: State, a: DeviceId, p: Packet, admitted: bool, d: DeviceId, x: DeviceId)
    requires Inv(s) && d in RoutePacket(s, a, p, admitted) && x in RoutePacket(s, a, p, admitted)
    requires !IsFanout(p.destination, s.networks[p.network].subnet, SUBNET_PREFIX)
    ensures d == x
  {
    hide NetworksApart, AccountsSound, EpochsSound, KeysSound, TrafficAllowed, Acceptable, Anchored, RoutesOutsidePool;
    assert SoundNetwork(s.networks[p.network]);
  }

  lemma {:induction false} RevokedStays(s: State, es: seq<Event>, d: DeviceId)
    requires Revoked(s, d)
    ensures Revoked(After(s, es), d)
    decreases |es|
  {
    hide Step, Revoked;
    if es != [] {
      RevokedForever(s, es[0], d);
      RevokedStays(Step(s, es[0]).state, es[1..], d);
    }
  }

  /** From a revocation on, no run routes anything from or to the device. */
  lemma RevokedIsCutOff(s: State, a: DeviceId, d: DeviceId, later: seq<Event>, p: Packet, sender: DeviceId, admitted: bool)
    requires Inv(s) && Step(s, Revoke(a, d)).code == Done
    ensures var t := After(Step(s, Revoke(a, d)).state, later);
      RoutePacket(t, d, p, admitted) == {} && d !in RoutePacket(t, sender, p, admitted)
  {
    RevokeRevokes(s, a, d);
    StepKeepsInv(s, Revoke(a, d));
    var u := Step(s, Revoke(a, d)).state;
    RevokedStays(u, later, d);
    RunKeepsInv(u, later);
    var t := After(u, later);
    hide Step, After;
    if d in RoutePacket(t, sender, p, admitted) {
      RoutedIsAllowed(t, sender, p, admitted, d);
    }
  }

  /** The events that make `d` a member of `n`. */
  predicate Adds(s: State, e: Event, n: NetworkId, d: DeviceId)
  {
    ChangeOf(s, e, n) == Admitted(d) || ChangeOf(s, e, n) == Created(d)
  }

  predicate NeverAdds(s: State, es: seq<Event>, n: NetworkId, d: DeviceId)
    decreases |es|
  {
    es == [] || (!Adds(s, es[0], n, d) && NeverAdds(Step(s, es[0]).state, es[1..], n, d))
  }

  lemma ChangeAddsMember(s: State, t: State, n: NetworkId, c: Change, d: DeviceId)
    requires Follows(s, t, n, c) && !IsMember(s, n, d) && IsMember(t, n, d)
    ensures c == Admitted(d) || c == Created(d)
  {
    hide Saves, Exhausted, FirstFree, Proposed;
  }

  lemma {:induction false} OutsiderStaysOut(s: State, es: seq<Event>, n: NetworkId, d: DeviceId)
    requires !IsMember(s, n, d) && NeverAdds(s, es, n, d)
    ensures !IsMember(After(s, es), n, d)
    decreases |es|
  {
    hide Step, ChangeOf, Follows, IsMember;
    if es != [] {
      StepFollows(s, es[0], n);
      if IsMember(Step(s, es[0]).state, n, d) {
        ChangeAddsMember(s, Step(s, es[0]).state, n, ChangeOf(s, es[0], n), d);
      }
      OutsiderStaysOut(Step(s, es[0]).state, es[1..], n, d);
    }
  }

  /** After leaving or being kicked a device sends and gets nothing in that network until it is added again. */
  lemma RemovedIsCutOff(s: State, e: Event, later: seq<Event>, n: NetworkId, d: DeviceId, p: Packet, sender: DeviceId, admitted: bool)
    requires Inv(s) && ChangeOf(s, e, n) == Removed(d) && NeverAdds(Step(s, e).state, later, n, d) && p.network == n
    ensures var t := After(Step(s, e).state, later);
      RoutePacket(t, d, p, admitted) == {} && d !in RoutePacket(t, sender, p, admitted)
  {
    hide Step, After, ChangeOf, NeverAdds, Follows, Inv, RoutePacket, IsMember;
    StepFollows(s, e, n);
    RemovedIsOut(s, Step(s, e).state, n, d);
    OutsiderStaysOut(Step(s, e).state, later, n, d);
    OutsiderIsNotRouted(After(Step(s, e).state, later), d, p, sender, admitted);
  }

  lemma OutsiderIsNotRouted(s: State, d: DeviceId, p: Packet, sender: DeviceId, admitted: bool)
    requires !IsMember(s, p.network, d)
    ensures RoutePacket(s, d, p, admitted) == {} && d !in RoutePacket(s, sender, p, admitted)
  {
    hide TrafficAllowed;
  }

  lemma RemovedIsOut(s: State, t: State, n: NetworkId, d: DeviceId)
    requires Follows(s, t, n, Removed(d))
    ensures !IsMember(t, n, d)
  {
    hide Without;
  }
}
