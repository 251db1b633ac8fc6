/** The relay's service object: its methods carry out the steps of the state machine. */
module RelayService {
  import opened Bytes
  import opened Policy
  import opened PolicyCodec
  import opened Ipv4Fanout
  import opened Relay

  lemma BumpNext(m: map<NetworkId, nat>, done: set<NetworkId>, n: NetworkId)
    requires n !in done
    ensures Bump(BumpAll(m, done), n) == BumpAll(m, done + {n})
  {
  }

  lemma BumpNone(m: map<NetworkId, nat>)
    ensures BumpAll(m, {}) == m
  {
  }

  function OwnedAmong(networks: map<NetworkId, Network>, d: DeviceId, ns: set<NetworkId>): (r: set<NetworkId>)
  {
    set n | n in ns && n in networks && networks[n].owner == d
  }

  lemma OwnedAmongGrows(networks: map<NetworkId, Network>, d: DeviceId, ns: set<NetworkId>, n: NetworkId)
    ensures OwnedAmong(networks, d, {}) == {} && OwnedAmong(networks, d, ns) <= ns
    ensures n in networks && networks[n].owner == d ==> OwnedAmong(networks, d, ns + {n}) == OwnedAmong(networks, d, ns) + {n}
    ensures n in networks && networks[n].owner != d ==> OwnedAmong(networks, d, ns + {n}) == OwnedAmong(networks, d, ns)
  {
  }

  lemma OwnedAmongAll(s: State, d: DeviceId)
    ensures OwnedAmong(s.networks, d, NetworksOf(s, d)) == Owned(s, d)
  {
  }

  lemma NetworksOfExist(s: State, d: DeviceId)
    ensures NetworksOf(s, d) <= s.networks.Keys
  {
  }

  class NetworkService {
    var networks: map<NetworkId, Network>
    var devices: set<DeviceId>
    var accounts: map<AccountId, DeviceId>
    var enrolled: map<DeviceId, Enrolment>
    var activeKeys: map<DeviceId, ActiveKey>
    var capable: set<DeviceId>
    var keyEpochs: map<NetworkId, nat>
    var revisions: map<NetworkId, nat>

    function View(): (s: State)
      reads this
    {
      State(networks, devices, accounts, enrolled, activeKeys, capable, keyEpochs, revisions)
    }

    /** A service starts from what the store holds and remembers nothing else. */
    constructor (networks: map<NetworkId, Network>, devices: set<DeviceId>, accounts: map<AccountId, DeviceId>, enrolled: map<DeviceId, Enrolment>)
      ensures View() == State(networks, devices, accounts, enrolled, map[], {}, map[], map[])
    {
      this.networks, this.devices, this.accounts, this.enrolled := networks, devices, accounts, enrolled;
      activeKeys, capable, keyEpochs, revisions := map[], {}, map[], map[];
    }

    method AdvanceKeyEpoch(n: NetworkId)
      modifies this`keyEpochs
      ensures keyEpochs == Bump(old(keyEpochs), n)
    {
      var epoch := if n in keyEpochs then keyEpochs[n] else 0;
      keyEpochs := keyEpochs[n := epoch + 1];
    }

    method AdvanceRevision(n: NetworkId)
      modifies this`revisions
      ensures revisions == Bump(old(revisions), n)
    {
      var revision := if n in revisions then revisions[n] else 0;
      revisions := revisions[n := revision + 1];
    }

    method RecordDevice(d: DeviceId)
      modifies this`devices
      ensures View() == Recorded(old(View()), d)
    {
      devices := devices + {d};
    }

    /** Advances the revision of every network of the device, and the epoch of those it owns. */
    method Announce(actor: DeviceId)
      modifies this`keyEpochs, this`revisions
      ensures keyEpochs == BumpAll(old(keyEpochs), Owned(old(View()), actor))
      ensures revisions == BumpAll(old(revisions), NetworksOf(old(View()), actor))
    {
      hide Bump, BumpAll, NetworksOf, OwnedAmong;
      var todo := NetworksOf(View(), actor);
      ghost var done: set<NetworkId> := {};
      OwnedAmongGrows(networks, actor, {}, ZERO_NETWORK);
      BumpNone(keyEpochs);
      BumpNone(revisions);
      while todo != {}
        invariant todo !! done && todo + done == NetworksOf(old(View()), actor)
        invariant keyEpochs == BumpAll(old(keyEpochs), OwnedAmong(networks, actor, done))
        invariant revisions == BumpAll(old(revisions), done)
        decreases |todo|
      {
        var n :| n in todo;
        NetworksOfExist(old(View()), actor);
        OwnedAmongGrows(networks, actor, done, n);
        if networks[n].owner == actor {
          BumpNext(old(keyEpochs), OwnedAmong(networks, actor, done), n);
          AdvanceKeyEpoch(n);
        }
        BumpNext(old(revisions), done, n);
        AdvanceRevision(n);
        todo, done := todo - {n}, done + {n};
      }
      OwnedAmongAll(old(View()), actor);
    }

    method PublishKey(actor: DeviceId, key: ActiveKey) returns (ok: bool)
      modifies this
      ensures View() == PublishDeviceKey(old(View()), actor, key)
      ensures ok <==> !Revoked(old(View()), actor)
    {
      hide BumpAll, Owned, NetworksOf;
      RecordDevice(actor);
      if Revoked(View(), actor) {
        return false;
      }
      activeKeys := activeKeys[actor := key];
      SameNetworksOf(View(), Recorded(old(View()), actor), actor);
      Announce(actor);
      ok := true;
    }

    method RemoveKey(actor: DeviceId, session: SessionId)
      modifies this
      ensures View() == RemoveDeviceKey(old(View()), actor, session)
    {
      hide BumpAll, Owned, NetworksOf;
      if actor !in activeKeys || activeKeys[actor].session != session {
        return;
      }
      activeKeys, capable := activeKeys - {actor}, capable - {actor};
      SameNetworksOf(View(), old(View()), actor);
      Announce(actor);
    }

    /** Stores a changed network and starts its next epoch. */
    method Replace(n: NetworkId, net: Network)
      modifies this`networks, this`keyEpochs, this`revisions
      ensures View() == Changed(old(View()), n, net)
    {
      networks := networks[n := net];
      AdvanceKeyEpoch(n);
      AdvanceRevision(n);
    }

    method AddMember(n: NetworkId, d: DeviceId) returns (code: Code)
      requires n in networks
      modifies this`networks, this`keyEpochs, this`revisions
      ensures (View(), code) == Joined(old(View()), n, d)
    {
      hide WithMember;
      var net := WithMember(networks[n], d);
      if net.None? {
        return LimitReached;
      }
      Replace(n, net.value);
      code := Done;
    }

    method Join(actor: DeviceId, n: NetworkId, credential: bool) returns (code: Code)
      modifies this
      ensures (View(), code) == JoinNetwork(old(View()), actor, n, credential)
    {
      hide Joined, NetworkLimitReached;
      RecordDevice(actor);
      if n !in networks { return NotFound; }
      var net := networks[n];
      if actor in net.leases { return AlreadyExists; }
      if NetworkLimitReached(View(), actor) { return LimitReached; }
      var invited := actor in net.invited;
      if net.password.Some? && !credential && !invited { return InviteRequired; }
      if invited || (credential && net.password.Some? && !net.password.value) {
        code := AddMember(n, actor);
        return;
      }
      networks := networks[n := net.(pending := net.pending + {actor})];
      code := PendingApproval;
    }

    method Leave(actor: DeviceId, n: NetworkId) returns (code: Code)
      modifies this
      ensures (View(), code) == LeaveNetwork(old(View()), actor, n)
    {
      hide WithoutMember, Exhausted, Changed;
      RecordDevice(actor);
      if n !in networks { return NotFound; }
      if networks[n].owner == actor { return PermissionDenied; }
      if actor !in networks[n].leases { return NotMember; }
      if Exhausted(networks[n].policy, actor) { return Refused; }
      Replace(n, WithoutMember(networks[n], actor));
      code := Done;
    }

    method Approve(actor: DeviceId, n: NetworkId, d: DeviceId) returns (code: Code)
      modifies this
      ensures (View(), code) == ApproveMember(old(View()), actor, n, d)
    {
      hide Joined, NetworkLimitReached, CanManage;
      if d == ZERO_DEVICE { return InvalidRequest; }
      RecordDevice(actor);
      if n !in networks { return NotFound; }
      if !CanManage(View(), n, actor) { return PermissionDenied; }
      if d !in devices { return TargetNotFound; }
      if d in networks[n].leases { return AlreadyExists; }
      if d !in networks[n].pending { return NotFound; }
      if NetworkLimitReached(View(), d) { return LimitReached; }
      code := AddMember(n, d);
    }

    method Kick(actor: DeviceId, n: NetworkId, d: DeviceId) returns (code: Code)
      modifies this
      ensures (View(), code) == KickMember(old(View()), actor, n, d)
    {
      hide WithoutMember, Exhausted, Changed, CanManage, Role;
      if d == ZERO_DEVICE { return InvalidRequest; }
      RecordDevice(actor);
      if n !in networks { return NotFound; }
      if !CanManage(View(), n, actor) { return PermissionDenied; }
      if d !in devices { return TargetNotFound; }
      var net := networks[n];
      if d == net.owner || (actor != net.owner && Role(net.policy, d) == ADMINISTRATOR) { return PermissionDenied; }
      if d !in net.leases { return NotMember; }
      if Exhausted(net.policy, d) { return Refused; }
      Replace(n, WithoutMember(net, d));
      code := Done;
    }

    // ---- Management ----

    method CheckGateways(net: Network, next: NetworkPolicy, action: Action, actor: DeviceId) returns (code: Code)
      ensures code == GatewaysCode(net, next, action, actor, next.gateways)
    {
      hide Present, HasGateway, Role;
      var gs := next.gateways;
      for i := 0 to |gs|
        invariant GatewaysCode(net, next, action, actor, gs) == GatewaysCode(net, next, action, actor, gs[i..])
      {
        assert gs[i..][1..] == gs[i + 1..];
        if !Present(net, gs[i].device) || Role(next, gs[i].device) == RESTRICTED { return TargetNotFound; }
        var requested := HasGateway(net.policy, gs[i].device);
        if !requested && (action != RequestGateway || gs[i].device != actor || gs[i].approved) { return PermissionDenied; }
      }
      code := Done;
    }

    method CheckRoutes(n: NetworkId, routes: seq<Route>) returns (code: Code)
      requires n in networks
      ensures code == RoutesCode(View(), n, routes)
    {
      hide SubnetsOverlap, Present, TakenElsewhere;
      for i := 0 to |routes|
        invariant RoutesCode(View(), n, routes) == RoutesCode(View(), n, routes[i..])
      {
        assert routes[i..][1..] == routes[i + 1..];
        var r := routes[i];
        if SubnetsOverlap(r.address, r.prefix, POOL_FIRST, POOL_PREFIX) { return Conflict; }
        if !Present(networks[n], r.gateway) { return TargetNotFound; }
        if SubnetsOverlap(r.address, r.prefix, networks[n].subnet, SUBNET_PREFIX) { return Conflict; }
        var taken := IsTaken(n, r);
        if taken { return Conflict; }
      }
      code := Done;
    }

    /** The routes of every other network in turn. */
    method IsTaken(n: NetworkId, r: Route) returns (taken: bool)
      ensures taken <==> TakenElsewhere(View(), n, r)
    {
      hide OverlapsAny;
      var all := networks;
      var todo := all.Keys;
      while todo != {}
        invariant todo <= all.Keys
        invariant forall m :: m in all.Keys - todo && m != n ==> !OverlapsAny(r, all[m].policy.routes)
        decreases |todo|
      {
        var m :| m in todo;
        if m != n {
          var overlaps := OverlapsOne(r, all[m].policy.routes);
          if overlaps { return true; }
        }
        todo := todo - {m};
      }
      taken := false;
    }

    static method OverlapsOne(r: Route, routes: seq<Route>) returns (overlaps: bool)
      ensures overlaps <==> OverlapsAny(r, routes)
    {
      hide SubnetsOverlap;
      for i := 0 to |routes|
        invariant forall k :: 0 <= k < i ==> !SubnetsOverlap(r.address, r.prefix, routes[k].address, routes[k].prefix)
      {
        if SubnetsOverlap(r.address, r.prefix, routes[i].address, routes[i].prefix) { return true; }
      }
      overlaps := false;
    }

    static method CheckSubjects(net: Network, p: NetworkPolicy) returns (ok: bool)
      ensures ok <==> SubjectsPresent(net, p)
    {
      for i := 0 to |p.hubs|
        invariant forall k :: 0 <= k < i ==> Present(net, p.hubs[k])
      {
        if !Present(net, p.hubs[i]) { return false; }
      }
      for i := 0 to |p.rules|
        invariant forall k :: 0 <= k < i ==> Present(net, p.rules[k].first.device) && Present(net, p.rules[k].second.device)
      {
        if !Present(net, p.rules[i].first.device) || !Present(net, p.rules[i].second.device) { return false; }
      }
      ok := true;
    }

    method CheckAssignments(net: Network, next: NetworkPolicy) returns (ok: bool)
      ensures ok <==> AssignmentsValid(View(), net, next)
    {
      for i := 0 to |next.members|
        invariant forall k :: 0 <= k < i ==>
          var m := next.members[k];
          (Present(net, m.device) || (m.role == RESTRICTED && m.device in devices)) && (m.device == net.owner ==> m.role == MEMBER)
      {
        var m := next.members[i];
        if (!Present(net, m.device) && !(m.role == RESTRICTED && m.device in devices)) || (m.device == net.owner && m.role != MEMBER) {
          return false;
        }
      }
      ok := true;
    }

    /** Every listed role, new or old, has to agree with the other policy. */
    static method CheckRoles(p: NetworkPolicy, next: NetworkPolicy) returns (ok: bool)
      ensures ok <==> RolesKept(p, next)
    {
      hide Role;
      for i := 0 to |next.members|
        invariant forall k :: 0 <= k < i ==> next.members[k].role == Role(p, next.members[k].device)
      {
        if next.members[i].role != Role(p, next.members[i].device) { return false; }
      }
      for i := 0 to |p.members|
        invariant forall k :: 0 <= k < i ==> p.members[k].role == Role(next, p.members[k].device)
      {
        if p.members[i].role != Role(next, p.members[i].device) { return false; }
      }
      ok := true;
    }

    method Manage(actor: DeviceId, n: NetworkId, action: Action, q: NetworkPolicy) returns (code: Code)
      modifies this
      ensures (View(), code) == ManageNetwork(old(View()), actor, n, action, q)
    {
      hide Acceptable, Role, HasGateway, CanManage, SubjectsPresent, GatewaysCode, AssignmentsValid, RolesKept, RoutesCode, Changed;
      var acceptable := CheckPolicy(q);
      if !acceptable { return Refused; }
      if n !in networks { return NotFound; }
      var net := networks[n];
      if Revoked(View(), actor) || actor !in net.leases { return NotMember; }
      if action == Inspect { return Done; }
      if actor !in capable { return PermissionDenied; }
      var p, next := net.policy, q;
      if action == RequestGateway {
        if !p.managed || Role(p, actor) == RESTRICTED { return PermissionDenied; }
        if q.revision != p.revision { return Conflict; }
        if HasGateway(p, actor) { return AlreadyExists; }
        if |p.gateways| >= 16 { return LimitReached; }
        next := p.(gateways := p.gateways + [Gateway(actor, false)]);
      } else if !CanManage(View(), n, actor) {
        return PermissionDenied;
      }
      if next.topology == HUB_SPOKE && next.hubs == [] { return InvalidRequest; }
      var present := CheckSubjects(net, q);
      if !present { return TargetNotFound; }
      code := CheckGateways(net, next, action, actor);
      if code != Done { return; }
      var valid := CheckAssignments(net, next);
      if !valid { return InvalidRequest; }
      if actor != net.owner && action == ReplacePolicy {
        if !next.managed { return PermissionDenied; }
        var kept := CheckRoles(p, next);
        if !kept { return PermissionDenied; }
      }
      code := CheckRoutes(n, next.routes);
      if code != Done { return; }
      if next.revision != p.revision || next.revision == MAX_U64 { return Conflict; }
      Replace(n, net.(policy := next.(revision := next.revision + 1)));
    }

    // ---- Revocation ----

    method RevokeTarget(actor: DeviceId, target: DeviceId) returns (code: Code)
      modifies this
      ensures (View(), code) == RevokeDevice(old(View()), actor, target)
    {
      hide Exhausted, WithoutMember, BumpAll, NetworksOf, LeftAll;
      RecordDevice(actor);
      var account := AccountOf(View(), actor);
      if account.None? || account.value !in accounts || accounts[account.value] != actor
         || AccountOf(View(), target) != account || target == actor {
        return PermissionDenied;
      }
      var left := NetworksOf(View(), target);
      NetworksOfExist(View(), target);
      if exists n | n in left :: networks[n].owner == target { return Conflict; }
      if exists n | n in left :: Exhausted(networks[n].policy, target) { return Refused; }
      ghost var s := View();
      if target !in accounts.Values {
        enrolled := enrolled[target := enrolled[target].(revoked := true)];
      }
      SameNetworksOf(s, View(), target);
      SameLeftAll(s, View(), target);
      LeaveAll(target);
      activeKeys := activeKeys - {target};
      code := Done;
    }

    method LeaveAll(target: DeviceId)
      requires forall n | n in NetworksOf(View(), target) :: !Exhausted(networks[n].policy, target)
      modifies this`networks, this`keyEpochs, this`revisions
      ensures networks == LeftAll(old(View()), target)
      ensures keyEpochs == BumpAll(old(keyEpochs), NetworksOf(old(View()), target))
      ensures revisions == BumpAll(old(revisions), NetworksOf(old(View()), target))
    {
      hide Exhausted, WithoutMember, BumpAll, Bump, NetworksOf, LeftAmong, LeftAll;
      ghost var s := View();
      var todo := NetworksOf(View(), target);
      ghost var done: set<NetworkId> := {};
      BumpNone(keyEpochs);
      BumpNone(revisions);
      LeftAmongGrows(s, target, {}, ZERO_NETWORK);
      while todo != {}
        invariant todo !! done && todo + done == NetworksOf(s, target)
        invariant networks == LeftAmong(s, target, done)
        invariant keyEpochs == BumpAll(s.keyEpochs, done) && revisions == BumpAll(s.revisions, done)
        decreases |todo|
      {
        var n :| n in todo;
        LeftAmongGrows(s, target, done, n);
        BumpNext(s.keyEpochs, done, n);
        BumpNext(s.revisions, done, n);
        networks := networks[n := WithoutMember(networks[n], target)];
        AdvanceKeyEpoch(n);
        AdvanceRevision(n);
        todo, done := todo - {n}, done + {n};
      }
      LeftAmongAll(s, target);
    }

    // ---- Envelopes and packets ----

    method PublishKeys(actor: DeviceId, es: seq<Envelope>) returns (code: Code)
      ensures code == PublishNetworkKeys(View(), actor, es)
    {
      hide EpochOf;
      if actor == ZERO_DEVICE || es == [] || |es| > MAX_PEERS { return InvalidRequest; }
      var n := es[0].network;
      if n !in networks { return NotFound; }
      var managed := networks[n].policy.managed;
      if managed && actor !in capable { return PermissionDenied; }
      if networks[n].owner != actor || actor !in activeKeys { return PermissionDenied; }
      var recipients: set<DeviceId> := {};
      for i := 0 to |es|
        invariant EnvelopesCode(View(), n, actor, {}, es) == EnvelopesCode(View(), n, actor, recipients, es[i..])
      {
        var e := es[i];
        assert es[i..][1..] == es[i + 1..];
        if e.network != n || e.owner != actor || e.recipient == actor || e.recipient in recipients
           || activeKeys[actor].key != e.ownerKey || !e.signed {
          return InvalidRequest;
        }
        recipients := recipients + {e.recipient};
        if e.epoch != EpochOf(View(), n) { return Conflict; }
        if managed && e.recipient !in capable { return PermissionDenied; }
        if e.recipient !in networks[n].leases || e.recipient !in activeKeys || activeKeys[e.recipient].key != e.recipientKey {
          return TargetNotFound;
        }
      }
      code := Done;
    }

    method Route(actor: DeviceId, p: Packet, admitted: bool) returns (recipients: set<DeviceId>)
      ensures recipients == RoutePacket(View(), actor, p, admitted)
    {
      hide EpochOf, Revoked, IsFanout, Reaches;
      recipients := {};
      if actor == ZERO_DEVICE || Revoked(View(), actor) || p.network !in networks
         || p.epoch != EpochOf(View(), p.network) || actor !in activeKeys {
        return;
      }
      var net := networks[p.network];
      if actor !in net.leases || net.leases[actor] == p.destination || !admitted {
        return;
      }
      var fanout := IsFanout(p.destination, net.subnet, SUBNET_PREFIX);
      if fanout && p.size > 1400 {
        return;
      }
      recipients := Collect(actor, p, fanout);
    }

    method Collect(actor: DeviceId, p: Packet, fanout: bool) returns (recipients: set<DeviceId>)
      requires p.network in networks
      ensures recipients == ReachedAmong(View(), actor, p, fanout, networks[p.network].leases.Keys)
    {
      hide Reaches, ReachedAmong;
      recipients := {};
      var s := View();
      var leases := s.networks[p.network].leases.Keys;
      var todo := leases;
      assert leases - todo == {};
      ReachedAmongGrows(s, actor, p, fanout, {}, actor);
      while todo != {}
        invariant todo <= leases && recipients == ReachedAmong(s, actor, p, fanout, leases - todo)
        decreases |todo|
      {
        var d :| d in todo;
        ReachedAmongGrows(s, actor, p, fanout, leases - todo, d);
        assert leases - (todo - {d}) == leases - todo + {d};
        if Reaches(s, actor, p, fanout, d) {
          recipients := recipients + {d};
        }
        todo := todo - {d};
      }
      assert leases - todo == leases;
    }
  }

  ghost function ReachedAmong(s: State, actor: DeviceId, p: Packet, fanout: bool, ds: set<DeviceId>): (r: set<DeviceId>)
    requires p.network in s.networks && ds <= s.networks[p.network].leases.Keys
  {
    set d | d in ds && Reaches(s, actor, p, fanout, d)
  }

  lemma ReachedAmongGrows(s: State, actor: DeviceId, p: Packet, fanout: bool, ds: set<DeviceId>, d: DeviceId)
    requires p.network in s.networks && ds <= s.networks[p.network].leases.Keys
    ensures ReachedAmong(s, actor, p, fanout, {}) == {}
    ensures d in s.networks[p.network].leases ==>
      ReachedAmong(s, actor, p, fanout, ds + {d}) == ReachedAmong(s, actor, p, fanout, ds) + (if Reaches(s, actor, p, fanout, d) then {d} else {})
  {
    hide Reaches;
  }

  /** The networks once the device has left those in `done`. */
  ghost function LeftAmong(s: State, d: DeviceId, done: set<NetworkId>): (r: map<NetworkId, Network>)
    requires forall n | n in NetworksOf(s, d) :: !Exhausted(s.networks[n].policy, d)
    requires done <= NetworksOf(s, d)
  {
    map n | n in s.networks :: if n in done then WithoutMember(s.networks[n], d) else s.networks[n]
  }

  lemma LeftAmongGrows(s: State, d: DeviceId, done: set<NetworkId>, n: NetworkId)
    requires forall n | n in NetworksOf(s, d) :: !Exhausted(s.networks[n].policy, d)
    requires done <= NetworksOf(s, d)
    ensures LeftAmong(s, d, {}) == s.networks
    ensures n in NetworksOf(s, d) - done ==>
      (n in s.networks && n in LeftAmong(s, d, done) && LeftAmong(s, d, done)[n] == s.networks[n]
       && LeftAmong(s, d, done + {n}) == LeftAmong(s, d, done)[n := WithoutMember(s.networks[n], d)])
  {
    hide WithoutMember, Exhausted;
  }

  lemma LeftAmongAll(s: State, d: DeviceId)
    requires forall n | n in NetworksOf(s, d) :: !Exhausted(s.networks[n].policy, d)
    ensures LeftAmong(s, d, NetworksOf(s, d)) == LeftAll(s, d)
  {
    hide WithoutMember, Exhausted;
  }

  lemma SameLeftAll(s: State, t: State, d: DeviceId)
    requires s.networks == t.networks
    requires forall n | n in NetworksOf(s, d) :: !Exhausted(s.networks[n].policy, d)
    ensures LeftAll(s, d) == LeftAll(t, d)
  {
    hide Exhausted, WithoutMember;
    SameNetworksOf(s, t, d);
  }

  lemma SameNetworksOf(s: State, t: State, d: DeviceId)
    requires s.networks == t.networks
    ensures NetworksOf(s, d) == NetworksOf(t, d) && Owned(s, d) == Owned(t, d)
  {
  }
}
