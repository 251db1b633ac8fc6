/**
  * The relay's control plane as a state machine: membership, active keys,
  * revocation, key epochs, policies and routed packets. Each locked method of
  * the service is one step. The store is a set of maps: a lease exists exactly
  * for members, and a refused transaction changes nothing.
  */
module Relay {
  import opened Bytes
  import opened Policy
  import opened PolicyCodec
  import opened Ipv4Fanout

  type AccountId = seq<byte>
  type SessionId = seq<byte>
  type Key = seq<byte>

  const ZERO_NETWORK: NetworkId := [0, 0, 0, 0, 0, 0, 0, 0, 0, 0, 0, 0, 0, 0, 0, 0]

  const POOL_FIRST: nat := 0x0a40_0000
  const POOL_END: nat := 0x0a80_0000

  /** An address of 10.64.0.0/10, where every virtual subnet lies. */
  type PoolAddress = v: int | POOL_FIRST <= v < POOL_END witness POOL_FIRST

  // ---- State ----

  /** `password` holds whether joining with it still needs approval. */
  datatype Network = Network(
    owner: DeviceId, subnet: PoolAddress, leases: map<DeviceId, PoolAddress>, policy: NetworkPolicy,
    invited: set<DeviceId>, pending: set<DeviceId>, password: Option<bool>)

  /** The account a device is enrolled in. */
  datatype Enrolment = Enrolment(account: AccountId, revoked: bool)

  datatype ActiveKey = ActiveKey(session: SessionId, key: Key)

  datatype State = State(
    networks: map<NetworkId, Network>, devices: set<DeviceId>,
    accounts: map<AccountId, DeviceId>, enrolled: map<DeviceId, Enrolment>,
    activeKeys: map<DeviceId, ActiveKey>, capable: set<DeviceId>,
    keyEpochs: map<NetworkId, nat>, revisions: map<NetworkId, nat>)

  datatype Code =
    | Done | PendingApproval | NotFound | AlreadyExists | LimitReached | InviteRequired | Conflict
    | PermissionDenied | NotMember | TargetNotFound | InvalidRequest
    | Refused // an exception: the caller gets an error frame

  const UNMANAGED := NetworkPolicy(0, false, MESH, [], [], [], [], [], [])
  const SUBNET_SIZE: nat := 256
  const SUBNET_PREFIX: byte := 24
  const POOL_PREFIX: byte := 10
  const MAX_NETWORKS: nat := 1024
  const MAX_PEERS: nat := 253
  const MAX_U64: nat := 0xffff_ffff_ffff_ffff

  // ---- Read-only helpers ----

  predicate Revoked(s: State, d: DeviceId)
  {
    d in s.enrolled && s.enrolled[d].revoked
  }

  predicate IsMember(s: State, n: NetworkId, d: DeviceId)
  {
    n in s.networks && d in s.networks[n].leases
  }

  function NetworksOf(s: State, d: DeviceId): (r: set<NetworkId>)
  {
    set n | n in s.networks && d in s.networks[n].leases
  }

  predicate NetworkLimitReached(s: State, d: DeviceId)
  {
    |NetworksOf(s, d)| >= MAX_NETWORKS
  }

  function AccountOf(s: State, d: DeviceId): (a: Option<AccountId>)
  {
    if d in s.enrolled && !s.enrolled[d].revoked then Some(s.enrolled[d].account) else None
  }

  /** A network that has no entry yet is at epoch one. */
  function EpochOf(s: State, n: NetworkId): (e: nat)
  {
    if n in s.keyEpochs then s.keyEpochs[n] else 1
  }

  predicate CanManage(s: State, n: NetworkId, actor: DeviceId)
  {
    && n in s.networks && !Revoked(s, actor)
    && (|| s.networks[n].owner == actor
        || (&& s.networks[n].policy.managed && actor in s.capable && actor in s.networks[n].leases
            && Role(s.networks[n].policy, actor) == ADMINISTRATOR))
  }

  predicate TrafficAllowed(s: State, n: NetworkId, a: DeviceId, b: DeviceId, fanout: bool)
    requires n in s.networks
  {
    var p := s.networks[n].policy;
    && (p.managed ==> a in s.capable && b in s.capable)
    && (if fanout then FanoutAllowed(p, a, b) else PairAllowed(p, a, b))
  }

  // ---- Parts of steps ----

  function Recorded(s: State, d: DeviceId): (r: State)
  {
    s.(devices := s.devices + {d})
  }

  /** A new entry starts from zero, so the first advance gives one, which is also the default. */
  function Bump(m: map<NetworkId, nat>, n: NetworkId): (r: map<NetworkId, nat>)
  {
    m[n := if n in m then m[n] + 1 else 1]
  }

  function BumpAll(m: map<NetworkId, nat>, ns: set<NetworkId>): (r: map<NetworkId, nat>)
  {
    map n | n in m.Keys + ns :: if n !in ns then m[n] else if n in m then m[n] + 1 else 1
  }

  /** The new key epoch and the new revision of the peer state that follow every change of a network. */
  function Changed(s: State, n: NetworkId, net: Network): (r: State)
  {
    s.(networks := s.networks[n := net], keyEpochs := Bump(s.keyEpochs, n), revisions := Bump(s.revisions, n))
  }

  function FirstFree(used: set<PoolAddress>, candidate: nat, step: nat, limit: nat): (r: Option<PoolAddress>)
    requires step > 0 && POOL_FIRST <= candidate && limit <= POOL_END
    ensures r.Some? ==> candidate <= r.value < limit && r.value !in used
    decreases limit - candidate
  {
    if candidate >= limit then None
    else if candidate !in used then Some(candidate)
    else FirstFree(used, candidate + step, step, limit)
  }

  /** A member gets the first free host address; its invitation and join request go. */
  function WithMember(net: Network, d: DeviceId): (r: Option<Network>)
  {
    var limit := net.subnet + SUBNET_SIZE - 1;
    var address := FirstFree(net.leases.Values, net.subnet + 1, 1, if limit <= POOL_END then limit else POOL_END);
    if address.None? then None
    else Some(net.(leases := net.leases[d := address.value], invited := net.invited - {d}, pending := net.pending - {d}))
  }

  function Keep<T(!new)>(xs: seq<T>, keep: T -> bool): (r: seq<T>)
    ensures forall x :: x in r <==> x in xs && keep(x)
  {
    if xs == [] then [] else (if keep(xs[0]) then [xs[0]] else []) + Keep(xs[1..], keep)
  }

  function OtherDevice(d: DeviceId): DeviceId -> bool { (h: DeviceId) => h != d }
  function OtherMember(d: DeviceId): Member -> bool { (m: Member) => m.device != d || m.role == RESTRICTED }
  function OtherGateway(d: DeviceId): Gateway -> bool { (g: Gateway) => g.device != d }
  function OtherRoute(d: DeviceId): Route -> bool { (r: Route) => r.gateway != d }
  function OtherRule(d: DeviceId): Rule -> bool { (r: Rule) => r.first.device != d && r.second.device != d }

  /** Everything a policy says about a device, except that it is restricted, goes with its membership. */
  function Without(p: NetworkPolicy, d: DeviceId): (r: NetworkPolicy)
  {
    p.(hubs := Keep(p.hubs, OtherDevice(d)), members := Keep(p.members, OtherMember(d)),
       gateways := Keep(p.gateways, OtherGateway(d)), routes := Keep(p.routes, OtherRoute(d)),
       rules := Keep(p.rules, OtherRule(d)))
  }

  predicate Exhausted(p: NetworkPolicy, d: DeviceId)
  {
    Without(p, d) != p && p.revision == MAX_U64
  }

  function WithoutMember(net: Network, d: DeviceId): (r: Network)
    requires !Exhausted(net.policy, d)
  {
    var p := Without(net.policy, d);
    net.(leases := net.leases - {d}, policy := if p == net.policy then p else p.(revision := p.revision + 1))
  }

  // ---- Keys and sessions ----

  function SetCapable(s: State, actor: DeviceId, capable: bool): (r: State)
  {
    var managed := set n | n in NetworksOf(s, actor) && s.networks[n].policy.managed;
    s.(capable := if capable then s.capable + {actor} else s.capable - {actor}, revisions := BumpAll(s.revisions, managed))
  }

  function Owned(s: State, d: DeviceId): (r: set<NetworkId>)
  {
    set n | n in NetworksOf(s, d) && s.networks[n].owner == d
  }

  function PublishDeviceKey(s: State, actor: DeviceId, key: ActiveKey): (r: State)
  {
    var s := Recorded(s, actor);
    if Revoked(s, actor) then s
    else s.(activeKeys := s.activeKeys[actor := key], keyEpochs := BumpAll(s.keyEpochs, Owned(s, actor)),
            revisions := BumpAll(s.revisions, NetworksOf(s, actor)))
  }

  function RemoveDeviceKey(s: State, actor: DeviceId, session: SessionId): (r: State)
  {
    if actor !in s.activeKeys || s.activeKeys[actor].session != session then s
    else s.(activeKeys := s.activeKeys - {actor}, capable := s.capable - {actor},
            keyEpochs := BumpAll(s.keyEpochs, Owned(s, actor)), revisions := BumpAll(s.revisions, NetworksOf(s, actor)))
  }

  // ---- Membership ----

  function UsedSubnets(s: State): (used: set<PoolAddress>)
  {
    set n | n in s.networks :: s.networks[n].subnet
  }

  function CreateNetwork(s: State, actor: DeviceId, id: NetworkId, password: Option<bool>): (r: (State, Code))
  {
    var s := Recorded(s, actor);
    if NetworkLimitReached(s, actor) then (s, LimitReached)
    else if id == ZERO_NETWORK || id in s.networks then (s, Conflict)
    else
      var subnet := FirstFree(UsedSubnets(s), POOL_FIRST, SUBNET_SIZE, POOL_END);
      if subnet.None? then (s, LimitReached)
      else
        var net := WithMember(Network(actor, subnet.value, map[], UNMANAGED, {}, {}, password), actor);
        if net.None? then (s, LimitReached) else (Changed(s, id, net.value), Done)
  }

  function Joined(s: State, n: NetworkId, d: DeviceId): (r: (State, Code))
    requires n in s.networks
  {
    var net := WithMember(s.networks[n], d);
    if net.None? then (s, LimitReached) else (Changed(s, n, net.value), Done)
  }

  function JoinNetwork(s: State, actor: DeviceId, n: NetworkId, credential: bool): (r: (State, Code))
  {
    var s := Recorded(s, actor);
    if n !in s.networks then (s, NotFound)
    else
      var net := s.networks[n];
      if actor in net.leases then (s, AlreadyExists)
      else if NetworkLimitReached(s, actor) then (s, LimitReached)
      else if net.password.Some? && !credential && actor !in net.invited then (s, InviteRequired)
      else if actor in net.invited || (credential && net.password == Some(false)) then Joined(s, n, actor)
      else (s.(networks := s.networks[n := net.(pending := net.pending + {actor})]), PendingApproval)
  }

  function LeaveNetwork(s: State, actor: DeviceId, n: NetworkId): (r: (State, Code))
  {
    var s := Recorded(s, actor);
    if n !in s.networks then (s, NotFound)
    else if s.networks[n].owner == actor then (s, PermissionDenied)
    else if actor !in s.networks[n].leases then (s, NotMember)
    else if Exhausted(s.networks[n].policy, actor) then (s, Refused)
    else (Changed(s, n, WithoutMember(s.networks[n], actor)), Done)
  }

  function InviteMember(s: State, actor: DeviceId, n: NetworkId, d: DeviceId): (r: (State, Code))
  {
    if d == ZERO_DEVICE then (s, InvalidRequest)
    else
      var s := Recorded(s, actor);
      if n !in s.networks then (s, NotFound)
      else if !CanManage(s, n, actor) then (s, PermissionDenied)
      else if d !in s.devices then (s, TargetNotFound)
      else
        var net := s.networks[n];
        if d in net.leases || d in net.invited then (s, AlreadyExists)
        else if d in net.pending then (s, Conflict)
        else if NetworkLimitReached(s, d) then (s, LimitReached)
        else (s.(networks := s.networks[n := net.(invited := net.invited + {d})]), Done)
  }

  function ApproveMember(s: State, actor: DeviceId, n: NetworkId, d: DeviceId): (r: (State, Code))
  {
    if d == ZERO_DEVICE then (s, InvalidRequest)
    else
      var s := Recorded(s, actor);
      if n !in s.networks then (s, NotFound)
      else if !CanManage(s, n, actor) then (s, PermissionDenied)
      else if d !in s.devices then (s, TargetNotFound)
      else if d in s.networks[n].leases then (s, AlreadyExists)
      else if d !in s.networks[n].pending then (s, NotFound)
      else if NetworkLimitReached(s, d) then (s, LimitReached)
      else Joined(s, n, d)
  }

  function KickMember(s: State, actor: DeviceId, n: NetworkId, d: DeviceId): (r: (State, Code))
  {
    if d == ZERO_DEVICE then (s, InvalidRequest)
    else
      var s := Recorded(s, actor);
      if n !in s.networks then (s, NotFound)
      else if !CanManage(s, n, actor) then (s, PermissionDenied)
      else if d !in s.devices then (s, TargetNotFound)
      else
        var net := s.networks[n];
        if d == net.owner || (actor != net.owner && Role(net.policy, d) == ADMINISTRATOR) then (s, PermissionDenied)
        else if d !in net.leases then (s, NotMember)
        else if Exhausted(net.policy, d) then (s, Refused)
        else (Changed(s, n, WithoutMember(net, d)), Done)
  }

  // ---- Management ----

  datatype Action = Inspect | ReplacePolicy | RequestGateway

  /** A zero device stands for everyone and is never missing. */
  predicate Present(net: Network, d: DeviceId)
  {
    d == ZERO_DEVICE || d in net.leases
  }

  predicate HasGateway(p: NetworkPolicy, d: DeviceId)
  {
    exists i :: 0 <= i < |p.gateways| && p.gateways[i].device == d
  }

  predicate SubjectsPresent(net: Network, p: NetworkPolicy)
  {
    && (forall i :: 0 <= i < |p.hubs| ==> Present(net, p.hubs[i]))
    && (forall i :: 0 <= i < |p.rules| ==> Present(net, p.rules[i].first.device) && Present(net, p.rules[i].second.device))
  }

  /** The first gateway that is not acceptable decides the answer. */
  function GatewaysCode(net: Network, next: NetworkPolicy, action: Action, actor: DeviceId, gs: seq<Gateway>): (c: Code)
  {
    if gs == [] then Done
    else if !Present(net, gs[0].device) || Role(next, gs[0].device) == RESTRICTED then TargetNotFound
    else if !HasGateway(net.policy, gs[0].device) && !(action == RequestGateway && gs[0].device == actor && !gs[0].approved) then PermissionDenied
    else GatewaysCode(net, next, action, actor, gs[1..])
  }

  /** Only members are listed, or restricted devices the relay knows; the owner keeps the plain role. */
  predicate AssignmentsValid(s: State, net: Network, next: NetworkPolicy)
  {
    forall i :: 0 <= i < |next.members| ==>
      var m := next.members[i];
      (Present(net, m.device) || (m.role == RESTRICTED && m.device in s.devices)) && (m.device == net.owner ==> m.role == MEMBER)
  }

  predicate RolesKept(old_: NetworkPolicy, next: NetworkPolicy)
  {
    && (forall i :: 0 <= i < |next.members| ==> next.members[i].role == Role(old_, next.members[i].device))
    && (forall i :: 0 <= i < |old_.members| ==> old_.members[i].role == Role(next, old_.members[i].device))
  }

  predicate OverlapsAny(r: Route, routes: seq<Route>)
  {
    exists i :: 0 <= i < |routes| && SubnetsOverlap(r.address, r.prefix, routes[i].address, routes[i].prefix)
  }

  predicate TakenElsewhere(s: State, n: NetworkId, r: Route)
  {
    exists m | m in s.networks && m != n :: OverlapsAny(r, s.networks[m].policy.routes)
  }

  function RoutesCode(s: State, n: NetworkId, routes: seq<Route>): (c: Code)
    requires n in s.networks
  {
    if routes == [] then Done
    else
      var r := routes[0];
      if SubnetsOverlap(r.address, r.prefix, POOL_FIRST, POOL_PREFIX) then Conflict
      else if !Present(s.networks[n], r.gateway) then TargetNotFound
      else if SubnetsOverlap(r.address, r.prefix, s.networks[n].subnet, SUBNET_PREFIX) then Conflict
      else if TakenElsewhere(s, n, r) then Conflict
      else RoutesCode(s, n, routes[1..])
  }

  /** The policy a request would store, before its revision is raised. */
  function Proposed(net: Network, actor: DeviceId, action: Action, q: NetworkPolicy): (p: NetworkPolicy)
  {
    if action == RequestGateway then net.policy.(gateways := net.policy.gateways + [Gateway(actor, false)]) else q
  }

  function ManageCode(s: State, actor: DeviceId, n: NetworkId, action: Action, q: NetworkPolicy): (c: Code)
  {
    if !Acceptable(q) then Refused
    else if n !in s.networks then NotFound
    else
      var net := s.networks[n];
      var p, next := net.policy, Proposed(net, actor, action, q);
      if Revoked(s, actor) || actor !in net.leases then NotMember
      else if action == Inspect then Done
      else if actor !in s.capable then PermissionDenied
      else if action == RequestGateway && (!p.managed || Role(p, actor) == RESTRICTED) then PermissionDenied
      else if action == RequestGateway && q.revision != p.revision then Conflict
      else if action == RequestGateway && HasGateway(p, actor) then AlreadyExists
      else if action == RequestGateway && |p.gateways| >= 16 then LimitReached
      else if action == ReplacePolicy && !CanManage(s, n, actor) then PermissionDenied
      else if next.topology == HUB_SPOKE && next.hubs == [] then InvalidRequest
      else if !SubjectsPresent(net, q) then TargetNotFound
      else if GatewaysCode(net, next, action, actor, next.gateways) != Done then GatewaysCode(net, next, action, actor, next.gateways)
      else if !AssignmentsValid(s, net, next) then InvalidRequest
      else if actor != net.owner && action == ReplacePolicy && (!next.managed || !RolesKept(p, next)) then PermissionDenied
      else if RoutesCode(s, n, next.routes) != Done then RoutesCode(s, n, next.routes)
      else if next.revision != p.revision || next.revision == MAX_U64 then Conflict
      else Done
  }

  function ManageNetwork(s: State, actor: DeviceId, n: NetworkId, action: Action, q: NetworkPolicy): (r: (State, Code))
  {
    var code := ManageCode(s, actor, n, action, q);
    if code != Done || action == Inspect then (s, code)
    else
      var net := s.networks[n];
      var next := Proposed(net, actor, action, q);
      (Changed(s, n, net.(policy := next.(revision := next.revision + 1))), Done)
  }

  // ---- Accounts and credentials ----

  /** `valid` says whether the store holds the code; `account` is the one it was issued for. */
  function EnrolDevice(s: State, actor: DeviceId, account: AccountId, valid: bool): (r: (State, Code))
  {
    var s := Recorded(s, actor);
    if !valid || account !in s.accounts then (s, PermissionDenied)
    else if actor in s.enrolled && (s.enrolled[actor].account != account || !s.enrolled[actor].revoked) then (s, PermissionDenied)
    else if |set d | d in s.enrolled && s.enrolled[d].account == account| >= 64 then (s, PermissionDenied)
    else (s.(enrolled := s.enrolled[actor := Enrolment(account, false)]), Done)
  }

  function CreateAccount(s: State, actor: DeviceId, account: AccountId): (r: (State, Code))
  {
    var s := Recorded(s, actor);
    if AccountOf(s, actor).Some? then (s, AlreadyExists)
    else if account in s.accounts || actor in s.accounts.Values || actor in s.enrolled then (s, Refused)
    else (s.(accounts := s.accounts[account := actor], enrolled := s.enrolled[actor := Enrolment(account, false)]), Done)
  }

  /** The networks of a revoked device after it left each of them. */
  function LeftAll(s: State, d: DeviceId): (r: map<NetworkId, Network>)
    requires forall n | n in NetworksOf(s, d) :: !Exhausted(s.networks[n].policy, d)
  {
    map n | n in s.networks :: if n in NetworksOf(s, d) then WithoutMember(s.networks[n], d) else s.networks[n]
  }

  function RevokeDevice(s: State, actor: DeviceId, target: DeviceId): (r: (State, Code))
  {
    var s := Recorded(s, actor);
    var account := AccountOf(s, actor);
    if account.None? || account.value !in s.accounts || s.accounts[account.value] != actor
       || AccountOf(s, target) != account || target == actor then (s, PermissionDenied)
    else if exists n | n in NetworksOf(s, target) :: s.networks[n].owner == target then (s, Conflict)
    else if exists n | n in NetworksOf(s, target) :: Exhausted(s.networks[n].policy, target) then (s, Refused)
    else
      var enrolled := if target in s.accounts.Values then s.enrolled else s.enrolled[target := s.enrolled[target].(revoked := true)];
      var left := NetworksOf(s, target);
      (s.(networks := LeftAll(s, target), enrolled := enrolled, activeKeys := s.activeKeys - {target},
          keyEpochs := BumpAll(s.keyEpochs, left), revisions := BumpAll(s.revisions, left)), Done)
  }

  function SetPassword(s: State, actor: DeviceId, n: NetworkId, password: Option<bool>): (r: (State, Code))
  {
    var s := Recorded(s, actor);
    if n !in s.networks || !CanManage(s, n, actor) then (s, PermissionDenied)
    else (s.(networks := s.networks[n := s.networks[n].(password := password)]), Done)
  }

  function JoinWithPassword(s: State, actor: DeviceId, n: NetworkId, matches: bool): (r: (State, Code))
  {
    var s := Recorded(s, actor);
    if n !in s.networks || s.networks[n].password.None? || !matches then (s, PermissionDenied)
    else JoinNetwork(s, actor, n, true)
  }

  /** A redeemed link turns a pending request into an invitation, which the join then uses. */
  function RedeemInvite(s: State, actor: DeviceId, n: NetworkId, valid: bool): (r: (State, Code))
  {
    var s := Recorded(s, actor);
    if n !in s.networks then (s, PermissionDenied)
    else
      var net := s.networks[n];
      if actor in net.leases then (s, AlreadyExists)
      else if NetworkLimitReached(s, actor) || |net.leases| >= MAX_PEERS + 1 then (s, LimitReached)
      else if !valid then (s, PermissionDenied)
      else
        var granted := net.(pending := net.pending - {actor}, invited := net.invited + {actor});
        JoinNetwork(s.(networks := s.networks[n := granted]), actor, n, false)
  }

  // ---- Key envelopes and packets ----

  datatype Envelope = Envelope(network: NetworkId, owner: DeviceId, recipient: DeviceId, epoch: nat,
                               ownerKey: Key, recipientKey: Key, signed: bool)

  function EnvelopesCode(s: State, n: NetworkId, actor: DeviceId, seen: set<DeviceId>, es: seq<Envelope>): (c: Code)
    requires n in s.networks && actor in s.activeKeys
    decreases |es|
  {
    if es == [] then Done
    else
      var e := es[0];
      if e.network != n || e.owner != actor || e.recipient == actor || e.recipient in seen
         || s.activeKeys[actor].key != e.ownerKey || !e.signed then InvalidRequest
      else if e.epoch != EpochOf(s, n) then Conflict
      else if s.networks[n].policy.managed && e.recipient !in s.capable then PermissionDenied
      else if e.recipient !in s.networks[n].leases || e.recipient !in s.activeKeys || s.activeKeys[e.recipient].key != e.recipientKey then TargetNotFound
      else EnvelopesCode(s, n, actor, seen + {e.recipient}, es[1..])
  }

  function PublishNetworkKeys(s: State, actor: DeviceId, es: seq<Envelope>): (c: Code)
  {
    if actor == ZERO_DEVICE || es == [] || |es| > MAX_PEERS then InvalidRequest
    else
      var n := es[0].network;
      if n !in s.networks then NotFound
      else if s.networks[n].policy.managed && actor !in s.capable then PermissionDenied
      else if s.networks[n].owner != actor || actor !in s.activeKeys then PermissionDenied
      else EnvelopesCode(s, n, actor, {}, es)
  }

  datatype Packet = Packet(network: NetworkId, epoch: nat, destination: u32, size: nat)

  /** `admitted` stands for the replay window of fan-out packets and the quotas. */
  function RoutePacket(s: State, actor: DeviceId, p: Packet, admitted: bool): (recipients: set<DeviceId>)
  {
    if actor == ZERO_DEVICE || Revoked(s, actor) || p.network !in s.networks
       || p.epoch != EpochOf(s, p.network) || actor !in s.activeKeys then {}
    else
      var net := s.networks[p.network];
      if actor !in net.leases || net.leases[actor] == p.destination || !admitted then {}
      else
        var fanout := IsFanout(p.destination, net.subnet, SUBNET_PREFIX);
        if fanout && p.size > 1400 then {} else set d | d in net.leases && Reaches(s, actor, p, fanout, d)
  }

  /** A fan-out packet is for every other member, a unicast one for the holder of the address. */
  predicate Reaches(s: State, actor: DeviceId, p: Packet, fanout: bool, d: DeviceId)
    requires p.network in s.networks && d in s.networks[p.network].leases
  {
    && (if fanout then d != actor else s.networks[p.network].leases[d] == p.destination)
    && d in s.activeKeys && TrafficAllowed(s, p.network, actor, d, fanout)
  }
}
