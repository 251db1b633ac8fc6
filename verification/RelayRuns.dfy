/**
  * Every run of the relay: what each event does to each network, the
  * invariant all events keep, and what follows for key epochs, routed
  * subnets, policies, revoked devices and removed members.
  */
module RelayRuns {
  import opened Bytes
  import opened Policy
  import opened PolicyCodec
  import opened Relay
  import opened RelayPolicies

  datatype Event =
    | Authenticated(actor: DeviceId, key: ActiveKey, valid: bool)
    | Disconnected(actor: DeviceId, session: SessionId)
    | Negotiated(actor: DeviceId, supported: bool)
    | Create(actor: DeviceId, id: NetworkId, password: Option<bool>)
    | Join(actor: DeviceId, network: NetworkId)
    | Leave(actor: DeviceId, network: NetworkId)
    | Invite(actor: DeviceId, network: NetworkId, device: DeviceId)
    | Approve(actor: DeviceId, network: NetworkId, device: DeviceId)
    | Kick(actor: DeviceId, network: NetworkId, device: DeviceId)
    | Manage(actor: DeviceId, network: NetworkId, action: Action, policy: NetworkPolicy)
    | OpenAccount(actor: DeviceId, account: AccountId)
    | Enrol(actor: DeviceId, account: AccountId, valid: bool)
    | Revoke(actor: DeviceId, device: DeviceId)
    | ChangePassword(actor: DeviceId, network: NetworkId, password: Option<bool>)
    | PasswordJoin(actor: DeviceId, network: NetworkId, matches: bool)
    | Redeem(actor: DeviceId, network: NetworkId, valid: bool)
    | PublishKeys(actor: DeviceId, envelopes: seq<Envelope>)
    | Send(actor: DeviceId, packet: Packet, admitted: bool)

  datatype Outcome = Outcome(state: State, code: Code, recipients: set<DeviceId>)

  /** Answers a control request of an allowed device. */
  function Handle(s: State, e: Event): (r: (State, Code))
  {
    match e
    case Negotiated(a, supported) => (SetCapable(s, a, supported), Done)
    case Create(a, id, password) => CreateNetwork(s, a, id, password)
    case Join(a, n) => JoinNetwork(s, a, n, false)
    case Leave(a, n) => LeaveNetwork(s, a, n)
    case Invite(a, n, d) => InviteMember(s, a, n, d)
    case Approve(a, n, d) => ApproveMember(s, a, n, d)
    case Kick(a, n, d) => KickMember(s, a, n, d)
    case Manage(a, n, action, p) => ManageNetwork(s, a, n, action, p)
    case OpenAccount(a, account) => CreateAccount(s, a, account)
    case Enrol(a, account, valid) => EnrolDevice(s, a, account, valid)
    case Revoke(a, d) => RevokeDevice(s, a, d)
    case ChangePassword(a, n, password) => SetPassword(s, a, n, password)
    case PasswordJoin(a, n, matches) => JoinWithPassword(s, a, n, matches)
    case Redeem(a, n, valid) => RedeemInvite(s, a, n, valid)
    case PublishKeys(a, es) => (s, PublishNetworkKeys(s, a, es))
    case _ => (s, Refused)
  }

  /** Requests of revoked devices and of nobody are turned away before they reach the service. */
  function Step(s: State, e: Event): (r: Outcome)
  {
    match e
    case Authenticated(a, key, valid) =>
      if a == ZERO_DEVICE then Outcome(s, Refused, {})
      else
        var quiet := SetCapable(s, a, false);
        if !valid then Outcome(quiet, Refused, {}) else Outcome(PublishDeviceKey(quiet, a, key), Done, {})
    case Disconnected(a, session) => Outcome(RemoveDeviceKey(s, a, session), Done, {})
    case Send(a, p, admitted) => Outcome(s, Done, RoutePacket(s, a, p, admitted))
    case _ =>
      if e.actor == ZERO_DEVICE || Revoked(s, e.actor) then Outcome(s, Refused, {})
      else var (t, code) := Handle(s, e); Outcome(t, code, {})
  }

  // ---- What an event does to one network ----

  datatype Change =
    | Untouched
    | Created(owner: DeviceId)
    | Admitted(device: DeviceId)
    | Removed(device: DeviceId)
    | Replaced(actor: DeviceId, action: Action, request: NetworkPolicy)

  function ChangeOf(s: State, e: Event, n: NetworkId): (c: Change)
  {
    ChangeBy(s, e, Step(s, e).code, n)
  }

  /** The change an event makes when it is answered with the code. */
  function ChangeBy(s: State, e: Event, code: Code, n: NetworkId): (c: Change)
  {
    if code != Done then Untouched
    else match e
      case Create(a, id, _) => if id == n then Created(a) else Untouched
      case Join(a, m) => if m == n then Admitted(a) else Untouched
      case PasswordJoin(a, m, _) => if m == n then Admitted(a) else Untouched
      case Redeem(a, m, _) => if m == n then Admitted(a) else Untouched
      case Approve(_, m, d) => if m == n then Admitted(d) else Untouched
      case Leave(a, m) => if m == n then Removed(a) else Untouched
      case Kick(_, m, d) => if m == n then Removed(d) else Untouched
      case Revoke(_, d) => if n in NetworksOf(s, d) then Removed(d) else Untouched
      case Manage(a, m, action, q) => if m == n && action != Inspect then Replaced(a, action, q) else Untouched
      case _ => Untouched
  }

  ghost predicate Bumped(s: State, t: State, n: NetworkId)
  {
    n in t.keyEpochs && t.keyEpochs[n] == if n in s.keyEpochs then s.keyEpochs[n] + 1 else 1
  }

  /** What stays when a network is not touched: all but invitations, requests and the password. */
  ghost predicate SameCore(a: Network, b: Network)
  {
    a.owner == b.owner && a.subnet == b.subnet && a.leases == b.leases && a.policy == b.policy
  }

  ghost predicate Stays(s: State, t: State, n: NetworkId)
  {
    && (n in s.networks <==> n in t.networks)
    && (n in s.networks ==> SameCore(s.networks[n], t.networks[n]))
    && (Bumped(s, t, n) || (n in s.keyEpochs && n in t.keyEpochs && s.keyEpochs[n] == t.keyEpochs[n]) || (n !in s.keyEpochs && n !in t.keyEpochs))
  }

  ghost predicate Follows(s: State, t: State, n: NetworkId, c: Change)
  {
    match c
    case Untouched => Stays(s, t, n)
    case Created(a) =>
      && n !in s.networks && n in t.networks && Bumped(s, t, n) && t.networks[n].subnet % SUBNET_SIZE == 0
      && (forall m :: m in s.networks ==> s.networks[m].subnet != t.networks[n].subnet)
      && WithMember(Network(a, t.networks[n].subnet, map[], UNMANAGED, {}, {}, t.networks[n].password), a) == Some(t.networks[n])
    case Admitted(d) =>
      && n in s.networks && n in t.networks && Bumped(s, t, n) && d !in s.networks[n].leases
      && WithMember(s.networks[n], d).Some? && SameCore(WithMember(s.networks[n], d).value, t.networks[n])
    case Removed(d) =>
      && n in s.networks && n in t.networks && Bumped(s, t, n) && d in s.networks[n].leases && d != s.networks[n].owner
      && !Exhausted(s.networks[n].policy, d) && t.networks[n] == WithoutMember(s.networks[n], d)
    case Replaced(a, action, q) =>
      && n in s.networks && n in t.networks && Bumped(s, t, n) && Saves(s, a, n, action, q)
      && var next := Proposed(s.networks[n], a, action, q);
         next.revision < MAX_U64 && t.networks[n] == s.networks[n].(policy := next.(revision := next.revision + 1))
  }

  lemma JoinFollows(s: State, a: DeviceId, m: NetworkId, credential: bool, n: NetworkId)
    ensures var (t, code) := JoinNetwork(s, a, m, credential);
      Follows(s, t, n, if code == Done && m == n then Admitted(a) else Untouched)
  {
    hide WithMember, NetworkLimitReached;
  }

  lemma RedeemFollows(s: State, a: DeviceId, m: NetworkId, valid: bool, n: NetworkId)
    ensures var (t, code) := RedeemInvite(s, a, m, valid);
      Follows(s, t, n, if code == Done && m == n then Admitted(a) else Untouched)
  {
    hide NetworkLimitReached, FirstFree, JoinNetwork;
    var r := Recorded(s, a);
    if m in s.networks {
      var net := r.networks[m];
      var granted := net.(pending := net.pending - {a}, invited := net.invited + {a});
      JoinFollows(r.(networks := r.networks[m := granted]), a, m, false, n);
    }
  }

  lemma ApproveFollows(s: State, a: DeviceId, m: NetworkId, d: DeviceId, n: NetworkId)
    ensures var (t, code) := ApproveMember(s, a, m, d);
      Follows(s, t, n, if code == Done && m == n then Admitted(d) else Untouched)
  {
    hide WithMember, NetworkLimitReached, CanManage;
  }

  lemma LeaveFollows(s: State, a: DeviceId, m: NetworkId, n: NetworkId)
    ensures var (t, code) := LeaveNetwork(s, a, m);
      Follows(s, t, n, if code == Done && m == n then Removed(a) else Untouched)
  {
    hide Without, WithoutMember, Exhausted;
  }

  lemma KickFollows(s: State, a: DeviceId, m: NetworkId, d: DeviceId, n: NetworkId)
    ensures var (t, code) := KickMember(s, a, m, d);
      Follows(s, t, n, if code == Done && m == n then Removed(d) else Untouched)
  {
    hide Without, WithoutMember, Exhausted, Role, CanManage;
  }

  lemma {:induction false} FirstFreeIsAligned(used: set<PoolAddress>, candidate: nat)
    requires POOL_FIRST <= candidate && candidate % SUBNET_SIZE == 0
    ensures var r := FirstFree(used, candidate, SUBNET_SIZE, POOL_END); r.Some? ==> r.value % SUBNET_SIZE == 0
    decreases POOL_END - candidate
  {
    if candidate < POOL_END && candidate in used {
      FirstFreeIsAligned(used, candidate + SUBNET_SIZE);
    }
  }

  lemma CreatedFollows(s: State, t: State, a: DeviceId, id: NetworkId, subnet: PoolAddress, password: Option<bool>, n: NetworkId)
    requires id !in s.networks && subnet !in UsedSubnets(s) && subnet % SUBNET_SIZE == 0
    requires var net := WithMember(Network(a, subnet, map[], UNMANAGED, {}, {}, password), a);
      net.Some? && t.networks == s.networks[id := net.value] && t.keyEpochs == Bump(s.keyEpochs, id)
    ensures Follows(s, t, n, if id == n then Created(a) else Untouched)
  {
    hide FirstFree;
    assert forall m :: m in s.networks ==> s.networks[m].subnet in UsedSubnets(s);
  }

  lemma CreateFollows(s: State, a: DeviceId, id: NetworkId, password: Option<bool>, n: NetworkId)
    ensures var (t, code) := CreateNetwork(s, a, id, password);
      Follows(s, t, n, if code == Done && id == n then Created(a) else Untouched)
  {
    var r := Recorded(s, a);
    var (t, code) := CreateNetwork(s, a, id, password);
    assert UsedSubnets(r) == UsedSubnets(s);
    FirstFreeIsAligned(UsedSubnets(s), POOL_FIRST);
    hide NetworkLimitReached, FirstFree, WithMember, UsedSubnets, Follows;
    NotedFollows(s, r, n);
    NothingElse(s, r, n);
    if code == Done {
      var subnet := FirstFree(UsedSubnets(r), POOL_FIRST, SUBNET_SIZE, POOL_END).value;
      CreatedFollows(s, t, a, id, subnet, password, n);
    }
  }

  lemma NothingElse(s: State, t: State, n: NetworkId)
    requires Stays(s, t, n)
    ensures Follows(s, t, n, Untouched)
  {
  }

  lemma ManageFollows(s: State, a: DeviceId, m: NetworkId, action: Action, q: NetworkPolicy, n: NetworkId)
    ensures var (t, code) := ManageNetwork(s, a, m, action, q);
      Follows(s, t, n, if code == Done && m == n && action != Inspect then Replaced(a, action, q) else Untouched)
  {
    hide ManageCode, Acceptable, GatewaysCode, RoutesCode, SubjectsPresent, AssignmentsValid, RolesKept, HasGateway, CanManage;
    if Saves(s, a, m, action, q) {
      SavedPassed(s, a, m, action, q);
    }
  }

  lemma RevokeFollows(s: State, a: DeviceId, d: DeviceId, n: NetworkId)
    ensures var (t, code) := RevokeDevice(s, a, d);
      Follows(s, t, n, if code == Done && n in NetworksOf(s, d) then Removed(d) else Untouched)
  {
    hide Without, WithoutMember, Exhausted;
  }

  lemma NegotiatedFollows(s: State, a: DeviceId, capable: bool, n: NetworkId)
    ensures Follows(s, SetCapable(s, a, capable), n, Untouched) && SetCapable(s, a, capable).keyEpochs == s.keyEpochs
  {
  }

  lemma DisconnectedFollows(s: State, a: DeviceId, session: SessionId, n: NetworkId)
    ensures Follows(s, RemoveDeviceKey(s, a, session), n, Untouched)
  {
  }

  lemma PublishedFollows(s: State, a: DeviceId, key: ActiveKey, n: NetworkId)
    ensures Follows(s, PublishDeviceKey(s, a, key), n, Untouched)
  {
  }

  lemma AuthenticatedFollows(s: State, a: DeviceId, key: ActiveKey, n: NetworkId)
    ensures Follows(s, SetCapable(s, a, false), n, Untouched)
    ensures Follows(s, PublishDeviceKey(SetCapable(s, a, false), a, key), n, Untouched)
  {
    hide SetCapable, PublishDeviceKey;
    NegotiatedFollows(s, a, false, n);
    PublishedFollows(SetCapable(s, a, false), a, key, n);
  }

  lemma PasswordJoinFollows(s: State, a: DeviceId, m: NetworkId, matches: bool, n: NetworkId)
    ensures var (t, code) := JoinWithPassword(s, a, m, matches);
      Follows(s, t, n, if code == Done && m == n then Admitted(a) else Untouched)
  {
    hide JoinNetwork, FirstFree;
    JoinFollows(Recorded(s, a), a, m, true, n);
  }

  lemma InviteFollows(s: State, a: DeviceId, m: NetworkId, d: DeviceId, n: NetworkId)
    ensures Follows(s, InviteMember(s, a, m, d).0, n, Untouched)
  {
    hide NetworkLimitReached, CanManage, Stays;
    var r := Recorded(s, a);
    NotedFollows(s, r, n);
    if m in r.networks {
      NotedFollows(s, r.(networks := r.networks[m := r.networks[m].(invited := r.networks[m].invited + {d})]), n);
    }
    NotedFollows(s, s, n);
  }

  lemma NotedFollows(s: State, t: State, n: NetworkId)
    requires t.keyEpochs == s.keyEpochs && t.networks.Keys == s.networks.Keys
    requires n in s.networks ==> SameCore(s.networks[n], t.networks[n])
    ensures Stays(s, t, n)
  {
  }

  lemma PasswordFollows(s: State, a: DeviceId, m: NetworkId, password: Option<bool>, n: NetworkId)
    ensures Follows(s, SetPassword(s, a, m, password).0, n, Untouched)
  {
    hide CanManage;
  }

  lemma AccountFollows(s: State, a: DeviceId, account: AccountId, valid: bool, n: NetworkId)
    ensures Follows(s, CreateAccount(s, a, account).0, n, Untouched)
    ensures Follows(s, EnrolDevice(s, a, account, valid).0, n, Untouched)
  {
  }

  lemma HandleFollows(s: State, e: Event, n: NetworkId)
    ensures Follows(s, Handle(s, e).0, n, ChangeBy(s, e, Handle(s, e).1, n))
  {
    NothingFollows(s, n);
    hide Follows, JoinWithPassword, SetCapable, CreateNetwork, JoinNetwork, LeaveNetwork, InviteMember, ApproveMember,
         KickMember, ManageNetwork, CreateAccount, EnrolDevice, RevokeDevice, SetPassword, RedeemInvite, PublishNetworkKeys, NetworksOf;
    match e
    case Negotiated(a, supported) => NegotiatedFollows(s, a, supported, n);
    case Create(a, id, password) => CreateFollows(s, a, id, password, n);
    case Join(a, m) => JoinFollows(s, a, m, false, n);
    case Leave(a, m) => LeaveFollows(s, a, m, n);
    case Invite(a, m, d) => InviteFollows(s, a, m, d, n);
    case Approve(a, m, d) => ApproveFollows(s, a, m, d, n);
    case Kick(a, m, d) => KickFollows(s, a, m, d, n);
    case Manage(a, m, action, q) => ManageFollows(s, a, m, action, q, n);
    case OpenAccount(a, account) => AccountFollows(s, a, account, false, n);
    case Enrol(a, account, valid) => AccountFollows(s, a, account, valid, n);
    case Revoke(a, d) => RevokeFollows(s, a, d, n);
    case ChangePassword(a, m, password) => PasswordFollows(s, a, m, password, n);
    case PasswordJoin(a, m, matches) => PasswordJoinFollows(s, a, m, matches, n);
    case Redeem(a, m, valid) => RedeemFollows(s, a, m, valid, n);
    case _ =>
  }

  /** Every event does to every network exactly what its change says. */
  lemma StepFollows(s: State, e: Event, n: NetworkId)
    ensures Follows(s, Step(s, e).state, n, ChangeOf(s, e, n))
  {
    hide Follows, Handle, SetCapable, PublishDeviceKey, RemoveDeviceKey, RoutePacket, NetworksOf, Revoked;
    NothingFollows(s, n);
    HandleFollows(s, e, n);
    match e
    case Authenticated(a, key, valid) => AuthenticatedFollows(s, a, key, n);
    case Disconnected(a, session) => DisconnectedFollows(s, a, session, n);
    case _ =>
  }

  lemma NothingFollows(s: State, n: NetworkId)
    ensures Follows(s, s, n, Untouched)
  {
  }

  // ---- What events leave alone ----

  /** The same accounts, keys and capabilities. */
  ghost predicate SameAccess(s: State, t: State)
  {
    t.accounts == s.accounts && t.enrolled == s.enrolled && t.activeKeys == s.activeKeys && t.capable == s.capable
  }

  lemma JoinFrame(s: State, a: DeviceId, n: NetworkId, credential: bool)
    ensures SameAccess(s, JoinNetwork(s, a, n, credential).0)
  {
    hide WithMember, NetworkLimitReached;
  }

  lemma RedeemFrame(s: State, a: DeviceId, n: NetworkId, valid: bool)
    ensures SameAccess(s, RedeemInvite(s, a, n, valid).0)
  {
    hide NetworkLimitReached, JoinNetwork;
    var r := Recorded(s, a);
    if n in r.networks {
      var net := r.networks[n];
      JoinFrame(r.(networks := r.networks[n := net.(pending := net.pending - {a}, invited := net.invited + {a})]), a, n, false);
    }
  }

  lemma LeaveFrame(s: State, a: DeviceId, n: NetworkId)
    ensures SameAccess(s, LeaveNetwork(s, a, n).0)
  {
    hide WithoutMember, Exhausted;
  }

  lemma KickFrame(s: State, a: DeviceId, n: NetworkId, d: DeviceId)
    ensures SameAccess(s, KickMember(s, a, n, d).0)
  {
    hide WithoutMember, Exhausted, CanManage, Role;
  }

  lemma ApproveFrame(s: State, a: DeviceId, n: NetworkId, d: DeviceId)
    ensures SameAccess(s, ApproveMember(s, a, n, d).0)
  {
    hide WithMember, NetworkLimitReached, CanManage;
  }

  lemma InviteFrame(s: State, a: DeviceId, n: NetworkId, d: DeviceId)
    ensures SameAccess(s, InviteMember(s, a, n, d).0)
  {
    hide NetworkLimitReached, CanManage;
  }

  lemma ManageFrame(s: State, a: DeviceId, n: NetworkId, action: Action, q: NetworkPolicy)
    ensures SameAccess(s, ManageNetwork(s, a, n, action, q).0)
  {
    if Saves(s, a, n, action, q) {
      SavedPassed(s, a, n, action, q);
    }
    hide ManageCode;
  }

  lemma CreateFrame(s: State, a: DeviceId, n: NetworkId, password: Option<bool>)
    ensures SameAccess(s, CreateNetwork(s, a, n, password).0) && SameAccess(s, SetPassword(s, a, n, password).0)
  {
    hide WithMember, FirstFree, NetworkLimitReached, CanManage;
  }

  lemma PasswordJoinFrame(s: State, a: DeviceId, n: NetworkId, matches: bool)
    ensures SameAccess(s, JoinWithPassword(s, a, n, matches).0)
  {
    hide JoinNetwork;
    JoinFrame(Recorded(s, a), a, n, true);
  }

  lemma HandleFrame(s: State, e: Event)
    ensures e.Negotiated? || e.OpenAccount? || e.Enrol? || e.Revoke? || SameAccess(s, Handle(s, e).0)
  {
    assert SameAccess(s, s);
    hide SameAccess, JoinNetwork, RedeemInvite, LeaveNetwork, KickMember, ApproveMember, InviteMember, ManageNetwork, CreateNetwork,
         SetPassword, JoinWithPassword, PublishNetworkKeys, SetCapable, CreateAccount, EnrolDevice, RevokeDevice;
    match e
    case Create(a, n, password) => CreateFrame(s, a, n, password);
    case Join(a, n) => JoinFrame(s, a, n, false);
    case PasswordJoin(a, n, matches) => PasswordJoinFrame(s, a, n, matches);
    case Redeem(a, n, valid) => RedeemFrame(s, a, n, valid);
    case Leave(a, n) => LeaveFrame(s, a, n);
    case Kick(a, n, d) => KickFrame(s, a, n, d);
    case Approve(a, n, d) => ApproveFrame(s, a, n, d);
    case Invite(a, n, d) => InviteFrame(s, a, n, d);
    case Manage(a, n, action, q) => ManageFrame(s, a, n, action, q);
    case ChangePassword(a, n, password) => CreateFrame(s, a, n, password);
    case _ =>
  }

  lemma StepFrame(s: State, e: Event)
    ensures e.Authenticated? || e.Disconnected? || e.Negotiated? || e.OpenAccount? || e.Enrol? || e.Revoke?
         || SameAccess(s, Step(s, e).state)
  {
    assert SameAccess(s, s);
    hide SameAccess, Handle, RoutePacket, Revoked, SetCapable, PublishDeviceKey, RemoveDeviceKey;
    HandleFrame(s, e);
  }

  // ---- Revocation and keys ----

  /** An account's owner is enrolled in it and is not revoked. */
  ghost predicate AccountsSound(s: State)
  {
    forall a :: a in s.accounts ==> s.accounts[a] in s.enrolled && s.enrolled[s.accounts[a]] == Enrolment(a, false)
  }

  ghost predicate KeysSound(s: State)
  {
    forall d :: d in s.activeKeys ==> d != ZERO_DEVICE && !Revoked(s, d)
  }

  /** A revoked device stays revoked: every way back is behind the guard that turns it away. */
  lemma RevokedForever(s: State, e: Event, d: DeviceId)
    requires Revoked(s, d)
    ensures Revoked(Step(s, e).state, d)
  {
    hide JoinNetwork, RedeemInvite, LeaveNetwork, KickMember, ApproveMember, InviteMember, ManageNetwork, CreateNetwork, JoinWithPassword,
         RoutePacket, PublishNetworkKeys, CanManage, WithMember, NetworkLimitReached, FirstFree, LeftAll, NetworksOf, BumpAll;
    StepFrame(s, e);
  }

  lemma EnrolmentKeepsAccounts(s: State, a: DeviceId, account: AccountId, valid: bool)
    requires AccountsSound(s)
    ensures AccountsSound(CreateAccount(s, a, account).0) && AccountsSound(EnrolDevice(s, a, account, valid).0)
  {
  }

  lemma RevocationKeepsAccounts(s: State, a: DeviceId, d: DeviceId)
    requires AccountsSound(s)
    ensures AccountsSound(RevokeDevice(s, a, d).0)
  {
    hide NetworksOf, LeftAll, BumpAll, Exhausted;
  }

  lemma StepKeepsAccounts(s: State, e: Event)
    requires AccountsSound(s)
    ensures AccountsSound(Step(s, e).state)
  {
    hide JoinNetwork, RedeemInvite, LeaveNetwork, KickMember, ApproveMember, InviteMember, ManageNetwork, CreateNetwork, JoinWithPassword,
         RoutePacket, PublishNetworkKeys, SetPassword, CreateAccount, EnrolDevice, RevokeDevice;
    StepFrame(s, e);
    match e
    case OpenAccount(a, account) => EnrolmentKeepsAccounts(s, a, account, false);
    case Enrol(a, account, valid) => EnrolmentKeepsAccounts(s, a, account, valid);
    case Revoke(a, d) => RevocationKeepsAccounts(s, a, d);
    case _ =>
  }

  lemma EnrolmentKeepsKeys(s: State, a: DeviceId, account: AccountId, valid: bool)
    requires KeysSound(s)
    ensures KeysSound(CreateAccount(s, a, account).0) && KeysSound(EnrolDevice(s, a, account, valid).0)
  {
  }

  lemma RevocationKeepsKeys(s: State, a: DeviceId, d: DeviceId)
    requires KeysSound(s)
    ensures KeysSound(RevokeDevice(s, a, d).0)
  {
    hide NetworksOf, LeftAll, BumpAll, Exhausted;
  }

  lemma SessionKeepsKeys(s: State, a: DeviceId, key: ActiveKey, session: SessionId, capable: bool)
    requires KeysSound(s)
    ensures KeysSound(SetCapable(s, a, capable)) && KeysSound(RemoveDeviceKey(s, a, session))
    ensures a != ZERO_DEVICE ==> KeysSound(PublishDeviceKey(s, a, key))
  {
    hide NetworksOf, Owned, BumpAll;
  }

  /** No revoked device ever holds an active key. */
  lemma StepKeepsKeys(s: State, e: Event)
    requires KeysSound(s)
    ensures KeysSound(Step(s, e).state)
  {
    hide JoinNetwork, RedeemInvite, LeaveNetwork, KickMember, ApproveMember, InviteMember, ManageNetwork, CreateNetwork, JoinWithPassword,
         RoutePacket, PublishNetworkKeys, SetPassword, CreateAccount, EnrolDevice, RevokeDevice, SetCapable, PublishDeviceKey, RemoveDeviceKey;
    StepFrame(s, e);
    match e
    case OpenAccount(a, account) => EnrolmentKeepsKeys(s, a, account, false);
    case Enrol(a, account, valid) => EnrolmentKeepsKeys(s, a, account, valid);
    case Revoke(a, d) => RevocationKeepsKeys(s, a, d);
    case Authenticated(a, key, _) =>
      SessionKeepsKeys(s, a, key, key.session, false);
      SessionKeepsKeys(SetCapable(s, a, false), a, key, key.session, false);
    case Disconnected(a, session) => SessionKeepsKeys(s, a, ActiveKey(session, []), session, false);
    case Negotiated(a, supported) => SessionKeepsKeys(s, a, ActiveKey([], []), [], supported);
    case _ =>
  }

  /** A successful revocation does revoke: the exception for owners of accounts never applies. */
  lemma RevokeRevokes(s: State, a: DeviceId, d: DeviceId)
    requires AccountsSound(s) && Step(s, Revoke(a, d)).code == Done
    ensures var t := Step(s, Revoke(a, d)).state;
      Revoked(t, d) && d !in t.activeKeys && NetworksOf(t, d) == {}
  {
    hide Without, Exhausted;
    assert forall n :: n in NetworksOf(s, d) ==> d !in WithoutMember(s.networks[n], d).leases;
  }

  // ---- The invariant of one network ----

  ghost predicate Addressed(net: Network)
  {
    && net.subnet % SUBNET_SIZE == 0
    && (forall d :: d in net.leases ==> net.subnet < net.leases[d] < net.subnet + SUBNET_SIZE - 1)
    && (forall d, x :: d in net.leases && x in net.leases && d != x ==> net.leases[d] != net.leases[x])
  }

  ghost predicate RoutesOutsidePool(p: NetworkPolicy)
  {
    forall r :: r in p.routes ==> !SubnetsOverlap(r.address, r.prefix, POOL_FIRST, POOL_PREFIX)
  }

  ghost predicate SoundNetwork(net: Network)
  {
    && net.owner in net.leases && Addressed(net)
    && Acceptable(net.policy) && Anchored(net, net.policy) && RoutesOutsidePool(net.policy)
  }

  lemma AddingIsAddressed(net: Network, d: DeviceId)
    requires Addressed(net) && d !in net.leases && WithMember(net, d).Some?
    ensures Addressed(WithMember(net, d).value)
    ensures var t := WithMember(net, d).value; t.policy == net.policy && t.leases.Keys == net.leases.Keys + {d} && t.owner == net.owner
  {
    hide FirstFree;
    var t := WithMember(net, d).value;
    assert forall x :: x in net.leases ==> net.leases[x] in net.leases.Values;
    assert forall x :: x in net.leases ==> t.leases[x] == net.leases[x];
  }

  lemma AddingKeepsSound(net: Network, d: DeviceId)
    requires SoundNetwork(net) && d !in net.leases && WithMember(net, d).Some?
    ensures SoundNetwork(WithMember(net, d).value)
  {
    AddingIsAddressed(net, d);
    hide WithMember, Addressed, Acceptable, SubnetsOverlap, Role;
  }

  lemma SoundByCore(a: Network, b: Network)
    requires SoundNetwork(a) && SameCore(a, b)
    ensures SoundNetwork(b)
  {
    hide Acceptable, SubnetsOverlap, Role;
  }

  lemma LeavingKeepsSound(net: Network, d: DeviceId)
    requires SoundNetwork(net) && d in net.leases && d != net.owner && !Exhausted(net.policy, d)
    ensures SoundNetwork(WithoutMember(net, d))
    ensures forall r :: r in WithoutMember(net, d).policy.routes ==> r in net.policy.routes
  {
    LeavingKeepsAnchored(net, d);
    WithoutIsAcceptable(net.policy, d);
    var t := WithoutMember(net, d);
    RevisionIsFree(Without(net.policy, d), t.policy.revision);
    hide Acceptable, SubnetsOverlap, Anchored, Keep;
    assert t.policy == Without(net.policy, d).(revision := t.policy.revision);
    assert t.policy.routes == Keep(net.policy.routes, OtherRoute(d));
  }

  lemma ReplacingKeepsSound(s: State, a: DeviceId, n: NetworkId, action: Action, q: NetworkPolicy)
    requires Saves(s, a, n, action, q) && a != ZERO_DEVICE && n in s.networks && SoundNetwork(s.networks[n])
    ensures var next := Proposed(s.networks[n], a, action, q);
      next.revision < MAX_U64 && SoundNetwork(s.networks[n].(policy := next.(revision := next.revision + 1)))
  {
    hide Saves, Acceptable, SubnetsOverlap, Role, RoutesCode, Proposed, GatewaysCode, SubjectsPresent, AssignmentsValid, RolesKept, CanManage, HasGateway;
    SavedPassed(s, a, n, action, q);
    ProposedIsAcceptable(s, a, n, action, q);
    ProposedIsAnchored(s, a, n, action, q);
    var net := s.networks[n];
    var next := Proposed(net, a, action, q);
    var saved := next.(revision := next.revision + 1);
    RevisionIsFree(next, next.revision + 1);
    forall r | r in saved.routes ensures !SubnetsOverlap(r.address, r.prefix, POOL_FIRST, POOL_PREFIX) {
      RoutesPassed(s, n, next.routes, r);
    }
    SameRoles(next, saved, net.owner);
  }

  lemma NewIsSound(net: Network)
    requires net.subnet % SUBNET_SIZE == 0 && net.policy == UNMANAGED
    requires WithMember(net.(leases := map[]), net.owner) == Some(net)
    ensures SoundNetwork(net)
  {
    hide FirstFree;
    var empty := net.(leases := map[]);
    assert Addressed(empty);
    AddingIsAddressed(empty, net.owner);
    assert net.owner in net.leases;
  }

  // ---- The invariant of the relay ----

  ghost predicate Apart(p: NetworkPolicy, q: NetworkPolicy)
  {
    forall r, x :: r in p.routes && x in q.routes ==> !SubnetsOverlap(r.address, r.prefix, x.address, x.prefix)
  }

  ghost predicate NetworksSound(s: State)
  {
    forall n :: n in s.networks ==> SoundNetwork(s.networks[n])
  }

  ghost predicate NetworksApart(s: State)
  {
    forall m, n :: m in s.networks && n in s.networks && m != n ==>
      s.networks[m].subnet != s.networks[n].subnet && Apart(s.networks[m].policy, s.networks[n].policy)
  }

  /** While an owner is connected its networks have an entry, so their next advance is a real one. */
  ghost predicate EpochsSound(s: State)
  {
    forall n :: n in s.networks && s.networks[n].owner in s.activeKeys ==> n in s.keyEpochs
  }

  /** The relay has seen every device that holds a lease, and it is a real one. */
  ghost predicate MembersKnown(s: State)
  {
    forall n :: n in s.networks ==> s.networks[n].leases.Keys <= s.devices && ZERO_DEVICE !in s.networks[n].leases
  }

  ghost predicate Inv(s: State)
  {
    NetworksSound(s) && NetworksApart(s) && MembersKnown(s) && AccountsSound(s) && KeysSound(s) && EpochsSound(s)
  }

  lemma ActorIsSomebody(s: State, e: Event, n: NetworkId)
    requires ChangeOf(s, e, n) != Untouched
    ensures e.actor != ZERO_DEVICE && !Revoked(s, e.actor)
    ensures ChangeOf(s, e, n).Created? ==> e.Create? && ChangeOf(s, e, n).owner == e.actor
    ensures ChangeOf(s, e, n).Replaced? ==> e == Manage(e.actor, n, ChangeOf(s, e, n).action, ChangeOf(s, e, n).request) && ChangeOf(s, e, n).actor == e.actor
  {
    hide Handle, SetCapable, PublishDeviceKey, RemoveDeviceKey, RoutePacket, NetworksOf;
  }

  lemma StepKeepsNetworks(s: State, e: Event)
    requires NetworksSound(s)
    ensures NetworksSound(Step(s, e).state)
  {
    var t := Step(s, e).state;
    forall n | n in t.networks ensures SoundNetwork(t.networks[n]) {
      NetworkStaysSound(s, e, n);
    }
  }

  lemma NetworkStaysSound(s: State, e: Event, n: NetworkId)
    requires NetworksSound(s) && n in Step(s, e).state.networks
    ensures SoundNetwork(Step(s, e).state.networks[n])
    ensures ChangeOf(s, e, n).Replaced? || RoutesFrom(s, Step(s, e).state, n)
  {
    hide Step, ChangeOf, SoundNetwork, Follows;
    StepFollows(s, e, n);
    if ChangeOf(s, e, n) != Untouched {
      ActorIsSomebody(s, e, n);
    }
    ChangeKeepsSound(s, Step(s, e).state, n, ChangeOf(s, e, n));
  }

  /** Every route of a network was there before. */
  ghost predicate RoutesFrom(s: State, t: State, n: NetworkId)
    requires n in t.networks
  {
    forall r :: r in t.networks[n].policy.routes ==> n in s.networks && r in s.networks[n].policy.routes
  }

  lemma ChangeKeepsSound(s: State, t: State, n: NetworkId, c: Change)
    requires NetworksSound(s) && n in t.networks && Follows(s, t, n, c) && (c.Replaced? ==> c.actor != ZERO_DEVICE)
    ensures SoundNetwork(t.networks[n]) && (c.Replaced? || RoutesFrom(s, t, n))
  {
    hide SoundNetwork, Saves, WithMember, WithoutMember, Exhausted, Proposed;
    match c
    case Untouched => SoundByCore(s.networks[n], t.networks[n]);
    case Created(a) => CreatedIsSound(t.networks[n], a);
    case Admitted(d) =>
      AddingKeepsSound(s.networks[n], d);
      SoundByCore(WithMember(s.networks[n], d).value, t.networks[n]);
      AddingKeepsPolicy(s.networks[n], d);
    case Removed(d) => LeavingKeepsSound(s.networks[n], d);
    case Replaced(a, action, q) => ReplacingKeepsSound(s, a, n, action, q);
  }

  lemma AddingKeepsPolicy(net: Network, d: DeviceId)
    requires WithMember(net, d).Some?
    ensures var t := WithMember(net, d).value; t.policy == net.policy && t.subnet == net.subnet && t.owner == net.owner
  {
    hide FirstFree;
  }

  lemma CreatedIsSound(net: Network, a: DeviceId)
    requires net.subnet % SUBNET_SIZE == 0
    requires WithMember(Network(a, net.subnet, map[], UNMANAGED, {}, {}, net.password), a) == Some(net)
    ensures SoundNetwork(net) && net.policy == UNMANAGED && net.owner == a && net.leases.Keys == {a}
  {
    hide FirstFree;
    assert net.(leases := map[]) == Network(a, net.subnet, map[], UNMANAGED, {}, {}, net.password);
    NewIsSound(net);
  }

  // ---- Identity, epochs and routes across networks ----

  lemma ChangeKeepsIdentity(s: State, t: State, n: NetworkId, c: Change)
    requires Follows(s, t, n, c)
    ensures n in s.networks ==> n in t.networks && t.networks[n].owner == s.networks[n].owner && t.networks[n].subnet == s.networks[n].subnet
    ensures n !in s.networks && n in t.networks ==> c.Created? && forall m :: m in s.networks ==> s.networks[m].subnet != t.networks[n].subnet
    ensures n in s.keyEpochs ==> n in t.keyEpochs && t.keyEpochs[n] >= s.keyEpochs[n]
    ensures c != Untouched ==> Bumped(s, t, n)
  {
    hide Saves, Exhausted, WithMember, Proposed;
    if c.Admitted? {
      AddingKeepsPolicy(s.networks[n], c.device);
    }
  }

  lemma StepKeepsIdentity(s: State, e: Event, n: NetworkId)
    ensures var t := Step(s, e).state;
      && (n in s.networks ==> n in t.networks && t.networks[n].owner == s.networks[n].owner && t.networks[n].subnet == s.networks[n].subnet)
      && (n !in s.networks && n in t.networks ==>
          e.Create? && e.id == n && Bumped(s, t, n) && forall m :: m in s.networks ==> s.networks[m].subnet != t.networks[n].subnet)
      && (n in s.keyEpochs ==> n in t.keyEpochs && t.keyEpochs[n] >= s.keyEpochs[n])
  {
    hide Step, Follows;
    StepFollows(s, e, n);
    ChangeKeepsIdentity(s, Step(s, e).state, n, ChangeOf(s, e, n));
  }

  lemma RevokeAddsNoKey(s: State, a: DeviceId, d: DeviceId, x: DeviceId)
    ensures x in RevokeDevice(s, a, d).0.activeKeys ==> x in s.activeKeys
  {
    hide NetworksOf, LeftAll, BumpAll, Exhausted;
  }

  lemma PublishedOwner(s: State, a: DeviceId, key: ActiveKey, d: DeviceId, n: NetworkId)
    ensures var t := PublishDeviceKey(SetCapable(s, a, false), a, key);
      d in t.activeKeys && d !in s.activeKeys ==> d == a && (n in Owned(s, d) ==> n in t.keyEpochs)
    ensures forall capable :: SetCapable(s, a, capable).activeKeys == s.activeKeys
  {
  }

  /** A key becomes active only by authenticating, which gives every owned network an entry. */
  lemma NewKeyOpensEpochs(s: State, e: Event, d: DeviceId, n: NetworkId)
    requires d in Step(s, e).state.activeKeys && d !in s.activeKeys && n in Owned(s, d)
    ensures n in Step(s, e).state.keyEpochs
  {
    hide JoinNetwork, RedeemInvite, LeaveNetwork, KickMember, ApproveMember, InviteMember, ManageNetwork, CreateNetwork, JoinWithPassword,
         RoutePacket, PublishNetworkKeys, SetPassword, RevokeDevice, Owned, Revoked, SetCapable, PublishDeviceKey;
    StepFrame(s, e);
    match e
    case Authenticated(a, key, valid) => PublishedOwner(s, a, key, d, n);
    case Negotiated(a, supported) => PublishedOwner(s, a, ActiveKey([], []), d, n);
    case Revoke(a, x) => RevokeAddsNoKey(s, a, x, d);
    case _ =>
  }

  lemma StepKeepsEpochs(s: State, e: Event)
    requires EpochsSound(s) && NetworksSound(s)
    ensures EpochsSound(Step(s, e).state)
  {
    hide Step, SoundNetwork;
    var t := Step(s, e).state;
    forall n | n in t.networks && t.networks[n].owner in t.activeKeys ensures n in t.keyEpochs {
      StepKeepsIdentity(s, e, n);
      if n in s.networks && s.networks[n].owner !in s.activeKeys {
        OwnerIsMember(s.networks[n]);
        NewKeyOpensEpochs(s, e, s.networks[n].owner, n);
      }
    }
  }

  lemma OwnerIsMember(net: Network)
    requires SoundNetwork(net)
    ensures net.owner in net.leases
  {
  }

  lemma OverlapIsSymmetric(a: u32, ap: byte, b: u32, bp: byte)
    ensures SubnetsOverlap(a, ap, b, bp) == SubnetsOverlap(b, bp, a, ap)
  {
  }

  lemma ApartIsSymmetric(p: NetworkPolicy, q: NetworkPolicy)
    requires Apart(p, q)
    ensures Apart(q, p)
  {
    forall r, x | r in q.routes && x in p.routes ensures !SubnetsOverlap(r.address, r.prefix, x.address, x.prefix) {
      OverlapIsSymmetric(r.address, r.prefix, x.address, x.prefix);
    }
  }

  lemma NotTaken(s: State, n: NetworkId, r: Route, m: NetworkId, x: Route)
    requires !TakenElsewhere(s, n, r) && m in s.networks && m != n && x in s.networks[m].policy.routes
    ensures !SubnetsOverlap(r.address, r.prefix, x.address, x.prefix)
  {
    hide SubnetsOverlap;
    assert !OverlapsAny(r, s.networks[m].policy.routes);
  }

  lemma ReplacedStaysApart(s: State, t: State, n: NetworkId, c: Change, m: NetworkId)
    requires c.Replaced? && Follows(s, t, n, c) && m != n && m in s.networks && m in t.networks
    requires t.networks[m].policy.routes == s.networks[m].policy.routes
    ensures Apart(t.networks[n].policy, t.networks[m].policy)
  {
    hide Saves, SubnetsOverlap, TakenElsewhere;
    SavedPassed(s, c.actor, n, c.action, c.request);
    var next := Proposed(s.networks[n], c.actor, c.action, c.request);
    forall r, x | r in next.routes && x in s.networks[m].policy.routes ensures !SubnetsOverlap(r.address, r.prefix, x.address, x.prefix) {
      RoutesPassed(s, n, next.routes, r);
      NotTaken(s, n, r, m, x);
    }
  }

  lemma UntouchedRoutes(s: State, t: State, n: NetworkId)
    requires Follows(s, t, n, Untouched) && n in t.networks
    ensures n in s.networks && t.networks[n].policy.routes == s.networks[n].policy.routes
  {
  }

  lemma PairStaysApart(s: State, e: Event, m: NetworkId, n: NetworkId)
    requires NetworksSound(s) && NetworksApart(s) && m != n
    requires m in Step(s, e).state.networks && n in Step(s, e).state.networks
    requires !ChangeOf(s, e, m).Replaced?
    ensures Apart(Step(s, e).state.networks[n].policy, Step(s, e).state.networks[m].policy)
  {
    hide Step, SoundNetwork, Follows, SubnetsOverlap;
    var t := Step(s, e).state;
    NetworkStaysSound(s, e, m);
    if ChangeOf(s, e, n).Replaced? {
      StepFollows(s, e, n);
      StepFollows(s, e, m);
      ActorIsSomebody(s, e, n);
      UntouchedRoutes(s, t, m);
      ReplacedStaysApart(s, t, n, ChangeOf(s, e, n), m);
    } else {
      NetworkStaysSound(s, e, n);
      hide ChangeOf;
      forall r, x | r in t.networks[n].policy.routes && x in t.networks[m].policy.routes ensures !SubnetsOverlap(r.address, r.prefix, x.address, x.prefix) {
        assert Apart(s.networks[n].policy, s.networks[m].policy);
      }
    }
  }

  lemma StepKeepsApart(s: State, e: Event)
    requires NetworksSound(s) && NetworksApart(s)
    ensures NetworksApart(Step(s, e).state)
  {
    hide Step, SoundNetwork, Apart;
    var t := Step(s, e).state;
    forall m, n | m in t.networks && n in t.networks && m != n
      ensures t.networks[m].subnet != t.networks[n].subnet && Apart(t.networks[m].policy, t.networks[n].policy)
    {
      StepKeepsIdentity(s, e, m);
      StepKeepsIdentity(s, e, n);
      if ChangeOf(s, e, m).Replaced? {
        ActorIsSomebody(s, e, m);
        PairStaysApart(s, e, n, m);
      } else {
        PairStaysApart(s, e, m, n);
        ApartIsSymmetric(t.networks[n].policy, t.networks[m].policy);
      }
    }
  }

  // ---- Known devices ----

  ghost predicate KeepsDevices(s: State, t: State)
  {
    s.devices <= t.devices
  }

  lemma JoinRecords(s: State, a: DeviceId, n: NetworkId, credential: bool)
    ensures JoinNetwork(s, a, n, credential).0.devices == s.devices + {a} && KeepsDevices(s, JoinNetwork(s, a, n, credential).0)
  {
    hide WithMember, NetworkLimitReached;
  }

  lemma RedeemRecords(s: State, a: DeviceId, n: NetworkId, valid: bool)
    ensures RedeemInvite(s, a, n, valid).0.devices == s.devices + {a} && KeepsDevices(s, RedeemInvite(s, a, n, valid).0)
  {
    hide NetworkLimitReached, JoinNetwork;
    var r := Recorded(s, a);
    if n in r.networks {
      var net := r.networks[n];
      JoinRecords(r.(networks := r.networks[n := net.(pending := net.pending - {a}, invited := net.invited + {a})]), a, n, false);
    }
  }

  lemma PasswordJoinRecords(s: State, a: DeviceId, n: NetworkId, matches: bool)
    ensures JoinWithPassword(s, a, n, matches).0.devices == s.devices + {a} && KeepsDevices(s, JoinWithPassword(s, a, n, matches).0)
  {
    hide JoinNetwork;
    JoinRecords(Recorded(s, a), a, n, true);
  }

  lemma ApproveRecords(s: State, a: DeviceId, n: NetworkId, d: DeviceId)
    ensures KeepsDevices(s, ApproveMember(s, a, n, d).0)
    ensures ApproveMember(s, a, n, d).1 == Done ==> d in ApproveMember(s, a, n, d).0.devices && d != ZERO_DEVICE
  {
    hide WithMember, NetworkLimitReached, CanManage;
  }

  lemma CreateRecords(s: State, a: DeviceId, n: NetworkId, password: Option<bool>)
    ensures CreateNetwork(s, a, n, password).0.devices == s.devices + {a} && KeepsDevices(s, CreateNetwork(s, a, n, password).0) && KeepsDevices(s, SetPassword(s, a, n, password).0)
  {
    hide WithMember, FirstFree, NetworkLimitReached, CanManage;
  }

  lemma MemberOpsRecord(s: State, a: DeviceId, n: NetworkId, d: DeviceId)
    ensures KeepsDevices(s, LeaveNetwork(s, a, n).0) && KeepsDevices(s, KickMember(s, a, n, d).0)
    ensures KeepsDevices(s, InviteMember(s, a, n, d).0)
  {
    hide WithoutMember, Exhausted, CanManage, Role, NetworkLimitReached;
  }

  lemma ManageRecords(s: State, a: DeviceId, n: NetworkId, action: Action, q: NetworkPolicy)
    ensures KeepsDevices(s, ManageNetwork(s, a, n, action, q).0)
  {
    hide ManageCode;
  }

  lemma AccessRecords(s: State, a: DeviceId, d: DeviceId, account: AccountId, valid: bool)
    ensures KeepsDevices(s, CreateAccount(s, a, account).0) && KeepsDevices(s, EnrolDevice(s, a, account, valid).0)
    ensures KeepsDevices(s, RevokeDevice(s, a, d).0)
  {
    hide NetworksOf, LeftAll, BumpAll, Exhausted;
  }

  lemma SessionRecords(s: State, a: DeviceId, key: ActiveKey, session: SessionId, capable: bool)
    ensures KeepsDevices(s, SetCapable(s, a, capable)) && KeepsDevices(s, PublishDeviceKey(s, a, key))
    ensures KeepsDevices(s, RemoveDeviceKey(s, a, session))
  {
    hide NetworksOf, Owned, BumpAll;
  }

  predicate Joins(e: Event)
  {
    e.Create? || e.Join? || e.PasswordJoin? || e.Redeem? || e.Approve?
  }

  lemma JoiningRecords(s: State, e: Event)
    requires Joins(e)
    ensures KeepsDevices(s, Handle(s, e).0)
  {
    hide KeepsDevices, JoinNetwork, RedeemInvite, LeaveNetwork, KickMember, ApproveMember, InviteMember, ManageNetwork, CreateNetwork, SetPassword,
         JoinWithPassword, RoutePacket, PublishNetworkKeys, Revoked, SetCapable, PublishDeviceKey, RemoveDeviceKey,
         CreateAccount, EnrolDevice, RevokeDevice, NetworksOf;
    match e
    case Create(a, m, password) => CreateRecords(s, a, m, password);
    case Join(a, m) => JoinRecords(s, a, m, false);
    case PasswordJoin(a, m, matches) => PasswordJoinRecords(s, a, m, matches);
    case Redeem(a, m, valid) => RedeemRecords(s, a, m, valid);
    case Approve(a, m, d) => ApproveRecords(s, a, m, d);
  }

  lemma OthersRecord(s: State, e: Event)
    requires !Joins(e)
    ensures KeepsDevices(s, Handle(s, e).0)
  {
    assert KeepsDevices(s, s);
    hide KeepsDevices, JoinNetwork, RedeemInvite, LeaveNetwork, KickMember, ApproveMember, InviteMember, ManageNetwork, CreateNetwork, SetPassword,
         JoinWithPassword, RoutePacket, PublishNetworkKeys, Revoked, SetCapable, PublishDeviceKey, RemoveDeviceKey,
         CreateAccount, EnrolDevice, RevokeDevice, NetworksOf;
    match e
    case Negotiated(a, supported) => SessionRecords(s, a, ActiveKey([], []), [], supported);
    case ChangePassword(a, m, password) => CreateRecords(s, a, m, password);
    case Leave(a, m) => MemberOpsRecord(s, a, m, a);
    case Kick(a, m, d) => MemberOpsRecord(s, a, m, d);
    case Invite(a, m, d) => MemberOpsRecord(s, a, m, d);
    case Manage(a, m, action, q) => ManageRecords(s, a, m, action, q);
    case OpenAccount(a, account) => AccessRecords(s, a, a, account, false);
    case Enrol(a, account, valid) => AccessRecords(s, a, a, account, valid);
    case Revoke(a, d) => AccessRecords(s, a, d, [], false);
    case _ =>
  }

  /** No event forgets a device. */
  lemma StepRecords(s: State, e: Event)
    ensures KeepsDevices(s, Step(s, e).state)
  {
    hide Handle, RoutePacket, Revoked, SetCapable, PublishDeviceKey, RemoveDeviceKey;
    assert KeepsDevices(s, s);
    if Joins(e) {
      JoiningRecords(s, e);
    } else {
      OthersRecord(s, e);
    }
    match e
    case Authenticated(a, key, _) =>
      SessionRecords(s, a, key, key.session, false);
      SessionRecords(SetCapable(s, a, false), a, key, key.session, false);
    case Disconnected(a, session) => SessionRecords(s, a, ActiveKey(session, []), session, false);
    case _ =>
  }

  /** An event that adds a member knows it. */
  lemma AddedIsKnown(s: State, e: Event, n: NetworkId)
    ensures ChangeOf(s, e, n).Admitted? ==> ChangeOf(s, e, n).device in Step(s, e).state.devices && ChangeOf(s, e, n).device != ZERO_DEVICE
    ensures ChangeOf(s, e, n).Created? ==> ChangeOf(s, e, n).owner in Step(s, e).state.devices && ChangeOf(s, e, n).owner != ZERO_DEVICE
  {
    hide JoinNetwork, RedeemInvite, LeaveNetwork, KickMember, ApproveMember, InviteMember, ManageNetwork, CreateNetwork, SetPassword,
         JoinWithPassword, RoutePacket, PublishNetworkKeys, Revoked, SetCapable, PublishDeviceKey, RemoveDeviceKey,
         CreateAccount, EnrolDevice, RevokeDevice, NetworksOf;
    match e
    case Create(a, m, password) => CreateRecords(s, a, m, password);
    case Join(a, m) => JoinRecords(s, a, m, false);
    case PasswordJoin(a, m, matches) => PasswordJoinRecords(s, a, m, matches);
    case Redeem(a, m, valid) => RedeemRecords(s, a, m, valid);
    case Approve(a, m, d) => ApproveRecords(s, a, m, d);
    case _ =>
  }

  lemma ChangedLeases(s: State, t: State, n: NetworkId, c: Change)
    requires Follows(s, t, n, c) && n in t.networks
    ensures (n in s.networks && t.networks[n].leases.Keys <= s.networks[n].leases.Keys)
         || (c.Admitted? && n in s.networks && t.networks[n].leases.Keys <= s.networks[n].leases.Keys + {c.device})
         || (c.Created? && t.networks[n].leases.Keys == {c.owner})
  {
    hide Saves, Exhausted, FirstFree, Proposed, Without;
  }

  lemma StepKeepsKnown(s: State, e: Event)
    requires MembersKnown(s)
    ensures MembersKnown(Step(s, e).state)
  {
    hide Step, ChangeOf, Follows;
    var t := Step(s, e).state;
    forall n | n in t.networks ensures t.networks[n].leases.Keys <= t.devices && ZERO_DEVICE !in t.networks[n].leases {
      StepFollows(s, e, n);
      StepRecords(s, e);
      AddedIsKnown(s, e, n);
      ChangedLeases(s, t, n, ChangeOf(s, e, n));
    }
  }

  /** Every event keeps the invariant. */
  lemma StepKeepsInv(s: State, e: Event)
    requires Inv(s)
    ensures Inv(Step(s, e).state)
  {
    hide Step, NetworksSound, NetworksApart, MembersKnown, AccountsSound, KeysSound, EpochsSound;
    StepKeepsNetworks(s, e);
    StepKeepsKnown(s, e);
    StepKeepsApart(s, e);
    StepKeepsAccounts(s, e);
    StepKeepsKeys(s, e);
    StepKeepsEpochs(s, e);
  }
}
