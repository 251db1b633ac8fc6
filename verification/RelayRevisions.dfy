/**
  * Peer states and their revisions. Every member of a network is sent the peer
  * state under a revision; a member cannot tell two states under one revision
  * apart, so within one life of the relay there must never be two.
  */
module RelayRevisions {
  import opened Bytes
  import opened Policy
  import opened PolicyCodec
  import opened Relay
  import opened RelayPolicies
  import opened RelayRuns
  import opened RelaySafety
  import opened RelayAnswers

  /** What members are told: the keys are those of connected members, in a managed network of the capable ones. */
  datatype PeerState = PeerState(
    owner: DeviceId, subnet: PoolAddress, leases: map<DeviceId, PoolAddress>, epoch: nat,
    keys: map<DeviceId, Key>, policy: Option<NetworkPolicy>)

  function PeerStateOf(s: State, n: NetworkId): (p: PeerState)
    requires n in s.networks
  {
    var net := s.networks[n];
    PeerState(net.owner, net.subnet, net.leases, EpochOf(s, n),
      map d | d in net.leases && d in s.activeKeys && (net.policy.managed ==> d in s.capable) :: s.activeKeys[d].key,
      if net.policy.managed then Some(net.policy) else None)
  }

  function RevisionOf(s: State, n: NetworkId): (r: nat)
  {
    if n in s.revisions then s.revisions[n] else 0
  }

  /** A revision that stays means a peer state that stays. */
  ghost predicate Numbered(s: State, t: State, n: NetworkId)
  {
    n in s.networks ==>
      && n in t.networks && RevisionOf(s, n) <= RevisionOf(t, n)
      && (RevisionOf(s, n) == RevisionOf(t, n) ==> PeerStateOf(s, n) == PeerStateOf(t, n))
  }

  lemma NumberedChains(s: State, t: State, u: State, n: NetworkId)
    requires Numbered(s, t, n) && Numbered(t, u, n)
    ensures Numbered(s, u, n)
  {
  }

  // ---- Requests that touch no session ----

  /** A new revision, or nothing that members are told has changed. */
  ghost predicate Counted(s: State, t: State, n: NetworkId)
  {
    n in s.networks ==>
      && n in t.networks
      && (|| RevisionOf(t, n) == RevisionOf(s, n) + 1
          || (RevisionOf(t, n) == RevisionOf(s, n) && EpochOf(t, n) == EpochOf(s, n) && SameCore(s.networks[n], t.networks[n])))
  }

  lemma CountedIsNumbered(s: State, t: State, n: NetworkId)
    requires Counted(s, t, n) && SameAccess(s, t)
    ensures Numbered(s, t, n)
  {
  }

  lemma NothingCounts(s: State, n: NetworkId)
    ensures Counted(s, s, n)
  {
  }

  lemma ChangedCounts(s: State, m: NetworkId, net: Network, n: NetworkId)
    ensures Counted(s, Changed(s, m, net), n)
  {
  }

  /** Invitations, requests and the password are not told. */
  lemma SecretCounts(s: State, m: NetworkId, net: Network, n: NetworkId)
    requires m in s.networks && SameCore(s.networks[m], net)
    ensures Counted(s, s.(networks := s.networks[m := net]), n)
  {
  }

  lemma RecordedCounts(s: State, t: State, a: DeviceId, n: NetworkId)
    requires Counted(Recorded(s, a), t, n)
    ensures Counted(s, t, n)
  {
  }

  lemma JoinCounts(s: State, a: DeviceId, m: NetworkId, credential: bool, n: NetworkId)
    ensures Counted(s, JoinNetwork(s, a, m, credential).0, n)
  {
    hide Counted, Changed, WithMember, NetworkLimitReached;
    var r := Recorded(s, a);
    NothingCounts(r, n);
    if m in s.networks {
      var net := s.networks[m];
      SecretCounts(r, m, net.(pending := net.pending + {a}), n);
      if WithMember(net, a).Some? {
        ChangedCounts(r, m, WithMember(net, a).value, n);
      }
    }
    RecordedCounts(s, JoinNetwork(s, a, m, credential).0, a, n);
  }

  lemma RedeemCounts(s: State, a: DeviceId, m: NetworkId, valid: bool, n: NetworkId)
    ensures Counted(s, RedeemInvite(s, a, m, valid).0, n)
  {
    hide JoinNetwork, NetworkLimitReached;
    if m in s.networks {
      var r, net := Recorded(s, a), s.networks[m];
      JoinCounts(r.(networks := r.networks[m := net.(pending := net.pending - {a}, invited := net.invited + {a})]), a, m, false, n);
    }
  }

  lemma CreateCounts(s: State, a: DeviceId, m: NetworkId, password: Option<bool>, n: NetworkId)
    ensures Counted(s, CreateNetwork(s, a, m, password).0, n)
  {
    hide WithMember, FirstFree, NetworkLimitReached, UsedSubnets;
  }

  lemma PasswordCounts(s: State, a: DeviceId, m: NetworkId, password: Option<bool>, n: NetworkId)
    ensures Counted(s, SetPassword(s, a, m, password).0, n)
  {
    hide CanManage;
  }

  lemma LeaveCounts(s: State, a: DeviceId, m: NetworkId, n: NetworkId)
    ensures Counted(s, LeaveNetwork(s, a, m).0, n)
  {
    hide WithoutMember, Exhausted;
  }

  lemma KickCounts(s: State, a: DeviceId, m: NetworkId, d: DeviceId, n: NetworkId)
    ensures Counted(s, KickMember(s, a, m, d).0, n)
  {
    hide WithoutMember, Exhausted, CanManage, Role;
  }

  lemma ApproveCounts(s: State, a: DeviceId, m: NetworkId, d: DeviceId, n: NetworkId)
    ensures Counted(s, ApproveMember(s, a, m, d).0, n)
  {
    hide Counted, Changed, WithMember, NetworkLimitReached, CanManage;
    var r := Recorded(s, a);
    NothingCounts(s, n);
    NothingCounts(r, n);
    RecordedCounts(s, r, a, n);
    if m in s.networks && WithMember(s.networks[m], d).Some? {
      ChangedCounts(r, m, WithMember(s.networks[m], d).value, n);
      RecordedCounts(s, Changed(r, m, WithMember(s.networks[m], d).value), a, n);
    }
  }

  lemma InviteCounts(s: State, a: DeviceId, m: NetworkId, d: DeviceId, n: NetworkId)
    ensures Counted(s, InviteMember(s, a, m, d).0, n)
  {
    hide NetworkLimitReached, CanManage;
  }

  lemma ManageCounts(s: State, a: DeviceId, m: NetworkId, action: Action, q: NetworkPolicy, n: NetworkId)
    ensures Counted(s, ManageNetwork(s, a, m, action, q).0, n)
  {
    if Saves(s, a, m, action, q) {
      SavedPassed(s, a, m, action, q);
    }
    hide ManageCode;
  }

  lemma PasswordJoinCounts(s: State, a: DeviceId, m: NetworkId, matches: bool, n: NetworkId)
    ensures Counted(s, JoinWithPassword(s, a, m, matches).0, n)
  {
    hide JoinNetwork;
    JoinCounts(Recorded(s, a), a, m, true, n);
  }

  // ---- Sessions and accounts ----

  /** Members and policy stay, and so do the sessions of the members. */
  ghost predicate Unmoved(s: State, t: State, n: NetworkId)
  {
    && n in s.networks && n in t.networks && SameCore(s.networks[n], t.networks[n]) && EpochOf(s, n) == EpochOf(t, n)
    && (forall d :: d in s.networks[n].leases ==>
          && (d in s.activeKeys <==> d in t.activeKeys) && (d in s.activeKeys ==> s.activeKeys[d] == t.activeKeys[d])
          && (s.networks[n].policy.managed ==> (d in s.capable <==> d in t.capable)))
  }

  lemma UnmovedIsSame(s: State, t: State, n: NetworkId)
    requires Unmoved(s, t, n)
    ensures PeerStateOf(s, n) == PeerStateOf(t, n)
  {
    assert PeerStateOf(s, n).keys == PeerStateOf(t, n).keys;
  }

  lemma BumpsWithin(m: map<NetworkId, nat>, ns: set<NetworkId>, n: NetworkId)
    ensures n !in ns ==> (n in BumpAll(m, ns) <==> n in m) && (n in m ==> BumpAll(m, ns)[n] == m[n])
    ensures n in ns ==> n in BumpAll(m, ns) && BumpAll(m, ns)[n] == (if n in m then m[n] else 0) + 1
  {
  }

  /** A new revision, or nothing members could notice. */
  lemma MovedIsNumbered(s: State, t: State, n: NetworkId, moved: set<NetworkId>)
    requires t.revisions == BumpAll(s.revisions, moved) && (n in s.networks ==> n in t.networks && (n in moved || Unmoved(s, t, n)))
    ensures Numbered(s, t, n)
  {
    hide BumpAll, Unmoved, PeerStateOf;
    BumpsWithin(s.revisions, moved, n);
    if n in s.networks && n !in moved {
      UnmovedIsSame(s, t, n);
    }
  }

  lemma CapableIsNumbered(s: State, a: DeviceId, capable: bool, n: NetworkId)
    ensures Numbered(s, SetCapable(s, a, capable), n)
  {
    hide BumpAll, Numbered;
    MovedIsNumbered(s, SetCapable(s, a, capable), n, set m | m in NetworksOf(s, a) && s.networks[m].policy.managed);
  }

  lemma KeyIsNumbered(s: State, a: DeviceId, key: ActiveKey, n: NetworkId)
    ensures Numbered(s, PublishDeviceKey(s, a, key), n)
  {
    assert !Revoked(s, a) || Numbered(s, PublishDeviceKey(s, a, key), n);
    hide BumpAll, Numbered;
    if !Revoked(s, a) {
      assert NetworksOf(Recorded(s, a), a) == NetworksOf(s, a);
      BumpsWithin(s.keyEpochs, Owned(Recorded(s, a), a), n);
      MovedIsNumbered(s, PublishDeviceKey(s, a, key), n, NetworksOf(s, a));
    }
  }

  lemma KeyEndIsNumbered(s: State, a: DeviceId, session: SessionId, n: NetworkId)
    ensures Numbered(s, RemoveDeviceKey(s, a, session), n)
  {
    assert Numbered(s, s, n);
    hide BumpAll, Numbered;
    BumpsWithin(s.keyEpochs, Owned(s, a), n);
    if a in s.activeKeys && s.activeKeys[a].session == session {
      MovedIsNumbered(s, RemoveDeviceKey(s, a, session), n, NetworksOf(s, a));
    }
  }

  lemma RevocationMoves(s: State, a: DeviceId, d: DeviceId, n: NetworkId)
    requires RevokeDevice(s, a, d).1 == Done
    ensures var t := RevokeDevice(s, a, d).0;
      && t.revisions == BumpAll(s.revisions, NetworksOf(s, d)) && t.networks.Keys == s.networks.Keys
      && (n in s.networks && d !in s.networks[n].leases ==> Unmoved(s, t, n))
  {
    hide WithoutMember, Exhausted, BumpAll, AccountOf;
    assert NetworksOf(Recorded(s, a), d) == NetworksOf(s, d);
    BumpsWithin(s.keyEpochs, NetworksOf(s, d), n);
  }

  lemma RevocationIsNumbered(s: State, a: DeviceId, d: DeviceId, n: NetworkId)
    ensures Numbered(s, RevokeDevice(s, a, d).0, n)
  {
    if RevokeDevice(s, a, d).1 == Done {
      hide RevokeDevice, Numbered, BumpAll, Unmoved;
      RevocationMoves(s, a, d, n);
      MovedIsNumbered(s, RevokeDevice(s, a, d).0, n, NetworksOf(s, d));
    } else {
      hide LeftAll, Exhausted, BumpAll, AccountOf;
      assert RevokeDevice(s, a, d).0 == Recorded(s, a);
    }
  }

  lemma AccountIsNumbered(s: State, a: DeviceId, account: AccountId, valid: bool, n: NetworkId)
    ensures Numbered(s, CreateAccount(s, a, account).0, n) && Numbered(s, EnrolDevice(s, a, account, valid).0, n)
  {
  }

  // ---- Every event, every run ----

  lemma EntryCounts(s: State, e: Event, n: NetworkId)
    requires e.Create? || e.Join? || e.PasswordJoin? || e.Redeem? || e.Approve?
    ensures Counted(s, Handle(s, e).0, n)
  {
    hide Counted, JoinNetwork, RedeemInvite, LeaveNetwork, KickMember, ApproveMember, InviteMember, ManageNetwork, CreateNetwork, SetPassword,
         JoinWithPassword, PublishNetworkKeys, SetCapable, CreateAccount, EnrolDevice, RevokeDevice;
    match e
    case Create(a, m, password) => CreateCounts(s, a, m, password, n);
    case Join(a, m) => JoinCounts(s, a, m, false, n);
    case PasswordJoin(a, m, matches) => PasswordJoinCounts(s, a, m, matches, n);
    case Redeem(a, m, valid) => RedeemCounts(s, a, m, valid, n);
    case Approve(a, m, d) => ApproveCounts(s, a, m, d, n);
  }

  lemma HandleCounts(s: State, e: Event, n: NetworkId)
    requires !e.Negotiated? && !e.OpenAccount? && !e.Enrol? && !e.Revoke?
    ensures Counted(s, Handle(s, e).0, n)
  {
    NothingCounts(s, n);
    hide Counted, JoinNetwork, RedeemInvite, LeaveNetwork, KickMember, ApproveMember, InviteMember, ManageNetwork, CreateNetwork, SetPassword,
         JoinWithPassword, PublishNetworkKeys, SetCapable, CreateAccount, EnrolDevice, RevokeDevice;
    if e.Create? || e.Join? || e.PasswordJoin? || e.Redeem? || e.Approve? {
      hide Handle;
      EntryCounts(s, e, n);
    } else {
      match e
      case ChangePassword(a, m, password) => PasswordCounts(s, a, m, password, n);
      case Leave(a, m) => LeaveCounts(s, a, m, n);
      case Kick(a, m, d) => KickCounts(s, a, m, d, n);
      case Invite(a, m, d) => InviteCounts(s, a, m, d, n);
      case Manage(a, m, action, q) => ManageCounts(s, a, m, action, q, n);
      case _ =>
    }
  }

  lemma HandleIsNumbered(s: State, e: Event, n: NetworkId)
    requires IsRequest(e)
    ensures Numbered(s, Handle(s, e).0, n)
  {
    assert Numbered(s, s, n);
    if !(e.Negotiated? || e.OpenAccount? || e.Enrol? || e.Revoke?) {
      hide Handle, Numbered, Counted, SameAccess;
      HandleCounts(s, e, n);
      HandleFrame(s, e);
      CountedIsNumbered(s, Handle(s, e).0, n);
    } else {
      hide Numbered, SetCapable, CreateAccount, EnrolDevice, RevokeDevice;
      match e
      case Negotiated(a, supported) => CapableIsNumbered(s, a, supported, n);
      case OpenAccount(a, account) => AccountIsNumbered(s, a, account, false, n);
      case Enrol(a, account, valid) => AccountIsNumbered(s, a, account, valid, n);
      case Revoke(a, d) => RevocationIsNumbered(s, a, d, n);
    }
  }

  lemma SessionIsNumbered(s: State, a: DeviceId, key: ActiveKey, n: NetworkId)
    ensures Numbered(s, SetCapable(s, a, false), n) && Numbered(s, PublishDeviceKey(SetCapable(s, a, false), a, key), n)
  {
    hide Numbered, SetCapable, PublishDeviceKey;
    var quiet := SetCapable(s, a, false);
    CapableIsNumbered(s, a, false, n);
    KeyIsNumbered(quiet, a, key, n);
    NumberedChains(s, quiet, PublishDeviceKey(quiet, a, key), n);
  }

  /** No event changes what the members of a network are told without a new revision. */
  lemma StepIsNumbered(s: State, e: Event, n: NetworkId)
    ensures Numbered(s, Step(s, e).state, n)
  {
    assert Numbered(s, s, n);
    hide Handle, Numbered;
    if IsRequest(e) {
      hide Step;
      Answered(s, e);
      HandleIsNumbered(s, e, n);
    } else {
      hide RoutePacket, SetCapable, PublishDeviceKey, RemoveDeviceKey;
      match e
      case Authenticated(a, key, _) => SessionIsNumbered(s, a, key, n);
      case Disconnected(a, session) => KeyEndIsNumbered(s, a, session, n);
      case Send(_, _, _) =>
    }
  }

  lemma {:induction false} RunIsNumbered(s: State, es: seq<Event>, n: NetworkId)
    ensures Numbered(s, After(s, es), n)
    decreases |es|
  {
    assert Numbered(s, s, n);
    hide Numbered, Step;
    if es != [] {
      var t := Step(s, es[0]).state;
      StepIsNumbered(s, es[0], n);
      RunIsNumbered(t, es[1..], n);
      NumberedChains(s, t, After(s, es), n);
    }
  }

  lemma {:induction false} AfterBoth(s: State, es: seq<Event>, fs: seq<Event>)
    ensures After(s, es + fs) == After(After(s, es), fs)
    decreases |es|
  {
    hide Step;
    if es == [] {
      assert es + fs == fs;
    } else {
      assert (es + fs)[1..] == es[1..] + fs;
      AfterBoth(Step(s, es[0]).state, es[1..], fs);
    }
  }

  /** At two moments of a run with the same revision the members are told the same. */
  lemma OneRevisionOneState(s: State, es: seq<Event>, n: NetworkId, i: nat, j: nat)
    requires i <= j <= |es|
    requires var a, b := After(s, es[..i]), After(s, es[..j]); n in a.networks && n in b.networks && RevisionOf(a, n) == RevisionOf(b, n)
    ensures PeerStateOf(After(s, es[..i]), n) == PeerStateOf(After(s, es[..j]), n)
  {
    hide Step, PeerStateOf;
    AfterBoth(s, es[..i], es[i..j]);
    assert es[..i] + es[i..j] == es[..j];
    RunIsNumbered(After(s, es[..i]), es[i..j], n);
  }

  // ---- Routing ----

  lemma SamePolicySameTraffic(p: NetworkPolicy, q: NetworkPolicy, a: DeviceId, d: DeviceId)
    requires p.managed == q.managed && (p.managed ==> p == q)
    ensures SamePermission(p, q, a, d)
  {
  }

  lemma ConnectedIsHeard(s: State, n: NetworkId, a: DeviceId)
    requires Inv(s) && n in s.networks
    ensures a in PeerStateOf(s, n).keys ==> Heard(s, a)
    ensures Acceptable(s.networks[n].policy)
  {
    PolicyOf(s, n);
    hide NetworksSound, NetworksApart, MembersKnown, AccountsSound, EpochsSound;
  }

  /** What is routed in a network is settled by what its members have been told. */
  lemma RoutingFollowsPeerState(s: State, t: State, a: DeviceId, p: Packet, d: DeviceId)
    requires Inv(s) && Inv(t) && p.network in s.networks && p.network in t.networks && PeerStateOf(s, p.network) == PeerStateOf(t, p.network)
    ensures d in RoutePacket(s, a, p, true) <==> d in RoutePacket(t, a, p, true)
  {
    var n := p.network;
    ConnectedIsHeard(s, n, a);
    ConnectedIsHeard(t, n, a);
    RoutedExactly(s, a, p, d);
    RoutedExactly(t, a, p, d);
    FanoutIsListed(s.networks[n].policy, a, d);
    FanoutIsListed(t.networks[n].policy, a, d);
    SamePolicySameTraffic(s.networks[n].policy, t.networks[n].policy, a, d);
    LinkedByKeys(s, a, d, n);
    LinkedByKeys(t, a, d, n);
    hide Inv, Acceptable, RoutePacket, PairAllowed, FanoutAllowed, MayFanOut, MeansEveryone, Linked;
  }

  lemma LinkedByKeys(s: State, a: DeviceId, d: DeviceId, n: NetworkId)
    requires n in s.networks && (a in PeerStateOf(s, n).keys ==> Heard(s, a))
    ensures Linked(s, a, d, n) <==> a != d && a in PeerStateOf(s, n).keys && d in PeerStateOf(s, n).keys
  {
    hide Heard;
  }

  /** While a network's revision stays, so does everything the relay routes in it. */
  lemma RoutingIsAnnounced(s: State, es: seq<Event>, i: nat, j: nat, a: DeviceId, p: Packet)
    requires Inv(s) && i <= j <= |es|
    requires var t, u := After(s, es[..i]), After(s, es[..j]);
      p.network in t.networks && p.network in u.networks && RevisionOf(t, p.network) == RevisionOf(u, p.network)
    ensures RoutePacket(After(s, es[..i]), a, p, true) == RoutePacket(After(s, es[..j]), a, p, true)
  {
    hide Inv, PeerStateOf, RoutePacket;
    var t, u := After(s, es[..i]), After(s, es[..j]);
    OneRevisionOneState(s, es, p.network, i, j);
    RunKeepsInv(s, es[..i]);
    RunKeepsInv(s, es[..j]);
    forall d ensures d in RoutePacket(t, a, p, true) <==> d in RoutePacket(u, a, p, true) {
      RoutingFollowsPeerState(t, u, a, p, d);
    }
  }
}
