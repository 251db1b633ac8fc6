/** Runs of the relay, from an empty store, that reach what the theorems are about. */
module RelayScenarios {
  import opened Bytes
  import opened Policy
  import opened PolicyCodec
  import opened Relay
  import opened RelayRuns
  import opened RelaySafety

  /** A relay nobody has used. */
  const UNUSED := State(map[], {}, map[], map[], map[], {}, map[], map[])

  const OWNER_KEY := ActiveKey([1], [1])
  const MEMBER_KEY := ActiveKey([2], [2])

  ghost predicate Distinguished(owner: DeviceId, member: DeviceId, n: NetworkId)
  {
    owner != member && owner != ZERO_DEVICE && member != ZERO_DEVICE && n != ZERO_NETWORK
  }

  /** A network of an owner and one member. */
  function Couple(owner: DeviceId, member: DeviceId, policy: NetworkPolicy): (net: Network)
  {
    Network(owner, POOL_FIRST, map[owner := POOL_FIRST + 1, member := POOL_FIRST + 2], policy, {}, {}, None)
  }

  /** Both connect, the owner creates the network and invites, the member joins. */
  function Joining(owner: DeviceId, member: DeviceId, n: NetworkId): (run: seq<Event>)
  {
    [Authenticated(owner, OWNER_KEY, true), Authenticated(member, MEMBER_KEY, true), Create(owner, n, None), Invite(owner, n, member), Join(member, n)]
  }

  function Paired(owner: DeviceId, member: DeviceId, n: NetworkId): (s: State)
  {
    State(map[n := Couple(owner, member, UNMANAGED)], {owner, member}, map[], map[], map[owner := OWNER_KEY, member := MEMBER_KEY], {},
          map[n := 2], map[n := 2])
  }

  // ---- The run, step by step ----

  lemma ManagedAmong(s: State, d: DeviceId)
    ensures (set n | n in NetworksOf(s, d) && s.networks[n].policy.managed) <= NetworksOf(s, d)
  {
  }

  lemma OneValue<K, V>(k: K, v: V)
    ensures map[k := v].Values == {v}
  {
    assert map[k := v][k] == v;
  }

  lemma AuthenticateFirst(s: State, a: DeviceId, key: ActiveKey)
    requires s.networks == map[] && s.enrolled == map[] && s.capable == {} && a != ZERO_DEVICE
    ensures Step(s, Authenticated(a, key, true)).state == s.(devices := s.devices + {a}, activeKeys := s.activeKeys[a := key])
  {
    var q := SetCapable(s, a, false);
    assert NetworksOf(s, a) == {} && NetworksOf(Recorded(q, a), a) == {} && Owned(Recorded(q, a), a) == {};
    ManagedAmong(s, a);
    assert BumpAll(s.revisions, {}) == s.revisions && BumpAll(s.keyEpochs, {}) == s.keyEpochs;
  }

  lemma CreateFirst(s: State, owner: DeviceId, n: NetworkId)
    requires s.networks == map[] && s.enrolled == map[] && owner != ZERO_DEVICE && owner in s.devices && n != ZERO_NETWORK
    ensures var net := Network(owner, POOL_FIRST, map[owner := POOL_FIRST + 1], UNMANAGED, {}, {}, None);
      Step(s, Create(owner, n, None)).state ==
        s.(networks := map[n := net], keyEpochs := Bump(s.keyEpochs, n), revisions := Bump(s.revisions, n))
  {
    hide Bump;
    var r := Recorded(s, owner);
    assert r == s;
    assert NetworksOf(r, owner) == {};
    var used := UsedSubnets(r);
    assert used == {};
    assert FirstFree(used, POOL_FIRST, SUBNET_SIZE, POOL_END) == Some(POOL_FIRST);
    var empty := Network(owner, POOL_FIRST, map[], UNMANAGED, {}, {}, None);
    assert empty.leases.Values == {} && empty.leases[owner := POOL_FIRST + 1] == map[owner := POOL_FIRST + 1];
    assert empty.invited - {owner} == {} && empty.pending - {owner} == {};
    assert WithMember(empty, owner) == Some(Network(owner, POOL_FIRST, map[owner := POOL_FIRST + 1], UNMANAGED, {}, {}, None));
  }

  lemma OneNetwork(s: State, n: NetworkId, d: DeviceId)
    requires s.networks.Keys == {n}
    ensures !NetworkLimitReached(s, d)
  {
    assert NetworksOf(s, d) <= {n};
    assert {n} - NetworksOf(s, d) + NetworksOf(s, d) == {n};
  }

  lemma InviteSecond(s: State, n: NetworkId, net: Network, member: DeviceId)
    requires s.networks == map[n := net] && s.enrolled == map[] && net.owner != ZERO_DEVICE && net.owner in s.devices
    requires member in s.devices && member != ZERO_DEVICE && member !in net.leases && net.invited == {} && net.pending == {}
    ensures Step(s, Invite(net.owner, n, member)).state == s.(networks := map[n := net.(invited := {member})])
  {
    hide NetworkLimitReached;
    assert Recorded(s, net.owner) == s;
    OneNetwork(s, n, member);
    assert net.invited + {member} == {member};
    assert s.networks[n := net.(invited := {member})] == map[n := net.(invited := {member})];
  }

  lemma JoinSecond(s: State, n: NetworkId, net: Network, member: DeviceId)
    requires s.networks == map[n := net] && s.enrolled == map[] && member in s.devices && member != ZERO_DEVICE
    requires net == Network(net.owner, POOL_FIRST, map[net.owner := POOL_FIRST + 1], UNMANAGED, {member}, {}, None) && member != net.owner
    ensures Step(s, Join(member, n)).state ==
      s.(networks := map[n := Couple(net.owner, member, UNMANAGED)], keyEpochs := Bump(s.keyEpochs, n), revisions := Bump(s.revisions, n))
  {
    hide NetworkLimitReached, Bump;
    assert Recorded(s, member) == s;
    OneNetwork(s, n, member);
    OneValue(net.owner, POOL_FIRST + 1);
    assert net.leases == map[net.owner := POOL_FIRST + 1];
    var used := net.leases.Values;
    assert FirstFree(used, POOL_FIRST + 2, 1, POOL_FIRST + SUBNET_SIZE - 1) == Some(POOL_FIRST + 2);
    assert net.leases[member := POOL_FIRST + 2] == map[net.owner := POOL_FIRST + 1, member := POOL_FIRST + 2];
    assert net.invited - {member} == {} && net.pending - {member} == {};
    assert WithMember(net, member) == Some(Couple(net.owner, member, UNMANAGED));
    assert s.networks[n := Couple(net.owner, member, UNMANAGED)] == map[n := Couple(net.owner, member, UNMANAGED)];
  }

  lemma {:induction false} AfterOne(s: State, e: Event, rest: seq<Event>)
    ensures After(s, [e] + rest) == After(Step(s, e).state, rest)
  {
    hide Step;
    assert ([e] + rest)[1..] == rest;
  }

  lemma AfterFive(s: State, a: Event, b: Event, c: Event, d: Event, e: Event)
    ensures After(s, [a, b, c, d, e]) ==
      Step(Step(Step(Step(Step(s, a).state, b).state, c).state, d).state, e).state
  {
    hide Step;
    assert [a, b, c, d, e] == [a] + [b, c, d, e] && [b, c, d, e] == [b] + [c, d, e] && [c, d, e] == [c] + [d, e] && [d, e] == [d] + [e];
    AfterOne(s, a, [b, c, d, e]);
    var s1 := Step(s, a).state;
    AfterOne(s1, b, [c, d, e]);
    var s2 := Step(s1, b).state;
    AfterOne(s2, c, [d, e]);
    var s3 := Step(s2, c).state;
    AfterOne(s3, d, [e]);
    var s4 := Step(s3, d).state;
    assert [e] == [e] + [];
    AfterOne(s4, e, []);
  }

  lemma UnusedIsSound()
    ensures Inv(UNUSED)
  {
    EmptyIsSound(UNUSED);
  }

  /** The run pairs the two devices. */
  lemma JoiningPairs(owner: DeviceId, member: DeviceId, n: NetworkId)
    requires Distinguished(owner, member, n)
    ensures After(UNUSED, Joining(owner, member, n)) == Paired(owner, member, n)
  {
    hide Step, After;
    AuthenticateFirst(UNUSED, owner, OWNER_KEY);
    var s1 := UNUSED.(devices := UNUSED.devices + {owner}, activeKeys := UNUSED.activeKeys[owner := OWNER_KEY]);
    AuthenticateFirst(s1, member, MEMBER_KEY);
    var s2 := s1.(devices := s1.devices + {member}, activeKeys := s1.activeKeys[member := MEMBER_KEY]);
    CreateFirst(s2, owner, n);
    var net := Network(owner, POOL_FIRST, map[owner := POOL_FIRST + 1], UNMANAGED, {}, {}, None);
    var s3 := s2.(networks := map[n := net], keyEpochs := Bump(s2.keyEpochs, n), revisions := Bump(s2.revisions, n));
    InviteSecond(s3, n, net, member);
    var s4 := s3.(networks := map[n := net.(invited := {member})]);
    JoinSecond(s4, n, net.(invited := {member}), member);
    AfterFive(UNUSED, Authenticated(owner, OWNER_KEY, true), Authenticated(member, MEMBER_KEY, true), Create(owner, n, None), Invite(owner, n, member), Join(member, n));
    assert s2.activeKeys == map[owner := OWNER_KEY, member := MEMBER_KEY];
    assert Bump(Bump(map[], n), n) == map[n := 2];
  }

  lemma PairedIsReached(owner: DeviceId, member: DeviceId, n: NetworkId)
    requires Distinguished(owner, member, n)
    ensures After(UNUSED, Joining(owner, member, n)) == Paired(owner, member, n) && Inv(Paired(owner, member, n))
  {
    hide Step, After, Inv, Paired;
    UnusedIsSound();
    RunKeepsInv(UNUSED, Joining(owner, member, n));
    JoiningPairs(owner, member, n);
  }

  // ---- An epoch that does not move, and one that does ----

  lemma LeavingUnmanaged(d: DeviceId)
    ensures Without(UNMANAGED, d) == UNMANAGED && !Exhausted(UNMANAGED, d)
  {
  }

  lemma MemberMayLeave(owner: DeviceId, member: DeviceId, s: State, n: NetworkId)
    requires owner != member && member != ZERO_DEVICE && s.networks == map[n := Couple(owner, member, UNMANAGED)] && s.enrolled == map[]
    ensures Step(s, Leave(member, n)).code == Done && IsMember(s, n, member)
  {
    LeavingUnmanaged(member);
    hide Without;
  }

  lemma MemberReturns(s: State, member: DeviceId, key: ActiveKey)
    requires s.enrolled == map[] && s.keyEpochs == map[] && member != ZERO_DEVICE && Owned(s, member) == {}
    ensures var t := Step(s, Authenticated(member, key, true)).state; t.networks == s.networks && t.keyEpochs == map[] && t.enrolled == map[]
  {
    var q := Recorded(SetCapable(s, member, false), member);
    assert Owned(q, member) == Owned(s, member);
    assert BumpAll(map[], {}) == map[];
  }

  /**
    * A run in which a member leaves and the epoch stays at one: the two pair up,
    * the relay restarts, and the member connects again and leaves.
    */
  lemma FirstChangeIsInvisible(owner: DeviceId, member: DeviceId, n: NetworkId)
    requires Distinguished(owner, member, n)
    ensures var s := After(Restarted(After(UNUSED, Joining(owner, member, n))), [Authenticated(member, MEMBER_KEY, true)]);
      && Inv(s) && Step(s, Leave(member, n)).code == Done && IsMember(s, n, member)
      && EpochOf(Step(s, Leave(member, n)).state, n) == EpochOf(s, n) == 1
  {
    hide Step, Inv, After;
    PairedIsReached(owner, member, n);
    var p := Restarted(Paired(owner, member, n));
    RestartKeepsInv(Paired(owner, member, n));
    var back := Authenticated(member, MEMBER_KEY, true);
    RunKeepsInv(p, [back]);
    assert [back] == [back] + [];
    AfterOne(p, back, []);
    NothingHappens(Step(p, back).state);
    assert Owned(p, member) == {};
    MemberReturns(p, member, MEMBER_KEY);
    var s := Step(p, back).state;
    MemberMayLeave(owner, member, s, n);
    EpochMovesExactly(s, Leave(member, n), n);
    StepFollows(s, Leave(member, n), n);
  }

  lemma NothingHappens(s: State)
    ensures After(s, []) == s
  {
  }

  lemma OneEnvelopePasses(s: State, e: Envelope)
    requires e.owner != ZERO_DEVICE && e.recipient != e.owner && e.signed && e.network in s.networks
    requires var net := s.networks[e.network]; net.owner == e.owner && !net.policy.managed && e.recipient in net.leases
    requires e.owner in s.activeKeys && s.activeKeys[e.owner].key == e.ownerKey
    requires e.recipient in s.activeKeys && s.activeKeys[e.recipient].key == e.recipientKey && e.epoch == EpochOf(s, e.network)
    ensures PublishNetworkKeys(s, e.owner, [e]) == Done
  {
    assert [e][1..] == [];
    assert EnvelopesCode(s, e.network, e.owner, {} + {e.recipient}, []) == Done;
  }

  /** A run to a publication that is accepted and a change that retires it: the owner publishes and the member leaves. */
  lemma PublicationThenLeave(owner: DeviceId, member: DeviceId, n: NetworkId)
    requires Distinguished(owner, member, n)
    ensures var s := After(UNUSED, Joining(owner, member, n));
      && Inv(s) && Accepted(s, PublishKeys(owner, [Envelope(n, owner, member, 2, [1], [2], true)]), n)
      && ChangeOf(s, Leave(member, n), n) == Removed(member)
  {
    hide Inv, After, SetCapable, PublishDeviceKey, RemoveDeviceKey, CreateNetwork, JoinNetwork, LeaveNetwork, InviteMember, ApproveMember, KickMember,
         ManageNetwork, CreateAccount, EnrolDevice, RevokeDevice, SetPassword, JoinWithPassword, RedeemInvite, RoutePacket, PublishNetworkKeys;
    PairedIsReached(owner, member, n);
    var s := Paired(owner, member, n);
    MemberMayLeave(owner, member, s, n);
    OneEnvelopePasses(s, Envelope(n, owner, member, 2, [1], [2], true));
  }

  // ---- An administrator that leaves ----

  /** A managed mesh whose one listed member is an administrator. */
  function Appointing(member: DeviceId, revision: u64): (p: NetworkPolicy)
  {
    NetworkPolicy(revision, true, MESH, [], [], [], [Member(member, ADMINISTRATOR, MEMBERS)], [], [])
  }

  /** After pairing, the owner turns out to support management and appoints the member. */
  function Appointment(owner: DeviceId, member: DeviceId, n: NetworkId): (run: seq<Event>)
  {
    [Negotiated(owner, true), Manage(owner, n, ReplacePolicy, Appointing(member, 0))]
  }

  function Appointed(owner: DeviceId, member: DeviceId, n: NetworkId): (s: State)
  {
    Paired(owner, member, n).(capable := {owner}, networks := map[n := Couple(owner, member, Appointing(member, 1))],
                              keyEpochs := map[n := 3], revisions := map[n := 3])
  }

  lemma NegotiatedOwner(owner: DeviceId, member: DeviceId, n: NetworkId)
    requires Distinguished(owner, member, n)
    ensures Step(Paired(owner, member, n), Negotiated(owner, true)).state == Paired(owner, member, n).(capable := {owner})
  {
    var s := Paired(owner, member, n);
    var managed := set m | m in NetworksOf(s, owner) && s.networks[m].policy.managed;
    assert managed == {};
    assert BumpAll(s.revisions, {}) == s.revisions;
    assert s.capable + {owner} == {owner};
  }

  lemma AppointingIsAcceptable(member: DeviceId, revision: u64)
    requires member != ZERO_DEVICE
    ensures Acceptable(Appointing(member, revision))
  {
  }

  lemma OwnerMayAppoint(owner: DeviceId, member: DeviceId, n: NetworkId)
    requires Distinguished(owner, member, n)
    ensures ManageCode(Paired(owner, member, n).(capable := {owner}), owner, n, ReplacePolicy, Appointing(member, 0)) == Done
  {
    hide Acceptable;
    AppointingIsAcceptable(member, 0);
    var s, p := Paired(owner, member, n).(capable := {owner}), Appointing(member, 0);
    assert GatewaysCode(s.networks[n], p, ReplacePolicy, owner, []) == Done;
    assert RoutesCode(s, n, []) == Done;
    assert AssignmentsValid(s, s.networks[n], p);
    assert SubjectsPresent(s.networks[n], p);
    assert CanManage(s, n, owner);
  }

  lemma AppointmentHappens(owner: DeviceId, member: DeviceId, n: NetworkId)
    requires Distinguished(owner, member, n)
    ensures After(UNUSED, Joining(owner, member, n) + Appointment(owner, member, n)) == Appointed(owner, member, n)
    ensures Inv(Appointed(owner, member, n))
  {
    hide Inv, After, ManageCode, Joining;
    var joining, s := Joining(owner, member, n), Paired(owner, member, n);
    PairedIsReached(owner, member, n);
    AfterBoth(UNUSED, joining, Appointment(owner, member, n));
    UnusedIsSound();
    RunKeepsInv(UNUSED, joining + Appointment(owner, member, n));
    NegotiatedOwner(owner, member, n);
    OwnerMayAppoint(owner, member, n);
    var t, e := s.(capable := {owner}), Manage(owner, n, ReplacePolicy, Appointing(member, 0));
    assert Appointment(owner, member, n) == [Negotiated(owner, true)] + [e] && [e] == [e] + [];
    AfterOne(s, Negotiated(owner, true), [e]);
    AfterOne(t, e, []);
    NothingHappens(Step(t, e).state);
    AppointedState(owner, member, n);
  }

  lemma AppointedState(owner: DeviceId, member: DeviceId, n: NetworkId)
    requires Distinguished(owner, member, n)
    requires ManageCode(Paired(owner, member, n).(capable := {owner}), owner, n, ReplacePolicy, Appointing(member, 0)) == Done
    ensures Step(Paired(owner, member, n).(capable := {owner}), Manage(owner, n, ReplacePolicy, Appointing(member, 0))).state == Appointed(owner, member, n)
  {
    hide ManageCode;
    var t := Paired(owner, member, n).(capable := {owner});
    assert Bump(t.keyEpochs, n) == map[n := 3] && Bump(t.revisions, n) == map[n := 3];
    var net := Couple(owner, member, Appointing(member, 1));
    assert t.networks[n := net] == map[n := net];
  }

  lemma {:induction false} AfterBoth(s: State, es: seq<Event>, fs: seq<Event>)
    ensures After(s, es + fs) == After(After(s, es), fs)
    decreases |es|
  {
    hide Step;
    if es == [] {
      assert es + fs == fs;
    } else {
      assert (es + fs)[1..] == es[1..] + fs;
      AfterBoth(Step(s, es[0]).state, es[1..], fs);
    }
  }

  /** A run in which a role changes without the owner: the administrator it appointed leaves. */
  lemma AdministratorLeaves(owner: DeviceId, member: DeviceId, n: NetworkId)
    requires Distinguished(owner, member, n)
    ensures var s := After(UNUSED, Joining(owner, member, n) + Appointment(owner, member, n)); var t := Step(s, Leave(member, n));
      && Inv(s) && t.code == Done && n in s.networks && n in t.state.networks
      && Role(s.networks[n].policy, member) == ADMINISTRATOR && Role(t.state.networks[n].policy, member) == MEMBER
  {
    hide Inv, After;
    AppointmentHappens(owner, member, n);
    var s := Appointed(owner, member, n);
    AdministratorMayLeave(owner, member, n);
    assert s.networks[n].policy.members[0] == Member(member, ADMINISTRATOR, MEMBERS);
    hide Step;
    OnlyTheOwnerChangesRoles(s, Leave(member, n), n, member);
  }

  lemma AdministratorMayLeave(owner: DeviceId, member: DeviceId, n: NetworkId)
    requires Distinguished(owner, member, n)
    ensures Step(Appointed(owner, member, n), Leave(member, n)).code == Done
  {
    hide Without;
  }
}
