/**
  * When the relay says yes. For each request the condition is written on the
  * fields of the state alone, so that it can be compared with what the caller
  * knows and not with how the answer is computed.
  */
module RelayAnswers {
  import Arithmetic
  import opened Bytes
  import opened Policy
  import opened PolicyCodec
  import opened Ipv4Fanout
  import opened Relay
  import opened RelayPolicies
  import opened RelayRuns
  import opened RelaySafety

  /** A request reaches the service: it comes from a real device that is not revoked. */
  predicate Heard(s: State, a: DeviceId)
  {
    a != ZERO_DEVICE && !(a in s.enrolled && s.enrolled[a].revoked)
  }

  /** The policy lists the device with the role. */
  predicate ListedAs(p: NetworkPolicy, d: DeviceId, role: byte)
  {
    exists i :: 0 <= i < |p.members| && p.members[i].device == d && p.members[i].role == role
  }

  /** The owner, or a connected member of a managed network that its policy lists as an administrator (role 1). */
  predicate MayManage(s: State, n: NetworkId, a: DeviceId)
  {
    && n in s.networks
    && (|| a == s.networks[n].owner
        || (&& s.networks[n].policy.managed && a in s.networks[n].leases && a in s.capable
            && ListedAs(s.networks[n].policy, a, 1)))
  }

  // ---- Roles ----

  lemma RoleIfListed(p: NetworkPolicy, d: DeviceId, role: byte)
    requires Acceptable(p) && role != 0
    ensures Role(p, d) == role <==> ListedAs(p, d, role)
  {
    RoleIsListed(p.members, d);
    assert Distinct(MemberDevices(p.members));
    forall i, j | 0 <= i < |p.members| && 0 <= j < |p.members| && p.members[i].device == p.members[j].device ensures i == j {
      assert MemberDevices(p.members)[i] == MemberDevices(p.members)[j];
    }
  }

  lemma PolicyOf(s: State, n: NetworkId)
    requires Inv(s) && n in s.networks
    ensures Acceptable(s.networks[n].policy) && Addressed(s.networks[n]) && s.networks[n].leases.Keys <= s.devices
    ensures s.networks[n].owner in s.networks[n].leases && ZERO_DEVICE !in s.networks[n].leases
  {
    hide Acceptable, Addressed, Anchored, NetworksApart, AccountsSound, KeysSound, EpochsSound, RoutesOutsidePool;
    assert SoundNetwork(s.networks[n]);
  }

  lemma AuthorityIsListed(s: State, n: NetworkId, a: DeviceId)
    requires Inv(s) && Heard(s, a)
    ensures CanManage(s, n, a) <==> MayManage(s, n, a)
    ensures CanManage(Recorded(s, a), n, a) <==> MayManage(s, n, a)
  {
    hide Inv, Acceptable, Addressed, Role, ListedAs;
    if n in s.networks {
      PolicyOf(s, n);
      RoleIfListed(s.networks[n].policy, a, ADMINISTRATOR);
    }
  }

  // ---- Room for members ----

  function Hosts(base: nat, n: nat): (r: set<nat>)
    ensures |r| == n && forall x :: x in r <==> base < x <= base + n
  {
    if n == 0 then {} else Hosts(base, n - 1) + {base + n}
  }

  lemma {:induction false} FirstFreeExists(used: set<PoolAddress>, candidate: nat, limit: nat)
    requires POOL_FIRST <= candidate && limit <= POOL_END
    ensures FirstFree(used, candidate, 1, limit).None? <==> forall x :: candidate <= x < limit ==> x in used
    decreases limit - candidate
  {
    if candidate < limit && candidate in used {
      FirstFreeExists(used, candidate + 1, limit);
    }
  }

  lemma SubsetSize<T>(a: set<T>, b: set<T>)
    requires a <= b
    ensures |a| <= |b| && (|a| == |b| ==> a == b)
  {
    assert b == a + (b - a);
  }

  lemma {:induction false} InjectiveValues<K(!new), V(!new)>(m: map<K, V>)
    requires forall a, b :: a in m && b in m && a != b ==> m[a] != m[b]
    ensures |m.Values| == |m|
    decreases |m|
  {
    if m == map[] {
      assert m.Values == {};
    } else {
      var k :| k in m;
      var rest := m - {k};
      assert forall a :: a in rest ==> a in m && rest[a] == m[a];
      InjectiveValues(rest);
      assert m.Values == rest.Values + {m[k]};
      assert m[k] !in rest.Values;
      assert m.Keys == rest.Keys + {k} && |m| == |m.Keys| && |rest| == |rest.Keys|;
    }
  }

  /** A subnet has room for 254 members and no more. */
  lemma RoomFor254(net: Network, d: DeviceId)
    requires Addressed(net)
    ensures WithMember(net, d).Some? <==> |net.leases| < 254
  {
    hide FirstFree;
    var used, limit := net.leases.Values, net.subnet + SUBNET_SIZE - 1;
    SubnetEnds(net.subnet);
    FirstFreeExists(used, net.subnet + 1, limit);
    InjectiveValues(net.leases);
    FullExactly(used, net.subnet);
  }

  lemma FullExactly(used: set<nat>, base: nat)
    requires forall x :: x in used ==> base < x <= base + 254
    ensures |used| <= 254 && (|used| == 254 <==> forall x :: base + 1 <= x < base + 255 ==> x in used)
  {
    var hosts := Hosts(base, 254);
    hide Hosts;
    SubsetSize(used, hosts);
    if forall x :: base + 1 <= x < base + 255 ==> x in used {
      assert hosts <= used;
      SubsetSize(hosts, used);
    }
  }

  lemma SubnetEnds(a: PoolAddress)
    requires a % SUBNET_SIZE == 0
    ensures a + SUBNET_SIZE <= POOL_END
  {
  }

  // ---- Control requests ----

  predicate IsRequest(e: Event)
  {
    !e.Authenticated? && !e.Disconnected? && !e.Send?
  }

  lemma Answered(s: State, e: Event)
    requires IsRequest(e)
    ensures Heard(s, e.actor) ==> Step(s, e).code == Handle(s, e).1 && Step(s, e).state == Handle(s, e).0
    ensures !Heard(s, e.actor) ==> Step(s, e).code == Refused && Step(s, e).state == s
  {
    hide Handle;
  }

  lemma SameNetworksOf(s: State, a: DeviceId, d: DeviceId)
    ensures NetworksOf(Recorded(s, a), d) == NetworksOf(s, d)
  {
  }

  /** What two requests about a member need from the one who asks. */
  predicate MayAskAbout(s: State, a: DeviceId, n: NetworkId, d: DeviceId)
  {
    Heard(s, a) && d != ZERO_DEVICE && MayManage(s, n, a) && (d in s.devices || d == a)
  }

  /** A kick is carried out exactly for members other than the owner, asked for by someone in authority; only the owner kicks administrators. */
  lemma KickedExactly(s: State, a: DeviceId, n: NetworkId, d: DeviceId)
    requires Inv(s)
    ensures Step(s, Kick(a, n, d)).code == Done <==>
      && MayAskAbout(s, a, n, d) && d in s.networks[n].leases && d != s.networks[n].owner
      && (a == s.networks[n].owner || !ListedAs(s.networks[n].policy, d, 1)) && !Exhausted(s.networks[n].policy, d)
    ensures Step(s, Kick(a, n, d)).code == PermissionDenied <==>
      && Heard(s, a) && d != ZERO_DEVICE && n in s.networks
      && (!MayManage(s, n, a) || ((d in s.devices || d == a) && (d == s.networks[n].owner || (a != s.networks[n].owner && ListedAs(s.networks[n].policy, d, 1)))))
  {
    hide Inv, Step, MayManage, CanManage, ListedAs, Role, Exhausted, WithoutMember, Acceptable, Addressed;
    Answered(s, Kick(a, n, d));
    if Heard(s, a) {
      AuthorityIsListed(s, n, a);
      if n in s.networks {
        PolicyOf(s, n);
        RoleIfListed(s.networks[n].policy, d, ADMINISTRATOR);
      }
      MayManageNeeds(s, n, a);
    }
  }

  lemma MayManageNeeds(s: State, n: NetworkId, a: DeviceId)
    ensures MayManage(s, n, a) ==> n in s.networks
  {
  }

  /** An approval is carried out exactly for devices that asked to join, while there is room. */
  lemma ApprovedExactly(s: State, a: DeviceId, n: NetworkId, d: DeviceId)
    requires Inv(s)
    ensures Step(s, Approve(a, n, d)).code == Done <==>
      && MayAskAbout(s, a, n, d) && d !in s.networks[n].leases && d in s.networks[n].pending
      && |NetworksOf(s, d)| < 1024 && |s.networks[n].leases| < 254
    ensures Step(s, Approve(a, n, d)).code == PermissionDenied <==> Heard(s, a) && d != ZERO_DEVICE && n in s.networks && !MayManage(s, n, a)
  {
    hide Inv, Step, MayManage, CanManage, WithMember, Acceptable, Addressed, NetworksOf;
    Answered(s, Approve(a, n, d));
    SameNetworksOf(s, a, d);
    MayManageNeeds(s, n, a);
    if Heard(s, a) {
      AuthorityIsListed(s, n, a);
      if n in s.networks {
        PolicyOf(s, n);
        RoomFor254(s.networks[n], d);
      }
    }
  }

  lemma InvitedExactly(s: State, a: DeviceId, n: NetworkId, d: DeviceId)
    requires Inv(s)
    ensures Step(s, Invite(a, n, d)).code == Done <==>
      && MayAskAbout(s, a, n, d) && d !in s.networks[n].leases && d !in s.networks[n].invited && d !in s.networks[n].pending
      && |NetworksOf(s, d)| < 1024
    ensures Step(s, Invite(a, n, d)).code == PermissionDenied <==> Heard(s, a) && d != ZERO_DEVICE && n in s.networks && !MayManage(s, n, a)
  {
    hide Inv, Step, MayManage, CanManage, NetworksOf;
    Answered(s, Invite(a, n, d));
    SameNetworksOf(s, a, d);
    MayManageNeeds(s, n, a);
    if Heard(s, a) {
      AuthorityIsListed(s, n, a);
    }
  }

  lemma PasswordChangedExactly(s: State, a: DeviceId, n: NetworkId, password: Option<bool>)
    requires Inv(s)
    ensures Step(s, ChangePassword(a, n, password)).code == Done <==> Heard(s, a) && MayManage(s, n, a)
    ensures Step(s, ChangePassword(a, n, password)).code == PermissionDenied <==> Heard(s, a) && !MayManage(s, n, a)
    ensures Heard(s, a) && MayManage(s, n, a) ==>
      n in Step(s, ChangePassword(a, n, password)).state.networks && Step(s, ChangePassword(a, n, password)).state.networks[n].password == password
  {
    hide Inv, Step, MayManage, CanManage;
    Answered(s, ChangePassword(a, n, password));
    MayManageNeeds(s, n, a);
    if Heard(s, a) {
      AuthorityIsListed(s, n, a);
    }
  }

  lemma LeftExactly(s: State, a: DeviceId, n: NetworkId)
    ensures Step(s, Leave(a, n)).code == Done <==>
      Heard(s, a) && n in s.networks && a in s.networks[n].leases && a != s.networks[n].owner && !Exhausted(s.networks[n].policy, a)
  {
    hide Step, Exhausted, WithoutMember;
    Answered(s, Leave(a, n));
  }

  // ---- Joining ----

  /** Not yet a member, and below the limit of 1024 networks. */
  predicate MayEnter(s: State, n: NetworkId, d: DeviceId)
  {
    Heard(s, d) && n in s.networks && d !in s.networks[n].leases && |NetworksOf(s, d)| < 1024
  }

  /** A plain join succeeds exactly for invited devices; without a password the others have to wait for approval. */
  lemma JoinedExactly(s: State, d: DeviceId, n: NetworkId)
    requires Inv(s)
    ensures Step(s, Join(d, n)).code == Done <==> MayEnter(s, n, d) && d in s.networks[n].invited && |s.networks[n].leases| < 254
    ensures Step(s, Join(d, n)).code == PendingApproval <==> MayEnter(s, n, d) && d !in s.networks[n].invited && s.networks[n].password == None
    ensures Step(s, Join(d, n)).code == InviteRequired <==> MayEnter(s, n, d) && d !in s.networks[n].invited && s.networks[n].password != None
  {
    hide Inv, Step, WithMember, Acceptable, Addressed, NetworksOf;
    Answered(s, Join(d, n));
    SameNetworksOf(s, d, d);
    if n in s.networks {
      PolicyOf(s, n);
      RoomFor254(s.networks[n], d);
    }
  }

  /** The password admits at once unless it is one that still needs approval. */
  lemma PasswordJoinedExactly(s: State, d: DeviceId, n: NetworkId, matches: bool)
    requires Inv(s)
    ensures Step(s, PasswordJoin(d, n, matches)).code == Done <==>
      && MayEnter(s, n, d) && s.networks[n].password != None && matches && |s.networks[n].leases| < 254
      && (s.networks[n].password == Some(false) || d in s.networks[n].invited)
    ensures Step(s, PasswordJoin(d, n, matches)).code == PendingApproval <==>
      MayEnter(s, n, d) && s.networks[n].password == Some(true) && matches && d !in s.networks[n].invited
  {
    hide Inv, Step, WithMember, Acceptable, Addressed, NetworksOf;
    Answered(s, PasswordJoin(d, n, matches));
    SameNetworksOf(s, d, d);
    SameNetworksOf(Recorded(s, d), d, d);
    if n in s.networks {
      PolicyOf(s, n);
      var password := s.networks[n].password;
      assert password.Some? ==> (password == Some(true) <==> password.value) && (password == Some(false) <==> !password.value);
      RoomFor254(s.networks[n], d);
    }
  }

  lemma GrantedNetworksOf(s: State, n: NetworkId, net: Network, d: DeviceId)
    requires n in s.networks && net.leases == s.networks[n].leases
    ensures NetworksOf(s.(networks := s.networks[n := net]), d) == NetworksOf(s, d)
  {
  }

  /** A valid link admits whoever has room and is not a member yet. */
  lemma RedeemedExactly(s: State, d: DeviceId, n: NetworkId, valid: bool)
    requires Inv(s)
    ensures Step(s, Redeem(d, n, valid)).code == Done <==> MayEnter(s, n, d) && valid && |s.networks[n].leases| < 254
    ensures Step(s, Redeem(d, n, valid)).code != PendingApproval
  {
    hide Inv, Step, WithMember, Acceptable, Addressed, NetworksOf;
    Answered(s, Redeem(d, n, valid));
    SameNetworksOf(s, d, d);
    if n in s.networks {
      PolicyOf(s, n);
      var net := s.networks[n];
      var granted := net.(pending := net.pending - {d}, invited := net.invited + {d});
      var r := Recorded(s, d);
      GrantedNetworksOf(r, n, granted, d);
      SameNetworksOf(r.(networks := r.networks[n := granted]), d, d);
      SameAddressed(net, granted);
      RoomFor254(granted, d);
    }
  }

  lemma SameAddressed(a: Network, b: Network)
    requires Addressed(a) && a.subnet == b.subnet && a.leases == b.leases
    ensures Addressed(b)
  {
  }

  // ---- How a device becomes a member ----

  /** The step at which `d` enters `n`, and what permits it. */
  predicate Permitted(s: State, e: Event, n: NetworkId, d: DeviceId)
  {
    && n in s.networks && d !in s.networks[n].leases
    && (|| (e == Join(d, n) && d in s.networks[n].invited)
        || (e == PasswordJoin(d, n, true) && (s.networks[n].password == Some(false) || d in s.networks[n].invited))
        || e == Redeem(d, n, true)
        || (e == Approve(e.actor, n, d) && d in s.networks[n].pending && MayManage(s, n, e.actor)))
  }

  lemma AdmittingEvent(s: State, e: Event, n: NetworkId, d: DeviceId)
    requires ChangeOf(s, e, n) == Admitted(d)
    ensures Step(s, e).code == Done
    ensures e == Join(d, n) || e == Approve(e.actor, n, d) || (e.PasswordJoin? && e.actor == d && e.network == n) || (e.Redeem? && e.actor == d && e.network == n)
  {
    hide Step;
  }

  /** Nobody becomes a member without an invitation, a password, a link or an approval of its own request. */
  lemma AdmittedIsPermitted(s: State, e: Event, n: NetworkId, d: DeviceId)
    requires Inv(s) && ChangeOf(s, e, n) == Admitted(d)
    ensures Permitted(s, e, n, d)
  {
    hide Inv, Step, ChangeOf, MayManage, NetworksOf;
    AdmittingEvent(s, e, n, d);
    match e
    case Join(_, _) => JoinedExactly(s, d, n);
    case PasswordJoin(_, _, matches) => PasswordJoinedExactly(s, d, n, matches);
    case Redeem(_, _, valid) => RedeemedExactly(s, d, n, valid);
    case Approve(a, _, _) =>
      ApprovedExactly(s, a, n, d);
      MayManageNeeds(s, n, a);
  }

  ghost predicate EntersAt(s: State, es: seq<Event>, n: NetworkId, d: DeviceId, i: nat)
    requires i < |es|
  {
    Permitted(After(s, es[..i]), es[i], n, d) && ChangeOf(After(s, es[..i]), es[i], n) == Admitted(d)
  }

  lemma NewMember(s: State, e: Event, n: NetworkId, d: DeviceId)
    requires Inv(s) && !IsMember(s, n, d) && IsMember(Step(s, e).state, n, d)
    ensures ChangeOf(s, e, n) == Admitted(d) || (ChangeOf(s, e, n) == Created(d) && d == Step(s, e).state.networks[n].owner)
  {
    hide Inv, Step, ChangeOf, Follows;
    StepFollows(s, e, n);
    ChangeAddsMember(s, Step(s, e).state, n, ChangeOf(s, e, n), d);
    if ChangeOf(s, e, n) == Created(d) {
      CreatedOwner(s, Step(s, e).state, n, d);
    }
  }

  lemma CreatedOwner(s: State, t: State, n: NetworkId, d: DeviceId)
    requires Follows(s, t, n, Created(d))
    ensures n in t.networks && t.networks[n].owner == d
  {
    hide WithMember;
    CreatedIsSound(t.networks[n], d);
  }

  /** Over a run from any state in which `d` is no member: if it is one at the end and not the owner, some step of the run let it in. */
  lemma {:induction false} MembersWereLetIn(s: State, es: seq<Event>, n: NetworkId, d: DeviceId)
    requires Inv(s) && !IsMember(s, n, d) && IsMember(After(s, es), n, d) && After(s, es).networks[n].owner != d
    ensures exists i :: 0 <= i < |es| && EntersAt(s, es, n, d, i)
    decreases |es|
  {
    hide Inv, Step, ChangeOf, Permitted;
    var t := Step(s, es[0]).state;
    StepKeepsInv(s, es[0]);
    assert es[..0] == [];
    if IsMember(t, n, d) {
      NewMember(s, es[0], n, d);
      OwnerStays(t, es[1..], n);
      AdmittedIsPermitted(s, es[0], n, d);
      assert EntersAt(s, es, n, d, 0);
    } else {
      MembersWereLetIn(t, es[1..], n, d);
      var i :| 0 <= i < |es[1..]| && EntersAt(t, es[1..], n, d, i);
      AfterFirst(s, es, i);
      assert EntersAt(s, es, n, d, i + 1);
    }
  }

  lemma {:induction false} OwnerStays(s: State, es: seq<Event>, n: NetworkId)
    requires n in s.networks
    ensures n in After(s, es).networks && After(s, es).networks[n].owner == s.networks[n].owner
    decreases |es|
  {
    hide Step;
    if es != [] {
      StepKeepsIdentity(s, es[0], n);
      OwnerStays(Step(s, es[0]).state, es[1..], n);
    }
  }

  // ---- Where invitations and join requests come from ----

  /** No invitation and no join request is new. */
  ghost predicate NothingOffered(s: State, t: State, n: NetworkId)
  {
    n in t.networks ==>
      if n in s.networks then t.networks[n].invited <= s.networks[n].invited && t.networks[n].pending <= s.networks[n].pending
      else t.networks[n].invited == t.networks[n].pending == {}
  }

  /** No invitation is new, and only `d` may have a new join request. */
  ghost predicate OnlyAsked(s: State, t: State, n: NetworkId, d: DeviceId)
  {
    n in t.networks ==> n in s.networks && t.networks[n].invited <= s.networks[n].invited && t.networks[n].pending <= s.networks[n].pending + {d}
  }

  lemma JoinOffers(s: State, a: DeviceId, m: NetworkId, credential: bool, n: NetworkId)
    ensures OnlyAsked(s, JoinNetwork(s, a, m, credential).0, n, a)
    ensures n != m ==> NothingOffered(s, JoinNetwork(s, a, m, credential).0, n)
  {
    hide FirstFree, NetworkLimitReached;
  }

  lemma RedeemElsewhere(s: State, a: DeviceId, m: NetworkId, valid: bool, n: NetworkId)
    requires n != m || m !in s.networks
    ensures NothingOffered(s, RedeemInvite(s, a, m, valid).0, n)
  {
    hide FirstFree, JoinNetwork, NetworkLimitReached;
    var r := Recorded(s, a);
    if m in s.networks {
      var net := s.networks[m];
      var granted := net.(pending := net.pending - {a}, invited := net.invited + {a});
      JoinOffers(r.(networks := r.networks[m := granted]), a, m, false, n);
    }
  }

  lemma RedeemOffers(s: State, a: DeviceId, m: NetworkId, valid: bool, n: NetworkId)
    requires Inv(s)
    ensures NothingOffered(s, RedeemInvite(s, a, m, valid).0, n)
  {
    hide Inv, RedeemInvite;
    if m == n && m in s.networks {
      GrantIsUsed(s, a, m, valid);
    } else {
      RedeemElsewhere(s, a, m, valid, n);
    }
  }

  /** A redeemed link leaves no invitation behind, since the join it grants cannot fail any more. */
  lemma GrantIsUsed(s: State, a: DeviceId, m: NetworkId, valid: bool)
    requires Inv(s) && m in s.networks
    ensures NothingOffered(s, RedeemInvite(s, a, m, valid).0, m)
  {
    hide Inv, FirstFree, Addressed, NetworksOf;
    PolicyOf(s, m);
    SameNetworksOf(s, a, a);
    var net, r := s.networks[m], Recorded(s, a);
    var granted := net.(pending := net.pending - {a}, invited := net.invited + {a});
    GrantedNetworksOf(r, m, granted, a);
    SameNetworksOf(r.(networks := r.networks[m := granted]), a, a);
    SameAddressed(net, granted);
    RoomFor254(granted, a);
  }

  lemma CreateOffers(s: State, a: DeviceId, m: NetworkId, password: Option<bool>, n: NetworkId)
    ensures NothingOffered(s, CreateNetwork(s, a, m, password).0, n) && NothingOffered(s, SetPassword(s, a, m, password).0, n)
  {
    hide FirstFree, NetworkLimitReached, CanManage, UsedSubnets;
  }

  lemma LeaveOffers(s: State, a: DeviceId, m: NetworkId, n: NetworkId)
    ensures NothingOffered(s, LeaveNetwork(s, a, m).0, n)
  {
    hide Without, Exhausted;
  }

  lemma KickOffers(s: State, a: DeviceId, m: NetworkId, d: DeviceId, n: NetworkId)
    ensures NothingOffered(s, KickMember(s, a, m, d).0, n)
  {
    hide Without, Exhausted, CanManage, Role;
  }

  lemma ApproveOffers(s: State, a: DeviceId, m: NetworkId, d: DeviceId, n: NetworkId)
    ensures NothingOffered(s, ApproveMember(s, a, m, d).0, n)
    ensures n != m ==> NothingOffered(s, InviteMember(s, a, m, d).0, n)
  {
    hide FirstFree, NetworkLimitReached, CanManage;
  }

  lemma ManageOffers(s: State, a: DeviceId, m: NetworkId, action: Action, q: NetworkPolicy, n: NetworkId)
    ensures NothingOffered(s, ManageNetwork(s, a, m, action, q).0, n)
  {
    if Saves(s, a, m, action, q) {
      SavedPassed(s, a, m, action, q);
    }
    hide ManageCode;
  }

  lemma RevokeOffers(s: State, a: DeviceId, d: DeviceId, n: NetworkId)
    ensures NothingOffered(s, RevokeDevice(s, a, d).0, n)
  {
    hide Without, Exhausted, NetworksOf, BumpAll;
  }

  lemma SessionOffers(s: State, a: DeviceId, key: ActiveKey, session: SessionId, capable: bool, account: AccountId, n: NetworkId)
    ensures NothingOffered(s, SetCapable(s, a, capable), n) && NothingOffered(s, PublishDeviceKey(s, a, key), n)
    ensures SetCapable(s, a, capable).networks == s.networks && NothingOffered(s, RemoveDeviceKey(s, a, session), n)
    ensures NothingOffered(s, CreateAccount(s, a, account).0, n) && NothingOffered(s, EnrolDevice(s, a, account, capable).0, n)
  {
    hide NetworksOf, Owned, BumpAll;
  }

  /** The events that may offer something in `n`. */
  predicate Offers(e: Event, n: NetworkId)
  {
    (e.Invite? && e.network == n) || ((e.Join? || e.PasswordJoin?) && e.network == n)
  }

  lemma EntryOffers(s: State, e: Event, n: NetworkId)
    requires Inv(s) && !Offers(e, n) && (e.Create? || e.Join? || e.PasswordJoin? || e.Redeem? || e.Approve?)
    ensures NothingOffered(s, Handle(s, e).0, n)
  {
    hide Inv, NothingOffered, JoinNetwork, RedeemInvite, LeaveNetwork, KickMember, ApproveMember, InviteMember, ManageNetwork, CreateNetwork, SetPassword,
         JoinWithPassword, PublishNetworkKeys, SetCapable, CreateAccount, EnrolDevice, RevokeDevice;
    match e
    case Create(a, m, password) => CreateOffers(s, a, m, password, n);
    case Join(a, m) => JoinOffers(s, a, m, false, n);
    case PasswordJoin(a, m, matches) => PasswordJoinOffers(s, a, m, matches, n);
    case Redeem(a, m, valid) => RedeemOffers(s, a, m, valid, n);
    case Approve(a, m, d) => ApproveOffers(s, a, m, d, n);
  }

  lemma AccountOffers(s: State, e: Event, n: NetworkId)
    requires e.Negotiated? || e.OpenAccount? || e.Enrol? || e.Revoke?
    ensures NothingOffered(s, Handle(s, e).0, n)
  {
    hide NothingOffered, JoinNetwork, RedeemInvite, LeaveNetwork, KickMember, ApproveMember, InviteMember, ManageNetwork, CreateNetwork, SetPassword,
         JoinWithPassword, PublishNetworkKeys, SetCapable, CreateAccount, EnrolDevice, RevokeDevice;
    match e
    case Negotiated(a, supported) => SessionOffers(s, a, ActiveKey([], []), [], supported, [], n);
    case OpenAccount(a, account) => SessionOffers(s, a, ActiveKey([], []), [], false, account, n);
    case Enrol(a, account, valid) => SessionOffers(s, a, ActiveKey([], []), [], valid, account, n);
    case Revoke(a, d) => RevokeOffers(s, a, d, n);
  }

  lemma HandleOffers(s: State, e: Event, n: NetworkId)
    requires Inv(s) && !Offers(e, n)
    ensures NothingOffered(s, Handle(s, e).0, n)
  {
    assert NothingOffered(s, s, n);
    hide Inv, NothingOffered, JoinNetwork, RedeemInvite, LeaveNetwork, KickMember, ApproveMember, InviteMember, ManageNetwork, CreateNetwork, SetPassword,
         JoinWithPassword, PublishNetworkKeys, SetCapable, CreateAccount, EnrolDevice, RevokeDevice;
    if e.Create? || e.Join? || e.PasswordJoin? || e.Redeem? || e.Approve? {
      hide Handle;
      EntryOffers(s, e, n);
    } else if e.Negotiated? || e.OpenAccount? || e.Enrol? || e.Revoke? {
      hide Handle;
      AccountOffers(s, e, n);
    } else {
      match e
      case ChangePassword(a, m, password) => CreateOffers(s, a, m, password, n);
      case Leave(a, m) => LeaveOffers(s, a, m, n);
      case Kick(a, m, d) => KickOffers(s, a, m, d, n);
      case Invite(a, m, d) => ApproveOffers(s, a, m, d, n);
      case Manage(a, m, action, q) => ManageOffers(s, a, m, action, q, n);
      case _ =>
    }
  }

  lemma PasswordJoinOffers(s: State, a: DeviceId, m: NetworkId, matches: bool, n: NetworkId)
    ensures OnlyAsked(s, JoinWithPassword(s, a, m, matches).0, n, a)
    ensures n != m ==> NothingOffered(s, JoinWithPassword(s, a, m, matches).0, n)
  {
    hide JoinNetwork;
    JoinOffers(Recorded(s, a), a, m, true, n);
  }

  lemma StepOffers(s: State, e: Event, n: NetworkId)
    requires Inv(s) && !Offers(e, n)
    ensures NothingOffered(s, Step(s, e).state, n)
  {
    assert NothingOffered(s, s, n);
    hide Inv, Handle;
    if IsRequest(e) {
      hide Step;
      Answered(s, e);
      HandleOffers(s, e, n);
    } else {
      hide SetCapable, PublishDeviceKey, RemoveDeviceKey, RoutePacket;
      match e
      case Authenticated(a, key, _) =>
        SessionOffers(s, a, key, key.session, false, [], n);
        SessionOffers(SetCapable(s, a, false), a, key, key.session, false, [], n);
      case Disconnected(a, session) => SessionOffers(s, a, ActiveKey(session, []), session, false, [], n);
      case Send(_, _, _) =>
    }
  }

  predicate IsInvited(s: State, n: NetworkId, d: DeviceId)
  {
    n in s.networks && d in s.networks[n].invited
  }

  predicate IsPending(s: State, n: NetworkId, d: DeviceId)
  {
    n in s.networks && d in s.networks[n].pending
  }

  lemma InviteOffers(s: State, a: DeviceId, n: NetworkId, d: DeviceId)
    ensures var (t, code) := InviteMember(s, a, n, d);
      n in t.networks ==> && n in s.networks && t.networks[n].pending == s.networks[n].pending
                          && t.networks[n].invited == s.networks[n].invited + (if code == Done then {d} else {})
  {
    hide NetworkLimitReached, CanManage;
  }

  /** An invitation is given by someone in authority, and a join request is made by the device itself. */
  lemma OffersComeFrom(s: State, e: Event, n: NetworkId, d: DeviceId)
    requires Inv(s)
    ensures IsInvited(Step(s, e).state, n, d) && !IsInvited(s, n, d) ==> e == Invite(e.actor, n, d) && Heard(s, e.actor) && MayManage(s, n, e.actor)
    ensures IsPending(Step(s, e).state, n, d) && !IsPending(s, n, d) ==> e == Join(d, n) || e == PasswordJoin(d, n, true)
  {
    hide Inv, Step, MayManage, Handle;
    if !Offers(e, n) {
      StepOffers(s, e, n);
    } else {
      Answered(s, e);
      OfferingStep(s, e, n, d);
    }
  }

  lemma OfferingStep(s: State, e: Event, n: NetworkId, d: DeviceId)
    requires Inv(s) && Offers(e, n)
    ensures Heard(s, e.actor) && IsInvited(Handle(s, e).0, n, d) && !IsInvited(s, n, d) ==> e == Invite(e.actor, n, d) && MayManage(s, n, e.actor)
    ensures IsPending(Handle(s, e).0, n, d) && !IsPending(s, n, d) ==> e == Join(d, n) || e == PasswordJoin(d, n, true)
  {
    hide Inv, MayManage, InviteMember, JoinNetwork, JoinWithPassword, Step, NetworksOf;
    match e
    case Invite(a, _, x) =>
      InviteOffers(s, a, n, x);
      InvitedExactly(s, a, n, x);
      Answered(s, e);
    case Join(a, _) => JoinOffers(s, a, n, false, n);
    case PasswordJoin(a, _, matches) =>
      PasswordJoinOffers(s, a, n, matches, n);
      WrongPassword(s, a, n);
  }

  lemma WrongPassword(s: State, a: DeviceId, n: NetworkId)
    ensures JoinWithPassword(s, a, n, false).0 == Recorded(s, a)
  {
  }

  // ---- Packets ----

  /** The addresses every member is meant by: broadcast, the subnet's last one, 239.0.0.0/8, 224.0.0.251 and 224.0.0.252. */
  predicate MeansEveryone(a: u32, subnet: nat)
  {
    a == 0xffff_ffff || a == subnet + 255 || 0xef00_0000 <= a <= 0xefff_ffff || a == 0xe000_00fb || a == 0xe000_00fc
  }

  lemma FanoutMeans(a: u32, subnet: PoolAddress)
    requires subnet % SUBNET_SIZE == 0
    ensures IsFanout(a, subnet, SUBNET_PREFIX) <==> MeansEveryone(a, subnet)
  {
    assert Block(24) == 256 by {
      assert Block(24) == Arithmetic.Pow2(8);
      assert Arithmetic.Pow2(3) == 8 && Arithmetic.Pow2(6) == 64;
    }
  }

  predicate MayFanOut(p: NetworkPolicy, a: DeviceId, d: DeviceId)
  {
    PairAllowed(p, a, d) && (p.managed ==> !ListedAs(p, a, 2) && !ListedAs(p, d, 2))
  }

  lemma FanoutIsListed(p: NetworkPolicy, a: DeviceId, d: DeviceId)
    requires Acceptable(p)
    ensures FanoutAllowed(p, a, d) <==> MayFanOut(p, a, d)
  {
    hide Acceptable, Role, ListedAs, PairAllowed;
    RoleIfListed(p, a, RESTRICTED);
    RoleIfListed(p, d, RESTRICTED);
  }

  /** Sender and recipient are different members, both connected, and a managed network needs both capable. */
  predicate Linked(s: State, a: DeviceId, d: DeviceId, n: NetworkId)
  {
    && Heard(s, a) && n in s.networks && a != d
    && a in s.networks[n].leases && d in s.networks[n].leases && a in s.activeKeys && d in s.activeKeys
    && (s.networks[n].policy.managed ==> a in s.capable && d in s.capable)
  }

  /** A device gets an admitted packet if and only if it is meant by it, at the current epoch, and the policy lets the two talk. */
  lemma RoutedExactly(s: State, a: DeviceId, p: Packet, d: DeviceId)
    requires Inv(s)
    ensures d in RoutePacket(s, a, p, true) <==>
      && Linked(s, a, d, p.network) && p.epoch == (if p.network in s.keyEpochs then s.keyEpochs[p.network] else 1)
      && var net := s.networks[p.network];
         && p.destination != net.leases[a]
         && (if MeansEveryone(p.destination, net.subnet) then p.size <= 1400 && MayFanOut(net.policy, a, d)
             else p.destination == net.leases[d] && PairAllowed(net.policy, a, d))
    ensures RoutePacket(s, a, p, false) == {}
  {
    hide Inv, Acceptable, PairAllowed, FanoutAllowed, MayFanOut, MeansEveryone, IsFanout, Addressed;
    if p.network in s.networks {
      var net := s.networks[p.network];
      PolicyOf(s, p.network);
      Aligned(net);
      FanoutMeans(p.destination, net.subnet);
      FanoutIsListed(net.policy, a, d);
      PairNeedsTwo(net.policy, a, d);
    }
  }

  lemma Aligned(net: Network)
    requires Addressed(net)
    ensures net.subnet % SUBNET_SIZE == 0
  {
  }

  // ---- Key envelopes ----

  predicate GoodEnvelope(s: State, n: NetworkId, actor: DeviceId, e: Envelope)
    requires n in s.networks && actor in s.activeKeys
  {
    && e.network == n && e.owner == actor && e.recipient != actor && e.signed && e.ownerKey == s.activeKeys[actor].key
    && e.epoch == (if n in s.keyEpochs then s.keyEpochs[n] else 1)
    && e.recipient in s.networks[n].leases && e.recipient in s.activeKeys && e.recipientKey == s.activeKeys[e.recipient].key
    && (s.networks[n].policy.managed ==> e.recipient in s.capable)
  }

  predicate DistinctRecipients(es: seq<Envelope>)
  {
    forall i, j :: 0 <= i < j < |es| ==> es[i].recipient != es[j].recipient
  }

  lemma {:induction false} EnvelopesExactly(s: State, n: NetworkId, actor: DeviceId, seen: set<DeviceId>, es: seq<Envelope>)
    requires n in s.networks && actor in s.activeKeys
    ensures EnvelopesCode(s, n, actor, seen, es) == Done <==>
      && (forall i :: 0 <= i < |es| ==> GoodEnvelope(s, n, actor, es[i]) && es[i].recipient !in seen) && DistinctRecipients(es)
    decreases |es|
  {
    hide GoodEnvelope;
    if es != [] {
      GoodMeans(s, n, actor, es[0]);
      var rest := es[1..];
      EnvelopesExactly(s, n, actor, seen + {es[0].recipient}, rest);
      assert es == [es[0]] + rest;
    }
  }

  lemma GoodMeans(s: State, n: NetworkId, actor: DeviceId, e: Envelope)
    requires n in s.networks && actor in s.activeKeys
    ensures GoodEnvelope(s, n, actor, e) <==>
      && !(e.network != n || e.owner != actor || e.recipient == actor || s.activeKeys[actor].key != e.ownerKey || !e.signed)
      && e.epoch == EpochOf(s, n) && !(s.networks[n].policy.managed && e.recipient !in s.capable)
      && !(e.recipient !in s.networks[n].leases || e.recipient !in s.activeKeys || s.activeKeys[e.recipient].key != e.recipientKey)
  {
  }

  /** A publication is accepted exactly from the connected owner, for distinct connected members, each envelope signed and under both current keys. */
  lemma PublishedExactly(s: State, a: DeviceId, es: seq<Envelope>)
    ensures Step(s, PublishKeys(a, es)).code == Done <==>
      && Heard(s, a) && 0 < |es| <= 253 && es[0].network in s.networks && s.networks[es[0].network].owner == a && a in s.activeKeys
      && (s.networks[es[0].network].policy.managed ==> a in s.capable)
      && (forall i :: 0 <= i < |es| ==> GoodEnvelope(s, es[0].network, a, es[i])) && DistinctRecipients(es)
    ensures Step(s, PublishKeys(a, es)).state == s
  {
    hide Step, EnvelopesCode, GoodEnvelope, DistinctRecipients;
    Answered(s, PublishKeys(a, es));
    if es != [] && es[0].network in s.networks && a in s.activeKeys {
      EnvelopesExactly(s, es[0].network, a, {}, es);
    }
  }

  // ---- Sessions ----

  /** Authenticating makes a key active, unless it is not valid or the device is revoked; it always starts without capabilities. */
  lemma AuthenticatedExactly(s: State, a: DeviceId, key: ActiveKey, valid: bool)
    requires a != ZERO_DEVICE
    ensures var t := Step(s, Authenticated(a, key, valid)).state;
      && t.activeKeys == (if valid && Heard(s, a) then s.activeKeys[a := key] else s.activeKeys)
      && t.capable == s.capable - {a} && t.networks == s.networks
  {
    hide NetworksOf, Owned, BumpAll;
  }

  /** The end of a session takes the key it brought and no other: a newer session's key stays. */
  lemma DisconnectedExactly(s: State, a: DeviceId, session: SessionId, d: DeviceId)
    ensures var t := Step(s, Disconnected(a, session)).state;
      && (d in t.activeKeys <==> d in s.activeKeys && !(d == a && s.activeKeys[d].session == session))
      && (d in t.activeKeys ==> t.activeKeys[d] == s.activeKeys[d])
      && (d in t.capable <==> d in s.capable && !(d == a && a in s.activeKeys && s.activeKeys[a].session == session))
      && t.networks == s.networks
  {
    hide NetworksOf, Owned, BumpAll;
  }

  lemma NegotiatedExactly(s: State, a: DeviceId, supported: bool)
    ensures Step(s, Negotiated(a, supported)).state.capable ==
      if !Heard(s, a) then s.capable else if supported then s.capable + {a} else s.capable - {a}
  {
    hide NetworksOf, BumpAll;
  }

  // ---- Accounts ----

  /** A device is revoked exactly by the owner of its account, and while it owns no network. */
  lemma RevokedExactly(s: State, a: DeviceId, d: DeviceId)
    ensures Step(s, Revoke(a, d)).code == Done <==>
      && Heard(s, a) && a != d && a in s.enrolled && d in s.enrolled && !s.enrolled[d].revoked
      && s.enrolled[d].account == s.enrolled[a].account && s.enrolled[a].account in s.accounts && s.accounts[s.enrolled[a].account] == a
      && (forall n :: n in s.networks && d in s.networks[n].leases ==> s.networks[n].owner != d && !Exhausted(s.networks[n].policy, d))
  {
    hide Step, Exhausted, LeftAll, BumpAll;
    Answered(s, Revoke(a, d));
    SameNetworksOf(s, a, d);
  }

  /** Enrolling takes a valid code for an account, and a device that is in none. */
  lemma EnrolledExactly(s: State, a: DeviceId, account: AccountId, valid: bool)
    ensures Step(s, Enrol(a, account, valid)).code == Done <==>
      Heard(s, a) && valid && account in s.accounts && a !in s.enrolled && |set d | d in s.enrolled && s.enrolled[d].account == account| < 64
    ensures Step(s, OpenAccount(a, account)).code == Done <==>
      Heard(s, a) && a !in s.enrolled && account !in s.accounts && a !in s.accounts.Values
  {
    hide Step;
    Answered(s, Enrol(a, account, valid));
    Answered(s, OpenAccount(a, account));
  }

  // ---- Policies ----

  predicate GatewayFits(net: Network, next: NetworkPolicy, action: Action, actor: DeviceId, g: Gateway)
  {
    && Present(net, g.device) && Role(next, g.device) != RESTRICTED
    && (HasGateway(net.policy, g.device) || (action == RequestGateway && g.device == actor && !g.approved))
  }

  predicate GatewaysFit(net: Network, next: NetworkPolicy, action: Action, actor: DeviceId, gs: seq<Gateway>)
  {
    forall i :: 0 <= i < |gs| ==> GatewayFits(net, next, action, actor, gs[i])
  }

  lemma {:induction false} GatewaysExactly(net: Network, next: NetworkPolicy, action: Action, actor: DeviceId, gs: seq<Gateway>)
    ensures GatewaysCode(net, next, action, actor, gs) == Done <==> GatewaysFit(net, next, action, actor, gs)
  {
    hide Role, HasGateway;
    if gs != [] {
      GatewaysExactly(net, next, action, actor, gs[1..]);
      assert gs == [gs[0]] + gs[1..];
    }
  }

  /** A route whose gateway is a member and that shares no address with the pool, the network's subnet or a route elsewhere. */
  ghost predicate RouteFits(s: State, n: NetworkId, r: Route)
    requires n in s.networks
  {
    && Present(s.networks[n], r.gateway) && !SubnetsOverlap(r.address, r.prefix, 0x0a40_0000, 10)
    && !SubnetsOverlap(r.address, r.prefix, s.networks[n].subnet, 24)
    && forall m, x :: m in s.networks && m != n && x in s.networks[m].policy.routes ==> !SubnetsOverlap(r.address, r.prefix, x.address, x.prefix)
  }

  lemma TakenMeans(s: State, n: NetworkId, r: Route)
    ensures TakenElsewhere(s, n, r) <==>
      exists m, x :: m in s.networks && m != n && x in s.networks[m].policy.routes && SubnetsOverlap(r.address, r.prefix, x.address, x.prefix)
  {
    hide SubnetsOverlap;
    if m, x :| m in s.networks && m != n && x in s.networks[m].policy.routes && SubnetsOverlap(r.address, r.prefix, x.address, x.prefix) {
      assert OverlapsAny(r, s.networks[m].policy.routes);
    }
  }

  ghost predicate RoutesFit(s: State, n: NetworkId, routes: seq<Route>)
    requires n in s.networks
  {
    forall i :: 0 <= i < |routes| ==> RouteFits(s, n, routes[i])
  }

  lemma {:induction false} RoutesExactly(s: State, n: NetworkId, routes: seq<Route>)
    requires n in s.networks
    ensures RoutesCode(s, n, routes) == Done <==> RoutesFit(s, n, routes)
  {
    hide SubnetsOverlap, TakenElsewhere;
    if routes != [] {
      TakenMeans(s, n, routes[0]);
      RoutesExactly(s, n, routes[1..]);
      assert routes == [routes[0]] + routes[1..];
    }
  }

  /** Every possible device has the same role under both. */
  ghost predicate RolesAgree(p: NetworkPolicy, q: NetworkPolicy)
  {
    forall d :: Role(q, d) == Role(p, d)
  }

  lemma RolesKeptExactly(p: NetworkPolicy, next: NetworkPolicy)
    requires Acceptable(p) && Acceptable(next)
    ensures RolesKept(p, next) <==> RolesAgree(p, next)
  {
    if RolesKept(p, next) {
      forall d ensures Role(next, d) == Role(p, d) {
        RolesKeptForAll(p, next, d);
      }
    }
    ListedRoles(p);
    ListedRoles(next);
  }

  lemma ListedRoles(p: NetworkPolicy)
    requires Acceptable(p)
    ensures forall i :: 0 <= i < |p.members| ==> Role(p, p.members[i].device) == p.members[i].role
  {
    assert Distinct(MemberDevices(p.members));
    forall i | 0 <= i < |p.members| ensures Role(p, p.members[i].device) == p.members[i].role {
      RoleIsListed(p.members, p.members[i].device);
      forall j | 0 <= j < |p.members| && p.members[i].device == p.members[j].device ensures i == j {
        assert MemberDevices(p.members)[i] == MemberDevices(p.members)[j];
      }
    }
  }

  /** What has to hold for a gateway request before the policy is looked at. */
  predicate MayRequestGateway(p: NetworkPolicy, a: DeviceId, revision: u64)
  {
    && p.managed && !ListedAs(p, a, 2) && revision == p.revision && |p.gateways| < 16
    && forall i :: 0 <= i < |p.gateways| ==> p.gateways[i].device != a
  }

  /** Hubs are members, and a rule names members or nobody in particular. */
  predicate NamesMembers(net: Network, q: NetworkPolicy)
  {
    && (forall i :: 0 <= i < |q.hubs| ==> q.hubs[i] in net.leases)
    && (forall i :: 0 <= i < |q.rules| ==>
          && (q.rules[i].first.device == ZERO_DEVICE || q.rules[i].first.device in net.leases)
          && (q.rules[i].second.device == ZERO_DEVICE || q.rules[i].second.device in net.leases))
  }

  /** Roles are given to members, or as a restriction to known devices; the owner has none. */
  predicate AssignsFitly(s: State, net: Network, members: seq<Member>)
  {
    forall i :: 0 <= i < |members| ==>
      && (members[i].device in net.leases || (members[i].role == 2 && members[i].device in s.devices))
      && (members[i].device == net.owner ==> members[i].role == 0)
  }

  lemma NamesMean(s: State, net: Network, q: NetworkPolicy)
    requires Acceptable(q)
    ensures SubjectsPresent(net, q) <==> NamesMembers(net, q)
    ensures AssignmentsValid(s, net, q) <==> AssignsFitly(s, net, q.members)
  {
    assert GoodDevices(q.hubs) && GoodDevices(MemberDevices(q.members));
    hide Acceptable;
    assert forall i :: 0 <= i < |q.hubs| ==> q.hubs[i] != ZERO_DEVICE;
    forall i | 0 <= i < |q.members| ensures q.members[i].device != ZERO_DEVICE {
      assert MemberDevices(q.members)[i] in MemberDevices(q.members);
    }
  }

  lemma SameAssignments(s: State, net: Network, p: NetworkPolicy, q: NetworkPolicy)
    requires p.members == q.members
    ensures AssignmentsValid(s, net, p) <==> AssignmentsValid(s, net, q)
  {
  }

  /** The conditions under which a policy is stored. */
  ghost predicate Storable(s: State, a: DeviceId, n: NetworkId, action: Action, q: NetworkPolicy)
  {
    && Heard(s, a) && Acceptable(q) && n in s.networks && a in s.networks[n].leases && a in s.capable
    && var net := s.networks[n];
       var next := if action == RequestGateway then net.policy.(gateways := net.policy.gateways + [Gateway(a, false)]) else q;
       && (if action == RequestGateway then MayRequestGateway(net.policy, a, q.revision) else MayManage(s, n, a))
       && !(next.topology == 1 && next.hubs == []) && NamesMembers(net, q) && AssignsFitly(s, net, next.members)
       && GatewaysFit(net, next, action, a, next.gateways)
       && (a != net.owner && action == ReplacePolicy ==> next.managed && RolesAgree(net.policy, next))
       && RoutesFit(s, n, next.routes)
       && next.revision == net.policy.revision < MAX_U64
  }

  /** The policy asked for, or for a gateway request the old one with the actor as an unapproved gateway; one revision later. */
  ghost predicate StoredAs(s: State, t: State, a: DeviceId, n: NetworkId, action: Action, q: NetworkPolicy)
  {
    && n in s.networks && n in t.networks && s.networks[n].policy.revision < MAX_U64
    && var p := s.networks[n].policy;
       t.networks[n].policy ==
         (if action == RequestGateway then p.(gateways := p.gateways + [Gateway(a, false)]) else q).(revision := p.revision + 1)
  }

  lemma GatewayListed(p: NetworkPolicy, a: DeviceId)
    ensures HasGateway(p, a) <==> !(forall i :: 0 <= i < |p.gateways| ==> p.gateways[i].device != a)
  {
  }

  /** A policy is stored exactly when it meets every condition. */
  lemma SavedExactly(s: State, a: DeviceId, n: NetworkId, action: Action, q: NetworkPolicy)
    requires Inv(s) && action != Inspect
    ensures Step(s, Manage(a, n, action, q)).code == Done <==> Storable(s, a, n, action, q)
  {
    hide Inv, Step, Acceptable, Addressed, GatewaysCode, RoutesCode, SubjectsPresent, AssignmentsValid, RolesKept, CanManage, MayManage, HasGateway,
         GatewaysFit, RoutesFit, Role, ListedAs, RolesAgree, NamesMembers, AssignsFitly;
    Answered(s, Manage(a, n, action, q));
    if n in s.networks && Heard(s, a) && Acceptable(q) {
      var net := s.networks[n];
      PolicyOf(s, n);
      AuthorityIsListed(s, n, a);
      RoleIfListed(net.policy, a, RESTRICTED);
      GatewayListed(net.policy, a);
      var next := Proposed(net, a, action, q);
      GatewaysExactly(net, next, action, a, next.gateways);
      RoutesExactly(s, n, next.routes);
      RolesKeptExactly(net.policy, q);
      NamesMean(s, net, q);
      NamesMean(s, net, net.policy);
      if action == RequestGateway {
        SameAssignments(s, net, net.policy, next);
      }
    }
  }

  /** What is stored then. */
  lemma SavedIsStored(s: State, a: DeviceId, n: NetworkId, action: Action, q: NetworkPolicy)
    requires action != Inspect && Step(s, Manage(a, n, action, q)).code == Done
    ensures StoredAs(s, Step(s, Manage(a, n, action, q)).state, a, n, action, q)
  {
    hide Step, Saves, Acceptable;
    StepFollows(s, Manage(a, n, action, q), n);
    SavedPassed(s, a, n, action, q);
  }

  // ---- Who may talk to whom, over runs ----

  /** The two ways in which permission between two devices can change. */
  ghost predicate Touches(s: State, e: Event, n: NetworkId, a: DeviceId, b: DeviceId)
  {
    || ChangeOf(s, e, n) == Removed(a) || ChangeOf(s, e, n) == Removed(b)
    || (e.Manage? && e.network == n && e.action == ReplacePolicy && Heard(s, e.actor) && MayManage(s, n, e.actor))
  }

  ghost predicate SamePermission(p: NetworkPolicy, q: NetworkPolicy, a: DeviceId, b: DeviceId)
  {
    (PairAllowed(p, a, b) <==> PairAllowed(q, a, b)) && (FanoutAllowed(p, a, b) <==> FanoutAllowed(q, a, b))
  }

  lemma SameRulesSamePermission(p: NetworkPolicy, q: NetworkPolicy, a: DeviceId, b: DeviceId)
    requires p.managed == q.managed && p.topology == q.topology && p.members == q.members && p.rules == q.rules && p.hubs == q.hubs
    ensures SamePermission(p, q, a, b)
  {
    hide PairAllowed, FanoutAllowed;
    AllowedAsASet(p, q, a, b);
    AllowedAsASet(q, q, b, a);
  }

  lemma DepartureKeepsAccess(p: NetworkPolicy, q: NetworkPolicy, d: DeviceId, a: DeviceId, b: DeviceId)
    requires Acceptable(p) && d != ZERO_DEVICE && a != d && b != d && q == Without(p, d).(revision := q.revision)
    ensures SamePermission(p, q, a, b)
  {
    hide Acceptable, Without, SamePermission;
    StillSame(p, d, a, b);
    SameRulesSamePermission(Without(p, d), q, a, b);
    SamePermissionChains(p, Without(p, d), q, a, b);
  }

  lemma StillSame(p: NetworkPolicy, d: DeviceId, a: DeviceId, b: DeviceId)
    requires Acceptable(p) && d != ZERO_DEVICE && a != d && b != d
    ensures SamePermission(p, Without(p, d), a, b)
  {
    hide Acceptable, Without, PairAllowed, FanoutAllowed;
    OthersKeepAccess(p, d, a, b);
  }

  lemma SamePermissionChains(p: NetworkPolicy, q: NetworkPolicy, r: NetworkPolicy, a: DeviceId, b: DeviceId)
    requires SamePermission(p, q, a, b) && SamePermission(q, r, a, b)
    ensures SamePermission(p, r, a, b)
  {
  }

  lemma ChangeKeepsAccess(s: State, t: State, n: NetworkId, c: Change, a: DeviceId, b: DeviceId)
    requires Inv(s) && n in s.networks && Follows(s, t, n, c)
    requires c != Removed(a) && c != Removed(b) && !(c.Replaced? && c.action != RequestGateway)
    ensures n in t.networks && SamePermission(s.networks[n].policy, t.networks[n].policy, a, b)
  {
    hide Inv, Acceptable, Addressed, Saves, SamePermission, Without, Exhausted, Bumped, FirstFree;
    if c.Removed? {
      PolicyOf(s, n);
      DepartureKeepsAccess(s.networks[n].policy, t.networks[n].policy, c.device, a, b);
    } else {
      SameRulesSamePermission(s.networks[n].policy, t.networks[n].policy, a, b);
    }
  }

  /** Whether two devices may talk changes only when one of them goes, or when someone in authority replaces the policy. */
  lemma AccessChangesBy(s: State, e: Event, n: NetworkId, a: DeviceId, b: DeviceId)
    requires Inv(s) && n in s.networks && !Touches(s, e, n, a, b)
    ensures n in Step(s, e).state.networks && SamePermission(s.networks[n].policy, Step(s, e).state.networks[n].policy, a, b)
  {
    hide Inv, Step, Follows, SamePermission, MayManage, NetworksOf;
    var c := ChangeOf(s, e, n);
    if c.Replaced? {
      SavedExactly(s, e.actor, n, e.action, e.policy);
    }
    StepFollows(s, e, n);
    ChangeKeepsAccess(s, Step(s, e).state, n, c, a, b);
  }

  lemma {:induction false} AccessIsStable(s: State, es: seq<Event>, n: NetworkId, a: DeviceId, b: DeviceId)
    requires Inv(s) && n in s.networks
    requires forall i :: 0 <= i < |es| ==> !Touches(After(s, es[..i]), es[i], n, a, b)
    ensures n in After(s, es).networks && SamePermission(s.networks[n].policy, After(s, es).networks[n].policy, a, b)
    decreases |es|
  {
    hide Inv, Step, Touches, SamePermission;
    assert SamePermission(s.networks[n].policy, s.networks[n].policy, a, b) by {
      SameRulesSamePermission(s.networks[n].policy, s.networks[n].policy, a, b);
    }
    if es != [] {
      assert es[..0] == [];
      AccessChangesBy(s, es[0], n, a, b);
      StepKeepsInv(s, es[0]);
      var t, rest := Step(s, es[0]).state, es[1..];
      forall i | 0 <= i < |rest| ensures !Touches(After(t, rest[..i]), rest[i], n, a, b) {
        AfterFirst(s, es, i);
      }
      AccessIsStable(t, rest, n, a, b);
      SamePermissionChains(s.networks[n].policy, t.networks[n].policy, After(s, es).networks[n].policy, a, b);
    }
  }

  // ---- Creating, and what a new member gets ----

  lemma {:induction false} FirstFreeIsFirst(used: set<PoolAddress>, candidate: nat, step: nat, limit: nat, k: nat)
    requires step > 0 && POOL_FIRST <= candidate && limit <= POOL_END && candidate + k * step < limit
    ensures FirstFree(used, candidate, step, limit).Some? || candidate + k * step in used
    ensures FirstFree(used, candidate, step, limit).Some? && candidate + k * step < FirstFree(used, candidate, step, limit).value ==> candidate + k * step in used
    decreases limit - candidate
  {
    if candidate < limit && candidate in used && k > 0 {
      assert candidate + k * step == (candidate + step) + (k - 1) * step;
      FirstFreeIsFirst(used, candidate + step, step, limit, k - 1);
    }
  }

  /** A new member gets the lowest free host address, and loses its invitation and its request. */
  lemma NewMemberGets(net: Network, d: DeviceId, x: nat)
    requires Addressed(net) && WithMember(net, d).Some?
    ensures var t := WithMember(net, d).value;
      && t.leases.Keys == net.leases.Keys + {d} && (forall m :: m in net.leases && m != d ==> t.leases[m] == net.leases[m])
      && net.subnet < t.leases[d] && t.leases[d] !in net.leases.Values && (net.subnet < x < t.leases[d] ==> x in net.leases.Values)
      && t.invited == net.invited - {d} && t.pending == net.pending - {d} && t.policy == net.policy && t.owner == net.owner && t.password == net.password
  {
    SubnetEnds(net.subnet);
    var used, limit := net.leases.Values, net.subnet + SUBNET_SIZE - 1;
    if net.subnet < x < limit {
      FirstFreeIsFirst(used, net.subnet + 1, 1, limit, x - net.subnet - 1);
    }
    hide FirstFree;
  }

  /** A network of its owner alone, at the first host address, with no policy, invitation or request. */
  predicate HoldsOnly(net: Network, a: DeviceId, password: Option<bool>)
  {
    && net.owner == a && net.leases.Keys == {a} && net.leases[a] == net.subnet + 1 && net.policy == UNMANAGED
    && net.invited == net.pending == {} && net.password == password
  }

  /** A network is created with a fresh identifier while a virtual subnet is free. */
  lemma CreatedExactly(s: State, a: DeviceId, id: NetworkId, password: Option<bool>)
    ensures Step(s, Create(a, id, password)).code == Done <==>
      && Heard(s, a) && |NetworksOf(s, a)| < 1024 && id != ZERO_NETWORK && id !in s.networks
      && exists k: nat :: FreeSubnet(s, k)
  {
    hide Step, NetworksOf, FreeSubnet, WithMember, Bump;
    Answered(s, Create(a, id, password));
    SameNetworksOf(s, a, a);
    assert UsedSubnets(Recorded(s, a)) == UsedSubnets(s);
    SubnetIsFree(s);
    FirstFreeIsAligned(UsedSubnets(s), POOL_FIRST);
    var subnet := FirstFree(UsedSubnets(s), POOL_FIRST, SUBNET_SIZE, POOL_END);
    if subnet.Some? {
      FirstOwner(a, subnet.value, password);
    }
    hide FirstFree, UsedSubnets;
  }

  /** It holds its owner and nothing else, on a subnet no other network has. */
  lemma CreatedHolds(s: State, a: DeviceId, id: NetworkId, password: Option<bool>)
    requires Step(s, Create(a, id, password)).code == Done
    ensures id in Step(s, Create(a, id, password)).state.networks && HoldsOnly(Step(s, Create(a, id, password)).state.networks[id], a, password)
    ensures forall n :: n in s.networks ==> s.networks[n].subnet != Step(s, Create(a, id, password)).state.networks[id].subnet
  {
    hide Step, NetworksOf, FirstFree, WithMember, Bump;
    Answered(s, Create(a, id, password));
    StepFollows(s, Create(a, id, password), id);
    FirstOwner(a, Step(s, Create(a, id, password)).state.networks[id].subnet, password);
    CreatedPassword(s, a, id, password);
  }

  lemma CreatedPassword(s: State, a: DeviceId, id: NetworkId, password: Option<bool>)
    ensures CreateNetwork(s, a, id, password).1 == Done ==>
      id in CreateNetwork(s, a, id, password).0.networks && CreateNetwork(s, a, id, password).0.networks[id].password == password
  {
    hide NetworksOf, FirstFree, UsedSubnets, Bump;
  }

  lemma FirstOwner(a: DeviceId, subnet: PoolAddress, password: Option<bool>)
    requires subnet % SUBNET_SIZE == 0
    ensures subnet + 1 < POOL_END
    ensures WithMember(Network(a, subnet, map[], UNMANAGED, {}, {}, password), a) == Some(Network(a, subnet, map[a := subnet + 1], UNMANAGED, {}, {}, password))
  {
    SubnetEnds(subnet);
    var empty := Network(a, subnet, map[], UNMANAGED, {}, {}, password);
    assert empty.leases.Values == {} && empty.leases[a := subnet + 1] == map[a := subnet + 1];
    assert empty.invited - {a} == {} && empty.pending - {a} == {};
  }

  /** The `k`th of the 16384 subnets of 10.64.0.0/10 belongs to no network. */
  predicate FreeSubnet(s: State, k: nat)
  {
    k < 16384 && forall n :: n in s.networks ==> s.networks[n].subnet != 0x0a40_0000 + k * 256
  }

  lemma SubnetIsFree(s: State)
    ensures FirstFree(UsedSubnets(s), POOL_FIRST, SUBNET_SIZE, POOL_END).Some? <==> exists k: nat :: FreeSubnet(s, k)
  {
    var used := UsedSubnets(s);
    var r := FirstFree(used, POOL_FIRST, SUBNET_SIZE, POOL_END);
    FirstFreeIsAligned(used, POOL_FIRST);
    if r.Some? {
      var k := (r.value - POOL_FIRST) / SUBNET_SIZE;
      assert r.value == POOL_FIRST + k * SUBNET_SIZE;
      assert forall n :: n in s.networks ==> s.networks[n].subnet in used;
      assert FreeSubnet(s, k);
    }
    if k: nat :| FreeSubnet(s, k) {
      FirstFreeIsFirst(used, POOL_FIRST, SUBNET_SIZE, POOL_END, k);
    }
  }

  // ---- Members, invitations and requests exclude each other ----

  ghost predicate OffersApart(s: State)
  {
    forall n, d :: n in s.networks ==>
      && !(d in s.networks[n].leases && d in s.networks[n].invited) && !(d in s.networks[n].leases && d in s.networks[n].pending)
      && !(d in s.networks[n].invited && d in s.networks[n].pending)
  }

  lemma JoinClears(s: State, a: DeviceId, n: NetworkId, credential: bool)
    ensures var (t, code) := JoinNetwork(s, a, n, credential);
      && (code == Done ==> n in t.networks && a !in t.networks[n].invited && a !in t.networks[n].pending)
      && (n in t.networks && a in t.networks[n].pending ==> n in s.networks && (a in s.networks[n].pending || a !in s.networks[n].invited))
  {
    hide FirstFree, NetworkLimitReached;
  }

  lemma RedeemClears(s: State, a: DeviceId, n: NetworkId, valid: bool)
    ensures var (t, code) := RedeemInvite(s, a, n, valid);
      code == Done ==> n in t.networks && a !in t.networks[n].invited && a !in t.networks[n].pending
  {
    hide JoinNetwork, NetworkLimitReached;
    var r := Recorded(s, a);
    if n in s.networks {
      var net := s.networks[n];
      JoinClears(r.(networks := r.networks[n := net.(pending := net.pending - {a}, invited := net.invited + {a})]), a, n, false);
    }
  }

  lemma ApproveClears(s: State, a: DeviceId, n: NetworkId, d: DeviceId)
    ensures var (t, code) := ApproveMember(s, a, n, d);
      code == Done ==> n in t.networks && d !in t.networks[n].invited && d !in t.networks[n].pending
  {
    hide FirstFree, NetworkLimitReached, CanManage;
  }

  lemma PasswordJoinClears(s: State, a: DeviceId, n: NetworkId, matches: bool)
    ensures var (t, code) := JoinWithPassword(s, a, n, matches);
      && (code == Done ==> n in t.networks && a !in t.networks[n].invited && a !in t.networks[n].pending)
      && (n in t.networks && a in t.networks[n].pending ==> n in s.networks && (a in s.networks[n].pending || a !in s.networks[n].invited))
  {
    hide JoinNetwork;
    JoinClears(Recorded(s, a), a, n, true);
  }

  /** Becoming a member uses up the invitation and the request. */
  lemma AdmittedIsCleared(s: State, e: Event, n: NetworkId, d: DeviceId)
    requires ChangeOf(s, e, n) == Admitted(d)
    ensures !IsInvited(Step(s, e).state, n, d) && !IsPending(Step(s, e).state, n, d)
  {
    AdmittingEvent(s, e, n, d);
    hide ChangeOf, Step, JoinNetwork, JoinWithPassword, RedeemInvite, ApproveMember;
    Answered(s, e);
    match e
    case Join(_, _) => JoinClears(s, d, n, false);
    case PasswordJoin(_, _, matches) => PasswordJoinClears(s, d, n, matches);
    case Redeem(_, _, valid) => RedeemClears(s, d, n, valid);
    case Approve(a, _, _) => ApproveClears(s, a, n, d);
  }

  lemma NewlyPending(s: State, e: Event, n: NetworkId, d: DeviceId)
    requires (e == Join(d, n) || e == PasswordJoin(d, n, true)) && IsPending(Step(s, e).state, n, d) && !IsPending(s, n, d)
    ensures !IsInvited(s, n, d)
  {
    hide Step, JoinNetwork, JoinWithPassword;
    Answered(s, e);
    JoinClears(s, d, n, false);
    PasswordJoinClears(s, d, n, true);
  }

  lemma InvitationIsNew(s: State, e: Event, n: NetworkId, d: DeviceId)
    requires Inv(s) && e == Invite(e.actor, n, d) && Heard(s, e.actor) && IsInvited(Step(s, e).state, n, d) && !IsInvited(s, n, d)
    ensures !IsMember(s, n, d) && !IsPending(s, n, d) && !IsPending(Step(s, e).state, n, d) && ChangeOf(s, e, n) == Untouched
  {
    hide Inv, Step, InviteMember, MayManage, NetworksOf;
    Answered(s, e);
    InviteOffers(s, e.actor, n, d);
    InvitedExactly(s, e.actor, n, d);
  }

  /** No device is at once a member, invited or waiting: kept by every event. */
  lemma StepKeepsOffersApart(s: State, e: Event)
    requires Inv(s) && OffersApart(s)
    ensures OffersApart(Step(s, e).state)
  {
    hide Inv, Step, ChangeOf;
    var t := Step(s, e).state;
    forall n, d | n in t.networks
      ensures !(d in t.networks[n].leases && d in t.networks[n].invited) && !(d in t.networks[n].leases && d in t.networks[n].pending)
      ensures !(d in t.networks[n].invited && d in t.networks[n].pending)
    {
      DeviceStaysApart(s, e, n, d);
    }
  }

  lemma DeviceStaysApart(s: State, e: Event, n: NetworkId, d: DeviceId)
    requires Inv(s) && OffersApart(s)
    ensures var t := Step(s, e).state;
      !(IsMember(t, n, d) && IsInvited(t, n, d)) && !(IsMember(t, n, d) && IsPending(t, n, d)) && !(IsInvited(t, n, d) && IsPending(t, n, d))
  {
    hide Inv, Step, ChangeOf, Follows, MayManage;
    var t := Step(s, e).state;
    OffersComeFrom(s, e, n, d);
    StepFollows(s, e, n);
    if IsMember(t, n, d) && !IsMember(s, n, d) {
      NewMember(s, e, n, d);
      if ChangeOf(s, e, n) == Admitted(d) {
        AdmittedIsCleared(s, e, n, d);
      } else {
        CreatedIsBare(s, t, n, d);
      }
    }
    if IsInvited(t, n, d) && !IsInvited(s, n, d) {
      InvitationIsNew(s, e, n, d);
      if IsMember(t, n, d) {
        ChangeAddsMember(s, t, n, ChangeOf(s, e, n), d);
      }
    }
    if IsPending(t, n, d) && !IsPending(s, n, d) {
      NewlyPending(s, e, n, d);
      PendingIsOutside(s, e, n, d);
    }
  }

  lemma CreatedIsBare(s: State, t: State, n: NetworkId, d: DeviceId)
    requires Follows(s, t, n, Created(d))
    ensures !IsInvited(t, n, d) && !IsPending(t, n, d)
  {
    hide FirstFree;
  }

  lemma PendingIsOutside(s: State, e: Event, n: NetworkId, d: DeviceId)
    requires (e == Join(d, n) || e == PasswordJoin(d, n, true)) && IsPending(Step(s, e).state, n, d) && !IsPending(s, n, d)
    ensures !IsMember(Step(s, e).state, n, d)
  {
    hide Step, JoinNetwork, JoinWithPassword;
    Answered(s, e);
    JoinWaits(s, d, n, false);
    PasswordJoinWaits(s, d, n, true);
  }

  lemma JoinWaits(s: State, a: DeviceId, n: NetworkId, credential: bool)
    ensures var (t, code) := JoinNetwork(s, a, n, credential);
      IsPending(t, n, a) && !IsPending(s, n, a) ==> !IsMember(t, n, a)
  {
    hide FirstFree, NetworkLimitReached;
  }

  lemma PasswordJoinWaits(s: State, a: DeviceId, n: NetworkId, matches: bool)
    ensures var (t, code) := JoinWithPassword(s, a, n, matches);
      IsPending(t, n, a) && !IsPending(s, n, a) ==> !IsMember(t, n, a)
  {
    hide JoinNetwork;
    JoinWaits(Recorded(s, a), a, n, true);
  }
}
