/**
  * The ICE-style checklist between two devices: pairs of candidates ordered by
  * the formula of section 6.1.2.3 of RFC 8445, checked in that order, and one
  * of them nominated. Times are in milliseconds.
  */
module Connectivity {
  import opened Bytes

  datatype Endpoint = Endpoint(ipv4: nat, port: nat)
  datatype Candidate = Candidate(endpoint: Endpoint, priority: nat)
  datatype CheckState = Waiting | InProgress | Succeeded | Failed
  datatype Pair = Pair(local: Candidate, remote: Candidate, priority: nat, state: CheckState, attempts: nat, rtt: Option<nat>)
  datatype Progress = Checking | Connected | GivenUp
  datatype Checks = Checks(pairs: seq<Pair>, state: Progress, deadline: int, nextAt: int)

  const MAX_CANDIDATES: nat := 8
  const TWO_32: nat := 0x1_0000_0000
  const TWO_64: nat := 0x1_0000_0000_0000_0000
  const PATIENCE: int := 5000
  const PACE: int := 100
  const MAX_ATTEMPTS: nat := 3

  // ---- Pair priorities ----

  function Min(a: nat, b: nat): nat { if a <= b then a else b }
  function Max(a: nat, b: nat): nat { if a <= b then b else a }

  /** `g` is the controlling side's candidate priority and `d` the controlled side's, before any cut to 64 bits. */
  function Exact(g: nat, d: nat): (v: nat)
  {
    Min(g, d) * TWO_32 + 2 * Max(g, d) + if g > d then 1 else 0
  }

  /** What the constructor computes in 64 bits; the device that comes first controls. */
  function PairPriority(controlling: bool, a: nat, b: nat): (v: nat)
  {
    (if controlling then Exact(a, b) else Exact(b, a)) % TWO_64
  }

  /** Both devices give the same pair the same priority. */
  lemma PrioritiesAgree(local: DeviceId, peer: DeviceId, a: nat, b: nat)
    requires local != peer
    ensures PairPriority(Before(local, peer), a, b) == PairPriority(Before(peer, local), b, a)
  {
    BeforeIsTotal(local, peer);
  }

  /** The formula itself: the smaller priority counts most, then the larger, then who has it. */
  lemma PriorityFormula(controlling: bool, a: nat, b: nat)
    requires a < TWO_32 && b < TWO_32 && !(a == b == TWO_32 - 1)
    ensures a <= b ==> PairPriority(controlling, a, b) == a * 0x1_0000_0000 + 2 * b + (if a < b && !controlling then 1 else 0)
    ensures a > b ==> PairPriority(controlling, a, b) == b * 0x1_0000_0000 + 2 * a + (if controlling then 1 else 0)
  {
    OverflowsExactly(a, b);
    OverflowsExactly(b, a);
  }

  /** Of all 32-bit priorities only the pair of two largest ones overflows. */
  lemma OverflowsExactly(g: nat, d: nat)
    requires g < TWO_32 && d < TWO_32
    ensures Exact(g, d) >= TWO_64 <==> g == d == TWO_32 - 1
  {
  }

  /** The priority of a gathered address: type preference, interface preference, component one. */
  function HostPriority(loopback: bool, privateAddress: bool, index: nat): (p: nat)
  {
    (if loopback then 100 else if privateAddress then 126 else 120) * 0x100_0000 + (65535 - Min(index, 65535)) * 256 + 255
  }

  /** Section 5.1.2.1 of RFC 8445 with component one: type preference, then interface, then 255. */
  lemma HostPriorityLayout(loopback: bool, privateAddress: bool, index: nat)
    ensures var p := HostPriority(loopback, privateAddress, index);
      && p / 0x100_0000 == (if loopback then 100 else if privateAddress then 126 else 120) && p % 256 == 255
      && p / 256 % 0x1_0000 == (if index <= 65535 then 65535 - index else 0)
  {
  }

  const REFLEXIVE_PRIORITY: nat := 100 * 0x100_0000 + 255

  /** With a priority this program gathers on one side, no pair overflows whatever the other side claims. */
  lemma GatheredNeverOverflow(loopback: bool, privateAddress: bool, index: nat, other: nat)
    requires other < TWO_32
    ensures HostPriority(loopback, privateAddress, index) < TWO_32 / 2
    ensures var p := HostPriority(loopback, privateAddress, index);
      Exact(p, other) < TWO_64 && Exact(other, p) < TWO_64 && Exact(REFLEXIVE_PRIORITY, other) < TWO_64 && Exact(other, REFLEXIVE_PRIORITY) < TWO_64
  {
    var p := HostPriority(loopback, privateAddress, index);
    OverflowsExactly(p, other);
    OverflowsExactly(other, p);
    OverflowsExactly(REFLEXIVE_PRIORITY, other);
    OverflowsExactly(other, REFLEXIVE_PRIORITY);
  }

  // ---- The checklist ----

  predicate Usable(e: Endpoint)
  {
    var first := e.ipv4 / 0x100_0000;
    e.port != 0 && first != 0 && first < 224 && e.ipv4 / 0x1_0000 != 0xa9fe && e.ipv4 != 0xffff_ffff
  }

  /** A port, and an address of class A to C that is not in 0.0.0.0/8 or 169.254.0.0/16. */
  lemma UsableExactly(e: Endpoint)
    ensures Usable(e) <==> e.port != 0 && 0x100_0000 <= e.ipv4 < 0xe000_0000 && !(0xa9fe_0000 <= e.ipv4 <= 0xa9fe_ffff)
  {
  }

  predicate GoodCandidate(c: Candidate)
  {
    Usable(c.endpoint) && c.priority != 0
  }

  predicate GoodLists(local: DeviceId, peer: DeviceId, locals: seq<Candidate>, remotes: seq<Candidate>)
  {
    && local != peer && 0 < |locals| <= MAX_CANDIDATES && 0 < |remotes| <= MAX_CANDIDATES
    && (forall i :: 0 <= i < |locals| ==> GoodCandidate(locals[i])) && (forall i :: 0 <= i < |remotes| ==> GoodCandidate(remotes[i]))
  }

  function NewPair(controlling: bool, a: Candidate, b: Candidate): (p: Pair)
  {
    Pair(a, b, PairPriority(controlling, a.priority, b.priority), Waiting, 0, None)
  }

  function Row(controlling: bool, a: Candidate, remotes: seq<Candidate>): (ps: seq<Pair>)
  {
    seq(|remotes|, i requires 0 <= i < |remotes| => NewPair(controlling, a, remotes[i]))
  }

  /** Every local candidate with every remote one, in the order of the two nested loops. */
  function AllPairs(controlling: bool, locals: seq<Candidate>, remotes: seq<Candidate>): (ps: seq<Pair>)
  {
    if locals == [] then [] else AllPairs(controlling, locals[..|locals| - 1], remotes) + Row(controlling, locals[|locals| - 1], remotes)
  }

  lemma PairIndex(i: nat, n: nat, rows: nat, j: nat)
    requires i < rows && j < n
    ensures 0 <= i * n + j < rows * n && (i < rows - 1 ==> i * n + j < (rows - 1) * n) && rows * n == (rows - 1) * n + n
  {
    Rows(i + 1, rows, n);
    assert (i + 1) * n == i * n + n;
    if i < rows - 1 {
      Rows(i + 1, rows - 1, n);
    }
  }

  lemma {:induction false} Rows(a: nat, b: nat, n: nat)
    requires a <= b && b > 0
    ensures a * n <= b * n && b * n == (b - 1) * n + n
  {
    if a < b && b > 1 {
      Rows(a, b - 1, n);
    }
  }

  /** Every local candidate stands with every remote one, once. */
  lemma {:induction false} PairsAreAll(controlling: bool, locals: seq<Candidate>, remotes: seq<Candidate>, i: nat, j: nat)
    requires i < |locals| && j < |remotes|
    ensures |AllPairs(controlling, locals, remotes)| == |locals| * |remotes|
    ensures i * |remotes| + j < |locals| * |remotes|
    ensures AllPairs(controlling, locals, remotes)[i * |remotes| + j] == NewPair(controlling, locals[i], remotes[j])
    decreases |locals|
  {
    var n, rows := |remotes|, |locals|;
    var front := locals[..rows - 1];
    PairIndex(i, n, rows, j);
    if rows > 1 {
      PairsAreAll(controlling, front, remotes, if i < rows - 1 then i else 0, j);
      assert i < rows - 1 ==> front[i] == locals[i];
    } else {
      assert front == [];
    }
  }

  predicate Descending(ps: seq<Pair>)
  {
    forall i, j :: 0 <= i < j < |ps| ==> ps[i].priority >= ps[j].priority
  }

  /** The pairs of one priority, in order: what a stable sort must not disturb. */
  function OfPriority(ps: seq<Pair>, v: nat): (r: seq<Pair>)
  {
    if ps == [] then [] else (if ps[0].priority == v then [ps[0]] else []) + OfPriority(ps[1..], v)
  }

  /** `p` goes before the first pair of a lower priority. */
  function Insert(ps: seq<Pair>, p: Pair): (r: seq<Pair>)
  {
    if ps == [] then [p] else if ps[0].priority < p.priority then [p] + ps else [ps[0]] + Insert(ps[1..], p)
  }

  function Sorted(ps: seq<Pair>): (r: seq<Pair>)
  {
    if ps == [] then [] else Insert(Sorted(ps[..|ps| - 1]), ps[|ps| - 1])
  }

  lemma {:induction false} InsertIsPermutation(ps: seq<Pair>, p: Pair)
    ensures multiset(Insert(ps, p)) == multiset(ps) + multiset{p}
  {
    if ps != [] && ps[0].priority >= p.priority {
      InsertIsPermutation(ps[1..], p);
      assert ps == [ps[0]] + ps[1..];
    }
  }

  lemma {:induction false} InsertIsDescending(ps: seq<Pair>, p: Pair)
    requires Descending(ps)
    ensures Descending(Insert(ps, p)) && |Insert(ps, p)| == |ps| + 1
    ensures forall v: nat :: p.priority <= v && Below(ps, v) ==> Below(Insert(ps, p), v)
  {
    if ps != [] && ps[0].priority >= p.priority {
      InsertIsDescending(ps[1..], p);
      assert Below(Insert(ps[1..], p), ps[0].priority);
    }
  }

  ghost predicate Below(ps: seq<Pair>, v: nat)
  {
    forall i :: 0 <= i < |ps| ==> ps[i].priority <= v
  }

  lemma {:induction false} InsertIsStable(ps: seq<Pair>, p: Pair, v: nat)
    requires Descending(ps)
    ensures OfPriority(Insert(ps, p), v) == OfPriority(ps, v) + if p.priority == v then [p] else []
  {
    if ps == [] {
      assert Insert(ps, p) == [p] && [p][1..] == [];
    } else if ps[0].priority < p.priority {
      assert ([p] + ps)[1..] == ps;
      if p.priority == v {
        NoneOfPriority(ps, v);
      }
    } else {
      var rest := Insert(ps[1..], p);
      assert ([ps[0]] + rest)[1..] == rest;
      InsertIsStable(ps[1..], p, v);
    }
  }

  lemma {:induction false} NoneOfPriority(ps: seq<Pair>, v: nat)
    requires forall i :: 0 <= i < |ps| ==> ps[i].priority < v
    ensures OfPriority(ps, v) == []
  {
    if ps != [] {
      NoneOfPriority(ps[1..], v);
    }
  }

  lemma {:induction false} OfPriorityAppends(ps: seq<Pair>, p: Pair, v: nat)
    ensures OfPriority(ps + [p], v) == OfPriority(ps, v) + if p.priority == v then [p] else []
  {
    if ps == [] {
      assert ps + [p] == [p] && [p][1..] == [];
    } else {
      assert (ps + [p])[1..] == ps[1..] + [p] && (ps + [p])[0] == ps[0];
      OfPriorityAppends(ps[1..], p, v);
      var head, rest := if ps[0].priority == v then [ps[0]] else [], OfPriority(ps[1..], v);
      var tail := if p.priority == v then [p] else [];
      assert OfPriority(ps + [p], v) == head + (rest + tail);
      assert head + (rest + tail) == (head + rest) + tail;
    }
  }

  /** The checklist is a stable sort: by falling priority, the same pairs, equals in their old order. */
  lemma {:induction false} SortedIsStable(ps: seq<Pair>)
    ensures Descending(Sorted(ps)) && multiset(Sorted(ps)) == multiset(ps)
    ensures forall v :: OfPriority(Sorted(ps), v) == OfPriority(ps, v)
  {
    if ps != [] {
      var front, last := ps[..|ps| - 1], ps[|ps| - 1];
      assert ps == front + [last];
      SortedIsStable(front);
      InsertIsDescending(Sorted(front), last);
      InsertIsPermutation(Sorted(front), last);
      forall v ensures OfPriority(Sorted(ps), v) == OfPriority(ps, v) {
        InsertIsStable(Sorted(front), last, v);
        OfPriorityAppends(front, last, v);
      }
    }
  }

  // ---- Checking ----

  predicate Due(p: Pair)
  {
    p.state == Waiting || (p.state == InProgress && p.attempts < MAX_ATTEMPTS)
  }

  function FirstDue(ps: seq<Pair>): (i: Option<nat>)
    ensures i.Some? ==> i.value < |ps| && Due(ps[i.value]) && forall j :: 0 <= j < i.value ==> !Due(ps[j])
    ensures i.None? ==> forall j :: 0 <= j < |ps| ==> !Due(ps[j])
  {
    if ps == [] then None
    else if Due(ps[0]) then Some(0)
    else
      var r := FirstDue(ps[1..]);
      if r.None? then None else
        assert forall j :: 0 < j < |ps| ==> ps[j] == ps[1..][j - 1];
        Some(r.value + 1)
  }

  function Each(ps: seq<Pair>, f: Pair -> Pair): (r: seq<Pair>)
    ensures |r| == |ps| && forall i :: 0 <= i < |ps| ==> r[i] == f(ps[i])
  {
    seq(|ps|, i requires 0 <= i < |ps| => f(ps[i]))
  }

  function Expired(p: Pair): (q: Pair)
  {
    if p.state == Succeeded then p else p.(state := Failed)
  }

  predicate Between(p: Pair, local: Endpoint, remote: Endpoint)
  {
    p.local.endpoint == local && p.remote.endpoint == remote
  }

  function Probed(local: Endpoint, remote: Endpoint): Pair -> Pair
  {
    (p: Pair) => if Between(p, local, remote) && p.state != Succeeded && p.state != Failed
                 then p.(state := InProgress, attempts := p.attempts + 1) else p
  }

  function Reported(local: Endpoint, remote: Endpoint, success: bool, rtt: Option<nat>): Pair -> Pair
  {
    (p: Pair) => if !(Between(p, local, remote) && p.state == InProgress) then p
                 else if success then p.(state := Succeeded, rtt := rtt)
                 else p.(state := if p.attempts >= MAX_ATTEMPTS then Failed else Waiting, rtt := None)
  }

  datatype Verdict = Nominee(index: nat) | NotYet | Hopeless

  /** Down the list: a success ends the search, and before the deadline so does a pair still open. */
  function Search(ps: seq<Pair>, late: bool): (v: Verdict)
  {
    if ps == [] then Hopeless
    else if ps[0].state == Succeeded then Nominee(0)
    else if !late && ps[0].state != Failed then NotYet
    else
      var v := Search(ps[1..], late);
      if v.Nominee? then Nominee(v.index + 1) else v
  }

  /** The search finds the first success, provided everything before it has failed or time is up. */
  lemma {:induction false} SearchFinds(ps: seq<Pair>, late: bool)
    ensures var v := Search(ps, late);
      && (v.Nominee? ==> v.index < |ps| && ps[v.index].state == Succeeded)
      && (v.Nominee? ==> forall j :: 0 <= j < v.index ==> ps[j].state != Succeeded && (late || ps[j].state == Failed))
      && (v == Hopeless ==> forall j :: 0 <= j < |ps| ==> ps[j].state != Succeeded && (late || ps[j].state == Failed))
      && (late ==> v != NotYet)
  {
    if ps != [] && ps[0].state != Succeeded && (late || ps[0].state == Failed) {
      SearchFinds(ps[1..], late);
      assert forall j :: 0 < j < |ps| ==> ps[j] == ps[1..][j - 1];
    }
  }

  function Nominate(c: Checks, now: int): (r: (Checks, Option<nat>))
  {
    if c.state == GivenUp then (c, None)
    else
      match Search(c.pairs, now >= c.deadline)
      case Nominee(i) => (c.(state := Connected), Some(i))
      case NotYet => (c, None)
      case Hopeless => (c.(state := GivenUp), None)
  }

  function Next(c: Checks, now: int): (r: (Checks, Option<nat>))
  {
    if c.state != Checking || now < c.nextAt then (c, None)
    else if now >= c.deadline then (Nominate(c.(pairs := Each(c.pairs, Expired)), now).0, None)
    else
      var due := FirstDue(c.pairs);
      if due.None? then (Nominate(c, now).0, None)
      else
        var p := c.pairs[due.value];
        (c.(pairs := c.pairs[due.value := p.(state := InProgress, attempts := p.attempts + 1)], nextAt := now + PACE), due)
  }

  function AfterProbe(c: Checks, local: Endpoint, remote: Endpoint): (r: Checks)
  {
    if c.state != Checking then c else c.(pairs := Each(c.pairs, Probed(local, remote)))
  }

  function AfterResult(c: Checks, local: Endpoint, remote: Endpoint, success: bool, rtt: Option<nat>): (r: Checks)
  {
    if c.state != Checking then c else c.(pairs := Each(c.pairs, Reported(local, remote, success, rtt)))
  }

  datatype Call =
    | AskNext(now: int)
    | Probe(local: Endpoint, remote: Endpoint)
    | Report(local: Endpoint, remote: Endpoint, success: bool, rtt: Option<nat>)
    | AskNominee(now: int)

  /** The state after a call, and the index of the pair it returned. */
  function Step(c: Checks, x: Call): (r: (Checks, Option<nat>))
  {
    match x
    case AskNext(now) => Next(c, now)
    case Probe(local, remote) => (AfterProbe(c, local, remote), None)
    case Report(local, remote, success, rtt) => (AfterResult(c, local, remote, success, rtt), None)
    case AskNominee(now) => Nominate(c, now)
  }

  // ---- Every run ----

  /** A pair that waits has attempts left, and the list stays in order. */
  ghost predicate Inv(c: Checks)
  {
    Descending(c.pairs) && forall i :: 0 <= i < |c.pairs| ==> (c.pairs[i].state == Waiting ==> c.pairs[i].attempts < MAX_ATTEMPTS)
  }

  /** Candidates and priorities never change, attempts never fall. */
  ghost predicate Continues(p: Pair, q: Pair)
  {
    p.local == q.local && p.remote == q.remote && p.priority == q.priority && p.attempts <= q.attempts
  }

  lemma StepContinues(c: Checks, x: Call)
    requires Inv(c)
    ensures var (d, out) := Step(c, x);
      && Inv(d) && |d.pairs| == |c.pairs| && d.deadline == c.deadline
      && (forall i :: 0 <= i < |c.pairs| ==> Continues(c.pairs[i], d.pairs[i]))
      && (x.AskNext? && out.Some? ==> out.value < |c.pairs| && c.pairs[out.value].attempts < MAX_ATTEMPTS)
      && (x.AskNext? && out.Some? ==> d.pairs[out.value].attempts == c.pairs[out.value].attempts + 1)
  {
    hide Search, Descending;
    var d := Step(c, x).0;
    assert |d.pairs| == |c.pairs| && forall i :: 0 <= i < |c.pairs| ==> Continues(c.pairs[i], d.pairs[i]);
    SamePriorities(c.pairs, d.pairs);
  }

  lemma SamePriorities(ps: seq<Pair>, qs: seq<Pair>)
    requires Descending(ps) && |ps| == |qs| && forall i :: 0 <= i < |ps| ==> ps[i].priority == qs[i].priority
    ensures Descending(qs)
  {
  }

  function After(c: Checks, xs: seq<Call>): (d: Checks)
    decreases |xs|
  {
    if xs == [] then c else After(Step(c, xs[0]).0, xs[1..])
  }

  /** The checklist the constructor leaves. */
  function Started(local: DeviceId, peer: DeviceId, locals: seq<Candidate>, remotes: seq<Candidate>, now: int): (c: Checks)
  {
    Checks(Sorted(AllPairs(Before(local, peer), locals, remotes)), Checking, now + PATIENCE, now)
  }

  lemma {:induction false} PairsAreNew(controlling: bool, locals: seq<Candidate>, remotes: seq<Candidate>, p: Pair)
    requires p in AllPairs(controlling, locals, remotes)
    ensures p.state == Waiting && p.attempts == 0
  {
    var front := locals[..|locals| - 1];
    if p in AllPairs(controlling, front, remotes) {
      PairsAreNew(controlling, front, remotes, p);
    }
  }

  lemma StartsSound(local: DeviceId, peer: DeviceId, locals: seq<Candidate>, remotes: seq<Candidate>, now: int)
    ensures Inv(Started(local, peer, locals, remotes, now))
  {
    var all := AllPairs(Before(local, peer), locals, remotes);
    SortedIsStable(all);
    hide Sorted, AllPairs;
    forall i | 0 <= i < |Sorted(all)| ensures Sorted(all)[i].attempts == 0 {
      assert Sorted(all)[i] in multiset(all);
      PairsAreNew(Before(local, peer), locals, remotes, Sorted(all)[i]);
    }
  }

  lemma {:induction false} RunKeepsInv(c: Checks, xs: seq<Call>)
    requires Inv(c)
    ensures Inv(After(c, xs)) && |After(c, xs).pairs| == |c.pairs| && After(c, xs).deadline == c.deadline
    decreases |xs|
  {
    hide Step, Inv;
    if xs != [] {
      StepContinues(c, xs[0]);
      RunKeepsInv(Step(c, xs[0]).0, xs[1..]);
    }
  }

  // ---- Attempts ----

  /** How often `next` hands out pair `i` in a run. */
  function Emissions(c: Checks, xs: seq<Call>, i: nat): (n: nat)
    decreases |xs|
  {
    if xs == [] then 0
    else (if xs[0].AskNext? && Step(c, xs[0]).1 == Some(i) then 1 else 0) + Emissions(Step(c, xs[0]).0, xs[1..], i)
  }

  lemma {:induction false} AttemptsLeft(c: Checks, xs: seq<Call>, i: nat)
    requires Inv(c) && i < |c.pairs|
    ensures Emissions(c, xs, i) <= if c.pairs[i].attempts < MAX_ATTEMPTS then MAX_ATTEMPTS - c.pairs[i].attempts else 0
    decreases |xs|
  {
    hide Step, Inv;
    if xs != [] {
      StepContinues(c, xs[0]);
      var d := Step(c, xs[0]).0;
      assert Continues(c.pairs[i], d.pairs[i]);
      AttemptsLeft(d, xs[1..], i);
    }
  }

  /** From the constructor on, whatever is called, no pair is handed out more than three times. */
  lemma AtMostThreeAttempts(local: DeviceId, peer: DeviceId, locals: seq<Candidate>, remotes: seq<Candidate>, now: int, xs: seq<Call>, i: nat)
    requires i < |Started(local, peer, locals, remotes, now).pairs|
    ensures Emissions(Started(local, peer, locals, remotes, now), xs, i) <= MAX_ATTEMPTS
  {
    StartsSound(local, peer, locals, remotes, now);
    hide Started, Inv, Emissions;
    AttemptsLeft(Started(local, peer, locals, remotes, now), xs, i);
  }

  // ---- Nominations ----

  lemma SearchIsBest(ps: seq<Pair>, i: nat)
    requires Descending(ps) && Search(ps, false) == Nominee(i)
    ensures i < |ps| && ps[i].state == Succeeded
    ensures forall j :: 0 <= j < |ps| && ps[j].priority > ps[i].priority ==> ps[j].state == Failed
    ensures forall j :: 0 <= j < |ps| && ps[j].state == Succeeded ==> ps[j].priority <= ps[i].priority
  {
    SearchFinds(ps, false);
  }

  /** After any run, a pair nominated in time is the best success, and every better pair has failed. */
  lemma NominatedIsBest(local: DeviceId, peer: DeviceId, locals: seq<Candidate>, remotes: seq<Candidate>, start: int, xs: seq<Call>, now: int, i: nat)
    requires now < start + PATIENCE && Nominate(After(Started(local, peer, locals, remotes, start), xs), now).1 == Some(i)
    ensures var ps := After(Started(local, peer, locals, remotes, start), xs).pairs;
      && i < |ps| && ps[i].state == Succeeded
      && (forall j :: 0 <= j < |ps| && ps[j].priority > ps[i].priority ==> ps[j].state == Failed)
      && (forall j :: 0 <= j < |ps| && ps[j].state == Succeeded ==> ps[j].priority <= ps[i].priority)
  {
    var c := Started(local, peer, locals, remotes, start);
    StartsSound(local, peer, locals, remotes, start);
    RunKeepsInv(c, xs);
    hide After;
    SearchIsBest(After(c, xs).pairs, i);
  }

  /** More time never changes what has been found. */
  lemma {:induction false} SearchIsStable(ps: seq<Pair>, i: nat)
    requires Search(ps, false) == Nominee(i)
    ensures Search(ps, true) == Nominee(i)
  {
    if ps[0].state != Succeeded {
      SearchIsStable(ps[1..], i - 1);
    }
  }

  function TimeOf(x: Call, now: int): int
  {
    match x
    case AskNext(t) => t
    case AskNominee(t) => t
    case _ => now
  }

  /** The time of the last call that has one. */
  function TimeAfter(xs: seq<Call>, now: int): int
    decreases |xs|
  {
    if xs == [] then now else TimeAfter(xs[1..], TimeOf(xs[0], now))
  }

  /** Time never goes back along the calls. */
  predicate NotBefore(xs: seq<Call>, now: int)
    decreases |xs|
  {
    xs == [] || (now <= TimeOf(xs[0], now) && NotBefore(xs[1..], TimeOf(xs[0], now)))
  }

  /** A connected checklist has a pair to show for it. */
  ghost predicate Settled(c: Checks, now: int)
  {
    c.state == Connected ==> Search(c.pairs, now >= c.deadline).Nominee?
  }

  function NomineeOf(c: Checks, now: int): (v: Verdict)
  {
    Search(c.pairs, now >= c.deadline)
  }

  lemma WaitingSettles(c: Checks, now: int, later: int)
    requires Settled(c, now) && now <= later
    ensures Settled(c, later) && (c.state == Connected ==> NomineeOf(c, later) == NomineeOf(c, now))
  {
    if c.state == Connected && now < c.deadline <= later {
      SearchIsStable(c.pairs, Search(c.pairs, false).index);
    }
  }

  lemma SettledStays(c: Checks, x: Call, now: int)
    requires Settled(c, now) && now <= TimeOf(x, now)
    ensures Settled(Step(c, x).0, TimeOf(x, now))
    ensures c.state == Connected ==> Step(c, x).0 == c && NomineeOf(c, TimeOf(x, now)) == NomineeOf(c, now)
    ensures c.state == Connected && x.AskNominee? ==> Step(c, x).1 == Some(NomineeOf(c, now).index)
  {
    hide Search;
    WaitingSettles(c, now, TimeOf(x, now));
  }

  lemma {:induction false} RunSettles(c: Checks, xs: seq<Call>, now: int)
    requires Settled(c, now) && NotBefore(xs, now)
    ensures Settled(After(c, xs), TimeAfter(xs, now))
    decreases |xs|
  {
    hide Step, Settled;
    if xs != [] {
      SettledStays(c, xs[0], now);
      RunSettles(Step(c, xs[0]).0, xs[1..], TimeOf(xs[0], now));
    }
  }

  lemma {:induction false} ConnectedAnswers(c: Checks, xs: seq<Call>, now: int, k: nat)
    requires Settled(c, now) && c.state == Connected && NotBefore(xs, now) && k < |xs| && xs[k].AskNominee?
    ensures Step(After(c, xs[..k]), xs[k]).1 == Some(NomineeOf(c, now).index)
    decreases |xs|
  {
    hide Step, NomineeOf;
    SettledStays(c, xs[0], now);
    if k == 0 {
      assert xs[..0] == [];
    } else {
      assert xs[..k][1..] == xs[1..][..k - 1] && xs[..k][0] == xs[0];
      ConnectedAnswers(c, xs[1..], TimeOf(xs[0], now), k - 1);
    }
  }

  lemma {:induction false} AfterSplits(c: Checks, xs: seq<Call>, m: nat, k: nat, now: int)
    requires m <= k <= |xs|
    ensures After(c, xs[..k]) == After(After(c, xs[..m]), xs[m..][..k - m])
    ensures NotBefore(xs, now) ==> NotBefore(xs[..m], now) && NotBefore(xs[m..], TimeAfter(xs[..m], now))
    decreases m
  {
    hide Step;
    if m == 0 {
      assert xs[m..] == xs && xs[..0] == [];
    } else {
      AfterSplits(Step(c, xs[0]).0, xs[1..], m - 1, k - 1, TimeOf(xs[0], now));
      assert xs[..k][1..] == xs[1..][..k - 1] && xs[..m][1..] == xs[1..][..m - 1];
      assert xs[1..][m - 1..] == xs[m..];
    }
  }

  /**
    * In every run from the constructor whose time does not go back, once the
    * checklist is connected, by a nomination or through `next`, there is one
    * pair that every nomination from then on returns.
    */
  lemma NominationIsFinal(local: DeviceId, peer: DeviceId, locals: seq<Candidate>, remotes: seq<Candidate>, start: int, xs: seq<Call>, m: nat)
    requires NotBefore(xs, start) && m <= |xs|
    requires After(Started(local, peer, locals, remotes, start), xs[..m]).state == Connected
    ensures exists i :: AlwaysNominates(Started(local, peer, locals, remotes, start), xs, m, i)
  {
    var c, now := Started(local, peer, locals, remotes, start), TimeAfter(xs[..m], start);
    var d := After(c, xs[..m]);
    AfterSplits(c, xs, m, m, start);
    assert Settled(c, start);
    RunSettles(c, xs[..m], start);
    assert NomineeOf(d, now).Nominee?;
    hide Step, After, NotBefore, Started, NomineeOf, TimeAfter;
    var i := NomineeOf(d, now).index;
    forall k | m <= k < |xs| && xs[k].AskNominee? ensures Step(After(c, xs[..k]), xs[k]).1 == Some(i) {
      AfterSplits(c, xs, m, k, start);
      ConnectedAnswers(d, xs[m..], now, k - m);
    }
    assert AlwaysNominates(c, xs, m, i);
  }

  /** From call `m` on, every nomination of the run returns pair `i`. */
  ghost predicate AlwaysNominates(c: Checks, xs: seq<Call>, m: nat, i: nat)
  {
    forall k :: m <= k < |xs| && xs[k].AskNominee? ==> Step(After(c, xs[..k]), xs[k]).1 == Some(i)
  }

  /** A nomination connects the checklist to the pair it returns. */
  lemma NominatingSettles(c: Checks, now: int, i: nat)
    requires Nominate(c, now).1 == Some(i)
    ensures Nominate(c, now).0.state == Connected && NomineeOf(Nominate(c, now).0, now) == Nominee(i)
  {
  }

  // ---- What becomes of a pair ----

  /** Call `x` reports on pair `i`, which is in progress while the list is being checked. */
  predicate ReportsOn(c: Checks, x: Call, i: nat)
    requires i < |c.pairs|
  {
    && x.Report? && c.state == Checking && c.pairs[i].state == InProgress
    && c.pairs[i].local.endpoint == x.local && c.pairs[i].remote.endpoint == x.remote
  }

  /** Call `x` hands out pair `i`, or is a probe between its endpoints while it is open. */
  predicate Tries(c: Checks, x: Call, i: nat)
    requires i < |c.pairs|
  {
    || (x.AskNext? && Step(c, x).1 == Some(i))
    || (&& x.Probe? && c.state == Checking && c.pairs[i].local.endpoint == x.local && c.pairs[i].remote.endpoint == x.remote
        && (c.pairs[i].state == Waiting || c.pairs[i].state == InProgress))
  }

  /** Call `x` finds the deadline passed. */
  predicate RunsOut(c: Checks, x: Call)
  {
    x.AskNext? && c.state == Checking && x.now >= c.nextAt && x.now >= c.deadline
  }

  /** One call and one pair: what it does to the state and to the count of attempts, and when. */
  lemma PairMoves(c: Checks, x: Call, i: nat)
    requires i < |c.pairs|
    ensures var p, d := c.pairs[i], Step(c, x).0;
      && |d.pairs| == |c.pairs|
      && (d.pairs[i].state == Succeeded <==> p.state == Succeeded || (ReportsOn(c, x, i) && x.success))
      && (d.pairs[i].state == Failed <==>
            p.state == Failed || (ReportsOn(c, x, i) && !x.success && p.attempts >= 3) || (RunsOut(c, x) && p.state != Succeeded))
      && (d.pairs[i].state == InProgress <==> Tries(c, x, i) || (p.state == InProgress && !ReportsOn(c, x, i) && !RunsOut(c, x)))
      && d.pairs[i].attempts == p.attempts + (if Tries(c, x, i) then 1 else 0)
      && d.pairs[i].rtt == (if ReportsOn(c, x, i) then (if x.success then x.rtt else None) else p.rtt)
  {
    hide Search;
  }

  ghost predicate SucceedsAt(c: Checks, xs: seq<Call>, i: nat, k: nat)
    requires k < |xs|
  {
    var d := After(c, xs[..k]);
    i < |d.pairs| && ReportsOn(d, xs[k], i) && xs[k].success
  }

  ghost predicate FailsAt(c: Checks, xs: seq<Call>, i: nat, k: nat)
    requires k < |xs|
  {
    var d := After(c, xs[..k]);
    && i < |d.pairs|
    && ((ReportsOn(d, xs[k], i) && !xs[k].success && d.pairs[i].attempts >= 3) || (RunsOut(d, xs[k]) && d.pairs[i].state != Succeeded))
  }

  lemma AfterFirst(c: Checks, xs: seq<Call>, k: nat)
    requires k < |xs| - 1
    ensures After(c, xs[..k + 1]) == After(Step(c, xs[0]).0, xs[1..][..k]) && xs[1..][k] == xs[k + 1]
  {
    hide Step;
    assert xs[..k + 1][1..] == xs[1..][..k];
  }

  lemma {:induction false} OutcomeOfRun(c: Checks, xs: seq<Call>, i: nat)
    requires i < |c.pairs|
    ensures |After(c, xs).pairs| == |c.pairs|
    ensures After(c, xs).pairs[i].state == Succeeded <==> c.pairs[i].state == Succeeded || exists k :: 0 <= k < |xs| && SucceedsAt(c, xs, i, k)
    ensures After(c, xs).pairs[i].state == Failed <==> c.pairs[i].state == Failed || exists k :: 0 <= k < |xs| && FailsAt(c, xs, i, k)
    decreases |xs|
  {
    hide Step, ReportsOn, RunsOut;
    if xs != [] {
      var d, rest := Step(c, xs[0]).0, xs[1..];
      PairMoves(c, xs[0], i);
      OutcomeOfRun(d, rest, i);
      assert xs[..0] == [];
      assert xs[0].Report? ==> (SucceedsAt(c, xs, i, 0) <==> ReportsOn(c, xs[0], i) && xs[0].success);
      forall k | 0 <= k < |rest|
        ensures SucceedsAt(c, xs, i, k + 1) <==> SucceedsAt(d, rest, i, k)
        ensures FailsAt(c, xs, i, k + 1) <==> FailsAt(d, rest, i, k)
      {
        AfterFirst(c, xs, k);
      }
      ShiftSome(c, xs, i);
    }
  }

  /** An index of the run is the first one, or one of the rest. */
  lemma ShiftSome(c: Checks, xs: seq<Call>, i: nat)
    requires xs != []
    requires var d := Step(c, xs[0]).0; forall k :: 0 <= k < |xs[1..]| ==>
      (SucceedsAt(c, xs, i, k + 1) <==> SucceedsAt(d, xs[1..], i, k)) && (FailsAt(c, xs, i, k + 1) <==> FailsAt(d, xs[1..], i, k))
    ensures var d := Step(c, xs[0]).0;
      && ((exists k :: 0 <= k < |xs| && SucceedsAt(c, xs, i, k)) <==>
            SucceedsAt(c, xs, i, 0) || exists k :: 0 <= k < |xs[1..]| && SucceedsAt(d, xs[1..], i, k))
      && ((exists k :: 0 <= k < |xs| && FailsAt(c, xs, i, k)) <==>
            FailsAt(c, xs, i, 0) || exists k :: 0 <= k < |xs[1..]| && FailsAt(d, xs[1..], i, k))
  {
    hide Step, SucceedsAt, FailsAt;
    var d := Step(c, xs[0]).0;
    if k :| 0 <= k < |xs| && SucceedsAt(c, xs, i, k) {
      assert k == 0 || SucceedsAt(d, xs[1..], i, k - 1);
    }
    if k :| 0 <= k < |xs| && FailsAt(c, xs, i, k) {
      assert k == 0 || FailsAt(d, xs[1..], i, k - 1);
    }
  }

  /** From the constructor on: a pair has succeeded if and only if some call reported success for it while it was being checked. */
  lemma SucceededExactly(local: DeviceId, peer: DeviceId, locals: seq<Candidate>, remotes: seq<Candidate>, now: int, xs: seq<Call>, i: nat)
    requires i < |Started(local, peer, locals, remotes, now).pairs|
    ensures var c := Started(local, peer, locals, remotes, now);
      && |After(c, xs).pairs| == |c.pairs|
      && (After(c, xs).pairs[i].state == Succeeded <==> exists k :: 0 <= k < |xs| && SucceedsAt(c, xs, i, k))
      && (After(c, xs).pairs[i].state == Failed <==> exists k :: 0 <= k < |xs| && FailsAt(c, xs, i, k))
  {
    StartsWaiting(local, peer, locals, remotes, now, i);
    hide Started, After;
    OutcomeOfRun(Started(local, peer, locals, remotes, now), xs, i);
  }

  lemma StartsWaiting(local: DeviceId, peer: DeviceId, locals: seq<Candidate>, remotes: seq<Candidate>, now: int, i: nat)
    requires i < |Started(local, peer, locals, remotes, now).pairs|
    ensures Started(local, peer, locals, remotes, now).pairs[i].state == Waiting && Started(local, peer, locals, remotes, now).pairs[i].attempts == 0
  {
    var all := AllPairs(Before(local, peer), locals, remotes);
    SortedIsStable(all);
    hide Sorted, AllPairs;
    assert Sorted(all)[i] in multiset(all);
    PairsAreNew(Before(local, peer), locals, remotes, Sorted(all)[i]);
  }

  /** Every nominated pair was reported to work. */
  lemma NominatedWasReported(local: DeviceId, peer: DeviceId, locals: seq<Candidate>, remotes: seq<Candidate>, start: int, xs: seq<Call>, now: int, i: nat)
    requires Nominate(After(Started(local, peer, locals, remotes, start), xs), now).1 == Some(i)
    ensures i < |Started(local, peer, locals, remotes, start).pairs|
    ensures exists k :: 0 <= k < |xs| && SucceedsAt(Started(local, peer, locals, remotes, start), xs, i, k)
  {
    var c := Started(local, peer, locals, remotes, start);
    StartsSound(local, peer, locals, remotes, start);
    RunKeepsInv(c, xs);
    SearchFinds(After(c, xs).pairs, now >= After(c, xs).deadline);
    hide After, Started, Inv;
    SucceededExactly(local, peer, locals, remotes, start, xs, i);
  }

  /** How often a pair is handed out or probed while open, in a run. */
  function Tried(c: Checks, xs: seq<Call>, i: nat): (n: nat)
    decreases |xs|
  {
    if xs == [] then 0 else (if i < |c.pairs| && Tries(c, xs[0], i) then 1 else 0) + Tried(Step(c, xs[0]).0, xs[1..], i)
  }

  lemma {:induction false} AttemptsAreCounted(c: Checks, xs: seq<Call>, i: nat)
    requires i < |c.pairs|
    ensures |After(c, xs).pairs| == |c.pairs| && After(c, xs).pairs[i].attempts == c.pairs[i].attempts + Tried(c, xs, i)
    decreases |xs|
  {
    hide Step, Tries;
    if xs != [] {
      PairMoves(c, xs[0], i);
      AttemptsAreCounted(Step(c, xs[0]).0, xs[1..], i);
    }
  }

  /** A pair is handed out exactly when time allows and it is the first that waits or has fewer than three attempts. */
  lemma HandedOutExactly(c: Checks, now: int, i: nat)
    ensures Step(c, AskNext(now)).1 == Some(i) <==>
      && c.state == Checking && c.nextAt <= now < c.deadline && i < |c.pairs|
      && (c.pairs[i].state == Waiting || (c.pairs[i].state == InProgress && c.pairs[i].attempts < 3))
      && (forall j :: 0 <= j < i ==> !(c.pairs[j].state == Waiting || (c.pairs[j].state == InProgress && c.pairs[j].attempts < 3)))
    ensures Step(c, AskNext(now)).1.Some? ==> Step(c, AskNext(now)).0.nextAt == now + 100
  {
  }

  lemma {:induction false} NextAtRises(c: Checks, xs: seq<Call>)
    ensures After(c, xs).nextAt >= c.nextAt
    decreases |xs|
  {
    if xs != [] {
      assert Step(c, xs[0]).0.nextAt >= c.nextAt;
      hide Step;
      NextAtRises(Step(c, xs[0]).0, xs[1..]);
    }
  }

  /** Two pairs are never handed out within a hundred milliseconds. */
  lemma HandedOutAtAPace(c: Checks, first: int, between: seq<Call>, second: int)
    requires Step(c, AskNext(first)).1.Some?
    requires Step(After(Step(c, AskNext(first)).0, between), AskNext(second)).1.Some?
    ensures second >= first + 100
  {
    var d := Step(c, AskNext(first)).0;
    HandedOutExactly(c, first, Step(c, AskNext(first)).1.value);
    NextAtRises(d, between);
    var e := After(d, between);
    HandedOutExactly(e, second, Step(e, AskNext(second)).1.value);
  }

  // ---- The object ----

  /** The pairs a valid request gives, sorted; anything else is refused. */
  method BuildChecklist(local: DeviceId, peer: DeviceId, locals: seq<Candidate>, remotes: seq<Candidate>) returns (r: Result<seq<Pair>>)
    ensures r == if GoodLists(local, peer, locals, remotes) then Success(Sorted(AllPairs(Before(local, peer), locals, remotes))) else Failure
  {
    if local == peer || locals == [] || remotes == [] || |locals| > MAX_CANDIDATES || |remotes| > MAX_CANDIDATES {
      return Failure;
    }
    var controlling := Before(local, peer);
    var pairs: seq<Pair> := [];
    for i := 0 to |locals|
      invariant pairs == AllPairs(controlling, locals[..i], remotes)
      invariant forall k :: 0 <= k < i ==> GoodCandidate(locals[k])
      invariant i > 0 ==> forall k :: 0 <= k < |remotes| ==> GoodCandidate(remotes[k])
    {
      var a := locals[i];
      ghost var before := pairs;
      for j := 0 to |remotes|
        invariant pairs == before + Row(controlling, a, remotes[..j])
        invariant j > 0 ==> GoodCandidate(a)
        invariant forall k :: 0 <= k < j ==> GoodCandidate(remotes[k])
      {
        if !GoodCandidate(a) || !GoodCandidate(remotes[j]) {
          return Failure;
        }
        pairs := pairs + [NewPair(controlling, a, remotes[j])];
        assert Row(controlling, a, remotes[..j + 1]) == Row(controlling, a, remotes[..j]) + [NewPair(controlling, a, remotes[j])];
      }
      assert remotes[..|remotes|] == remotes;
      assert locals[..i + 1][..i] == locals[..i] && locals[..i + 1][i] == a;
    }
    assert locals[..|locals|] == locals;
    r := Success(Sorted(pairs));
  }

  class ConnectivityChecks {
    var pairs: seq<Pair>
    var state: Progress
    var deadline: int
    var nextAt: int

    function View(): (c: Checks)
      reads this
    {
      Checks(pairs, state, deadline, nextAt)
    }

    constructor (list: seq<Pair>, now: int)
      ensures View() == Checks(list, Checking, now + PATIENCE, now)
    {
      pairs, state, deadline, nextAt := list, Checking, now + PATIENCE, now;
    }

    method AskNext(now: int) returns (r: Option<nat>)
      modifies this
      ensures (View(), r) == Next(old(View()), now)
    {
      if state != Checking || now < nextAt {
        return None;
      }
      if now >= deadline {
        GiveUpOpenPairs();
        var _ := AskNominee(now);
        return None;
      }
      var selected := FindDue();
      if selected.None? {
        var _ := AskNominee(now);
        return None;
      }
      var p := pairs[selected.value];
      pairs := pairs[selected.value := p.(state := InProgress, attempts := p.attempts + 1)];
      nextAt := now + PACE;
      r := selected;
    }

    method GiveUpOpenPairs()
      modifies this`pairs
      ensures pairs == Each(old(pairs), Expired)
    {
      for i := 0 to |pairs|
        invariant |pairs| == |old(pairs)|
        invariant forall k :: 0 <= k < i ==> pairs[k] == Expired(old(pairs)[k])
        invariant forall k :: i <= k < |pairs| ==> pairs[k] == old(pairs)[k]
      {
        if pairs[i].state != Succeeded {
          pairs := pairs[i := pairs[i].(state := Failed)];
        }
      }
    }

    method FindDue() returns (r: Option<nat>)
      ensures r == FirstDue(pairs)
    {
      for i := 0 to |pairs|
        invariant forall k :: 0 <= k < i ==> !Due(pairs[k])
      {
        if Due(pairs[i]) {
          return Some(i);
        }
      }
      r := None;
    }

    method NoteProbe(local: Endpoint, remote: Endpoint)
      modifies this`pairs
      ensures View() == AfterProbe(old(View()), local, remote)
    {
      if state != Checking {
        return;
      }
      for i := 0 to |pairs|
        invariant |pairs| == |old(pairs)|
        invariant forall k :: 0 <= k < i ==> pairs[k] == Probed(local, remote)(old(pairs)[k])
        invariant forall k :: i <= k < |pairs| ==> pairs[k] == old(pairs)[k]
      {
        var p := pairs[i];
        if p.local.endpoint == local && p.remote.endpoint == remote && p.state != Succeeded && p.state != Failed {
          pairs := pairs[i := p.(state := InProgress, attempts := p.attempts + 1)];
        }
      }
      assert pairs == Each(old(pairs), Probed(local, remote));
    }

    method NoteResult(local: Endpoint, remote: Endpoint, success: bool, rtt: Option<nat>)
      modifies this`pairs
      ensures View() == AfterResult(old(View()), local, remote, success, rtt)
    {
      if state != Checking {
        return;
      }
      for i := 0 to |pairs|
        invariant |pairs| == |old(pairs)|
        invariant forall k :: 0 <= k < i ==> pairs[k] == Reported(local, remote, success, rtt)(old(pairs)[k])
        invariant forall k :: i <= k < |pairs| ==> pairs[k] == old(pairs)[k]
      {
        var p := pairs[i];
        if p.local.endpoint == local && p.remote.endpoint == remote && p.state == InProgress {
          var outcome := if success then Succeeded else if p.attempts >= MAX_ATTEMPTS then Failed else Waiting;
          pairs := pairs[i := p.(state := outcome, rtt := if success then rtt else None)];
        }
      }
      assert pairs == Each(old(pairs), Reported(local, remote, success, rtt));
    }

    method AskNominee(now: int) returns (r: Option<nat>)
      modifies this`state
      ensures (View(), r) == Nominate(old(View()), now)
    {
      if state == GivenUp {
        return None;
      }
      ghost var late := now >= deadline;
      for i := 0 to |pairs|
        invariant Search(pairs, late) == Shifted(Search(pairs[i..], late), i)
      {
        assert pairs[i..][1..] == pairs[i + 1..];
        if pairs[i].state == Succeeded {
          state := Connected;
          return Some(i);
        }
        if now < deadline && pairs[i].state != Failed {
          return None;
        }
      }
      state := GivenUp;
      r := None;
    }
  }

  function Shifted(v: Verdict, n: nat): Verdict
  {
    if v.Nominee? then Nominee(v.index + n) else v
  }
}
