/**
  * Which multicast a host receives, learnt from its IGMP reports (section
  * 4.2.12 of RFC 3376 for the records of version 3). Times are in seconds.
  */
module Multicast {
  import opened Bytes
  import opened Policy
  import opened Ipv4Fanout
  import opened Checksum

  type Address = u32

  /** A group's filter: everything but the listed sources, or only those. */
  datatype Group = Group(exclude: bool, sources: set<Address>, updated: int)

  type Groups = map<Address, Group>

  datatype Verdict = NotIgmp | Accepted | Rejected

  const LIFETIME: int := 260
  const MAX_GROUPS: nat := 64
  const MAX_SOURCES: nat := 64
  const MAX_RECORDS: nat := 64

  /** An address a packet can come from. */
  predicate IsSource(a: Address)
  {
    0 < a < 0xe000_0000
  }

  /** Groups a host receives before it says anything. */
  predicate DefaultOn(g: Address)
  {
    g == 0xe000_00fb || g == 0xefff_fffa
  }

  // ---- Reception ----

  predicate Live(groups: Groups, g: Address, now: int)
  {
    g in groups && now - groups[g].updated <= LIFETIME
  }

  predicate Passes(e: Group, source: Address)
  {
    e.exclude != (source in e.sources)
  }

  predicate Receives(groups: Groups, g: Address, source: Address, now: int)
  {
    IsScopedMulticast(g) && if Live(groups, g, now) then Passes(groups[g], source) else DefaultOn(g)
  }

  // ---- Records ----

  /** Kinds 1 and 3 set an include list, 2 and 4 an exclude list, 5 allows and 6 blocks. */
  datatype Record = Record(kind: nat, group: Address, sources: set<Address>)

  function Filtered(e: Group, r: Record, now: int): (f: Group)
  {
    if r.kind <= 4 then Group(r.kind == 2 || r.kind == 4, r.sources, now)
    else if (r.kind == 5) != e.exclude then Group(e.exclude, e.sources + r.sources, now)
    else Group(e.exclude, e.sources - r.sources, now)
  }

  function EntryOf(groups: Groups, g: Address): (e: Group)
  {
    if g in groups then groups[g] else Group(false, {}, 0)
  }

  function Apply(groups: Groups, r: Record, now: int): (t: Option<Groups>)
  {
    var e := Filtered(EntryOf(groups, r.group), r, now);
    if |e.sources| > MAX_SOURCES then None else Some(groups[r.group := e])
  }

  function ApplyAll(groups: Groups, rs: seq<Record>, now: int): (t: Option<Groups>)
    decreases |rs|
  {
    if rs == [] then Some(groups)
    else
      var first := Apply(groups, rs[0], now);
      if first.None? then None else ApplyAll(first.value, rs[1..], now)
  }

  function Fresh(groups: Groups, now: int): (t: Groups)
  {
    map g | g in groups && now - groups[g].updated <= LIFETIME :: groups[g]
  }

  // ---- What a report asks for ----

  /** What one record makes of the reception of a source it lists or does not list. */
  predicate Wanted(kind: nat, before: bool, listed: bool)
  {
    if kind == 1 || kind == 3 then listed
    else if kind == 2 || kind == 4 then !listed
    else if kind == 5 then before || listed
    else before && !listed
  }

  /** What all records of group `g` in turn make of it. */
  predicate WantedBy(rs: seq<Record>, g: Address, source: Address, before: bool)
    decreases |rs|
  {
    if rs == [] then before
    else WantedBy(rs[1..], g, source, if rs[0].group == g then Wanted(rs[0].kind, before, source in rs[0].sources) else before)
  }

  predicate Mentions(rs: seq<Record>, g: Address)
  {
    exists i :: 0 <= i < |rs| && rs[i].group == g
  }

  /** Some record of the group states a whole filter. */
  predicate Restates(rs: seq<Record>, g: Address)
  {
    exists i :: 0 <= i < |rs| && rs[i].group == g && rs[i].kind <= 4
  }

  predicate GoodRecords(rs: seq<Record>)
  {
    forall i :: 0 <= i < |rs| ==> 1 <= rs[i].kind <= 6 && IsScopedMulticast(rs[i].group) && |rs[i].sources| <= MAX_SOURCES
  }

  /** The receptions of entries themselves follow the records in either mode. */
  lemma FilteredIsWanted(e: Group, r: Record, source: Address, now: int)
    requires 1 <= r.kind <= 6
    ensures Passes(Filtered(e, r, now), source) <==> Wanted(r.kind, Passes(e, source), source in r.sources)
  {
  }

  lemma ApplyOne(groups: Groups, r: Record, now: int, g: Address, source: Address)
    requires Apply(groups, r, now).Some? && 1 <= r.kind <= 6 && IsScopedMulticast(g)
    ensures var t := Apply(groups, r, now).value;
      && (r.group != g ==> (Live(t, g, now) <==> Live(groups, g, now)) && Receives(t, g, source, now) == Receives(groups, g, source, now))
      && (r.group == g ==> Live(t, g, now) && Receives(t, g, source, now) == Wanted(r.kind, Passes(EntryOf(groups, g), source), source in r.sources))
  {
    FilteredIsWanted(EntryOf(groups, r.group), r, source, now);
  }

  /** All entries are live, as after the expired ones are dropped. */
  ghost predicate AllLive(groups: Groups, now: int)
  {
    forall g :: g in groups ==> Live(groups, g, now)
  }

  /** The reception a report starts from: a default-on group without an entry counts as silent once mentioned. */
  predicate StartsFrom(groups: Groups, rs: seq<Record>, g: Address, source: Address, now: int)
  {
    if !Live(groups, g, now) && Mentions(rs, g) then false else Receives(groups, g, source, now)
  }

  lemma {:induction false} ApplyAllFollows(groups: Groups, rs: seq<Record>, now: int, g: Address, source: Address)
    requires AllLive(groups, now) && GoodRecords(rs) && ApplyAll(groups, rs, now).Some? && IsScopedMulticast(g)
    ensures Receives(ApplyAll(groups, rs, now).value, g, source, now)
        <==> WantedBy(rs, g, source, StartsFrom(groups, rs, g, source, now))
    decreases |rs|
  {
    hide Receives, Wanted, Mentions;
    if rs != [] {
      var t := Apply(groups, rs[0], now).value;
      ApplyOne(groups, rs[0], now, g, source);
      ApplyKeepsLive(groups, rs[0], now);
      ApplyAllFollows(t, rs[1..], now, g, source);
      MentionsSplits(rs, g);
      StartsStep(groups, rs, now, g, source);
    } else {
      NothingMentioned(g);
    }
  }

  lemma NothingMentioned(g: Address)
    ensures !Mentions([], g)
  {
  }

  lemma ApplyKeepsLive(groups: Groups, r: Record, now: int)
    requires AllLive(groups, now) && Apply(groups, r, now).Some?
    ensures AllLive(Apply(groups, r, now).value, now)
  {
  }

  /** After the first record the rest starts from what that record makes of the start. */
  lemma StartsStep(groups: Groups, rs: seq<Record>, now: int, g: Address, source: Address)
    requires rs != [] && AllLive(groups, now) && GoodRecords(rs) && Apply(groups, rs[0], now).Some? && IsScopedMulticast(g)
    ensures StartsFrom(Apply(groups, rs[0], now).value, rs[1..], g, source, now) ==
      if rs[0].group == g then Wanted(rs[0].kind, StartsFrom(groups, rs, g, source, now), source in rs[0].sources)
      else StartsFrom(groups, rs, g, source, now)
  {
    hide Apply, Wanted;
    ApplyOne(groups, rs[0], now, g, source);
    MentionsSplits(rs, g);
    hide Mentions;
  }

  lemma MentionsSplits(rs: seq<Record>, g: Address)
    requires rs != []
    ensures Mentions(rs, g) <==> rs[0].group == g || Mentions(rs[1..], g)
    ensures Restates(rs, g) <==> (rs[0].group == g && rs[0].kind <= 4) || Restates(rs[1..], g)
  {
    if Mentions(rs, g) && rs[0].group != g {
      var i :| 0 <= i < |rs| && rs[i].group == g;
      assert rs[1..][i - 1] == rs[i];
    }
    if Restates(rs, g) && !(rs[0].group == g && rs[0].kind <= 4) {
      var i :| 0 <= i < |rs| && rs[i].group == g && rs[i].kind <= 4;
      assert rs[1..][i - 1] == rs[i];
    }
    if i :| 0 <= i < |rs[1..]| && rs[1..][i].group == g {
      assert rs[i + 1].group == g;
    }
    if i :| 0 <= i < |rs[1..]| && rs[1..][i].group == g && rs[1..][i].kind <= 4 {
      assert rs[i + 1].group == g;
    }
  }

  predicate Unlisted(rs: seq<Record>, source: Address)
  {
    forall i :: 0 <= i < |rs| ==> source !in rs[i].sources
  }

  /** The addresses from one to `n`. */
  ghost function UpTo(n: nat): (s: set<Address>)
    requires n < 0xe000_0000
    ensures |s| == n && forall a :: a in s ==> 1 <= a <= n
  {
    if n == 0 then {} else UpTo(n - 1) + {n}
  }

  lemma SubsetIsSmaller<T>(a: set<T>, b: set<T>)
    requires a <= b
    ensures |a| <= |b|
  {
    assert b == a + (b - a);
  }

  function Listed(rs: seq<Record>): (s: set<Address>)
  {
    if rs == [] then {} else rs[0].sources + Listed(rs[1..])
  }

  lemma {:induction false} ListedIsSmall(rs: seq<Record>)
    requires GoodRecords(rs)
    ensures |Listed(rs)| <= MAX_SOURCES * |rs|
    ensures forall i :: 0 <= i < |rs| ==> rs[i].sources <= Listed(rs)
  {
    if rs != [] {
      ListedIsSmall(rs[1..]);
      var rest := Listed(rs[1..]);
      assert |rs[0].sources + rest| <= |rs[0].sources| + |rest|;
      forall i | 0 <= i < |rs| ensures rs[i].sources <= Listed(rs) {
        assert i == 0 || rs[i] == rs[1..][i - 1];
      }
    }
  }

  /** A report cannot list every source there is. */
  lemma SomeUnlisted(rs: seq<Record>) returns (source: Address)
    requires GoodRecords(rs) && |rs| <= MAX_RECORDS
    ensures IsSource(source) && Unlisted(rs, source)
  {
    ListedIsSmall(rs);
    var range, listed := UpTo(MAX_SOURCES * MAX_RECORDS + 1), Listed(rs);
    if range <= listed {
      SubsetIsSmaller(range, listed);
      assert false;
    }
    source :| source in range && source !in listed;
  }

  /** A restated filter makes the past irrelevant; otherwise an unlisted source keeps it. */
  lemma {:induction false} PastMatters(rs: seq<Record>, g: Address, source: Address, before: bool)
    requires GoodRecords(rs)
    ensures Restates(rs, g) ==> WantedBy(rs, g, source, true) == WantedBy(rs, g, source, false)
    ensures !Restates(rs, g) && Unlisted(rs, source) ==> WantedBy(rs, g, source, before) == before
    decreases |rs|
  {
    if rs != [] {
      MentionsSplits(rs, g);
      PastMatters(rs[1..], g, source, before);
    }
  }

  /** The cases in which a report does not do what its records say. */
  predicate Surprises(groups: Groups, rs: seq<Record>, g: Address, now: int)
  {
    DefaultOn(g) && !Live(groups, g, now) && Mentions(rs, g) && !Restates(rs, g)
  }

  lemma FreshIsInvisible(groups: Groups, g: Address, source: Address, now: int)
    ensures AllLive(Fresh(groups, now), now)
    ensures Live(Fresh(groups, now), g, now) <==> Live(groups, g, now)
    ensures Receives(Fresh(groups, now), g, source, now) == Receives(groups, g, source, now)
  {
  }

  /** The group's reception, for every address a packet can come from, is what the records ask for. */
  ghost predicate AsWanted(groups: Groups, t: Groups, rs: seq<Record>, g: Address, now: int)
  {
    forall source | IsSource(source) :: Receives(t, g, source, now) == WantedBy(rs, g, source, Receives(groups, g, source, now))
  }

  lemma ReceivedAfter(groups: Groups, rs: seq<Record>, now: int, g: Address, source: Address)
    requires GoodRecords(rs) && ApplyAll(Fresh(groups, now), rs, now).Some? && IsScopedMulticast(g)
    ensures Receives(ApplyAll(Fresh(groups, now), rs, now).value, g, source, now)
        <==> WantedBy(rs, g, source, if !Live(groups, g, now) && Mentions(rs, g) then false else Receives(groups, g, source, now))
  {
    hide Fresh, ApplyAll, WantedBy, Mentions, Receives;
    FreshIsInvisible(groups, g, source, now);
    ApplyAllFollows(Fresh(groups, now), rs, now, g, source);
  }

  /**
    * An accepted report changes what is received exactly as its records say, for
    * every group and source, if and only if the group is not one that is on by
    * default, has no live entry and is only allowed or blocked sources.
    */
  lemma RecordsAreFollowedExactly(groups: Groups, rs: seq<Record>, now: int, g: Address)
    requires GoodRecords(rs) && |rs| <= MAX_RECORDS && ApplyAll(Fresh(groups, now), rs, now).Some? && IsScopedMulticast(g)
    ensures AsWanted(groups, ApplyAll(Fresh(groups, now), rs, now).value, rs, g, now) <==> !Surprises(groups, rs, g, now)
  {
    hide ApplyAll, Fresh, WantedBy, Mentions, Restates;
    var t := ApplyAll(Fresh(groups, now), rs, now).value;
    if Surprises(groups, rs, g, now) {
      var source := SomeUnlisted(rs);
      ReceivedAfter(groups, rs, now, g, source);
      PastMatters(rs, g, source, true);
      PastMatters(rs, g, source, false);
      assert Receives(t, g, source, now) != WantedBy(rs, g, source, Receives(groups, g, source, now));
    } else {
      forall source | IsSource(source) ensures Receives(t, g, source, now) == WantedBy(rs, g, source, Receives(groups, g, source, now)) {
        ReceivedAfter(groups, rs, now, g, source);
        PastMatters(rs, g, source, true);
      }
    }
  }

  /** Allowing one source of a group that is on by default stops every other source. */
  lemma AllowSilencesOthers(now: int)
    ensures var r := Record(5, 0xe000_00fb, {0x0a40_0001});
      && Receives(map[], r.group, 0x0a40_0002, now) && Apply(map[], r, now).Some?
      && !Receives(Apply(map[], r, now).value, r.group, 0x0a40_0002, now)
      && WantedBy([r], r.group, 0x0a40_0002, true)
  {
    var r := Record(5, 0xe000_00fb, {0x0a40_0001});
    assert Filtered(EntryOf(map[], r.group), r, now).sources == {0x0a40_0001};
    assert [r][1..] == [];
  }

  // ---- Reports on the wire ----

  function SourcesAt(s: seq<byte>, at: nat, n: nat): (r: Option<set<Address>>)
    requires at + 4 * n <= |s|
    ensures r.Some? ==> |r.value| <= n
  {
    if n == 0 then Some({})
    else
      var rest := SourcesAt(s, at, n - 1);
      var a := U32(s, at + 4 * (n - 1));
      if rest.None? || a == 0 || a >= 0xe000_0000 then None else Some(rest.value + {a})
  }

  datatype Parsed = Parsed(record: Record, next: nat)

  function RecordAt(s: seq<byte>, at: nat): (r: Option<Parsed>)
    requires at <= |s|
    ensures r.Some? ==> at < r.value.next <= |s| && GoodRecords([r.value.record])
  {
    if |s| - at < 8 then None
    else
      var kind, auxiliary, n, group := s[at] as int, s[at + 1] as int * 4, U16(s, at + 2), U32(s, at + 4);
      if kind < 1 || kind > 6 || n > MAX_SOURCES || !IsScopedMulticast(group) || 8 + n * 4 + auxiliary > |s| - at then None
      else
        var sources := SourcesAt(s, at + 8, n);
        if sources.None? then None else Some(Parsed(Record(kind, group, sources.value), at + 8 + n * 4 + auxiliary))
  }

  /** The records of a version 3 report, which have to fill it exactly. */
  function RecordsFrom(s: seq<byte>, at: nat, count: nat): (r: Option<seq<Record>>)
    requires at <= |s|
    ensures r.Some? ==> GoodRecords(r.value) && |r.value| == count
    decreases count
  {
    if count == 0 then if at == |s| then Some([]) else None
    else
      var first := RecordAt(s, at);
      if first.None? then None
      else
        var rest := RecordsFrom(s, first.value.next, count - 1);
        if rest.None? then None else Some([first.value.record] + rest.value)
  }

  /** Versions 1 and 2 join and leave a whole group, which are records that exclude and include nobody. */
  function Records(payload: seq<byte>, destination: Address): (r: Option<seq<Record>>)
    requires |payload| >= 8
    ensures r.Some? ==> GoodRecords(r.value) && |r.value| <= MAX_RECORDS
  {
    var kind := payload[0] as int;
    if kind == 0x12 || kind == 0x16 || kind == 0x17 then
      var group := U32(payload, 4);
      if |payload| != 8 || !IsScopedMulticast(group) || destination != (if kind == 0x17 then 0xe000_0002 else group) then None
      else Some([Record(if kind == 0x17 then 3 else 4, group, {})])
    else if kind == 0x22 then
      if destination != 0xe000_0016 || U16(payload, 6) > 64 then None else RecordsFrom(payload, 8, U16(payload, 6))
    else None
  }

  predicate IsIgmp(packet: seq<byte>)
  {
    |packet| >= 20 && packet[9] == 2
  }

  /** A whole datagram of version 4 with a time to live of one. */
  predicate GoodHeader(packet: seq<byte>)
    requires |packet| >= 20
  {
    && packet[0] / 16 == 4 && HasHeader(packet) && U16(packet, 2) == |packet|
    && U16(packet, 6) % 0x4000 == 0 && packet[8] == 1
  }

  function Observed(groups: Groups, packet: seq<byte>, now: int): (r: (Groups, Verdict))
  {
    if !IsIgmp(packet) then (groups, NotIgmp)
    else if !GoodHeader(packet) then (groups, Rejected)
    else
      var payload := packet[HeaderSize(packet)..];
      if |payload| < 8 || InternetChecksum(payload) != 0 then (groups, Rejected)
      else
        var rs := Records(payload, U32(packet, 16));
        if rs.None? then (groups, Rejected)
        else
          var t := ApplyAll(Fresh(groups, now), rs.value, now);
          if t.None? || |t.value| > MAX_GROUPS then (groups, Rejected) else (t.value, Accepted)
  }

  /** Which packets are reports, and which reports are accepted, on their octets. */
  lemma ObservedExactly(groups: Groups, p: seq<byte>, now: int)
    ensures Observed(groups, p, now).1 == NotIgmp <==> |p| < 20 || p[9] != 2
    ensures Observed(groups, p, now).1 == Accepted <==>
      && |p| >= 20 && p[9] == 2 && 0x45 <= p[0] <= 0x4f
      && var h := (p[0] as int - 0x40) * 4;
         && h + 8 <= |p| && U16(p, 2) == |p| && U16(p, 6) % 0x4000 == 0 && p[8] == 1 && InternetChecksum(p[h..]) == 0
         && var rs := Records(p[h..], U32(p, 16));
            && rs.Some? && ApplyAll(Fresh(groups, now), rs.value, now).Some? && |ApplyAll(Fresh(groups, now), rs.value, now).value| <= 64
  {
    hide InternetChecksum, Records, ApplyAll;
    if |p| >= 20 {
      assert p[0] / 16 == 4 && p[0] as int % 16 * 4 >= 20 <==> 0x45 <= p[0] <= 0x4f;
      assert p[0] / 16 == 4 ==> HeaderSize(p) == (p[0] as int - 0x40) * 4;
    }
  }

  ghost predicate Bounded(groups: Groups)
  {
    |groups| <= MAX_GROUPS && forall g :: g in groups ==> IsScopedMulticast(g) && |groups[g].sources| <= MAX_SOURCES
  }

  ghost predicate SourcesBounded(groups: Groups)
  {
    forall g :: g in groups ==> IsScopedMulticast(g) && |groups[g].sources| <= MAX_SOURCES
  }

  lemma {:induction false} ApplyAllStaysBounded(groups: Groups, rs: seq<Record>, now: int)
    requires SourcesBounded(groups) && GoodRecords(rs) && ApplyAll(groups, rs, now).Some?
    ensures SourcesBounded(ApplyAll(groups, rs, now).value)
    decreases |rs|
  {
    if rs != [] {
      ApplyAllStaysBounded(Apply(groups, rs[0], now).value, rs[1..], now);
    }
  }

  /** An accepted report follows its records, anything else changes nothing, and the tables stay small. */
  lemma ReportsAreFollowed(groups: Groups, packet: seq<byte>, now: int)
    requires Bounded(groups)
    ensures var (t, v) := Observed(groups, packet, now);
      && Bounded(t) && (v != Accepted ==> t == groups)
      && (v == Accepted ==> exists rs :: GoodRecords(rs) && Records(packet[HeaderSize(packet)..], U32(packet, 16)) == Some(rs)
                                          && Follows(groups, t, rs, now))
  {
    var (t, v) := Observed(groups, packet, now);
    if v == Accepted {
      var rs := Records(packet[HeaderSize(packet)..], U32(packet, 16)).value;
      ApplyAllStaysBounded(Fresh(groups, now), rs, now);
      hide AsWanted, Surprises, ApplyAll;
      forall g | IsScopedMulticast(g) ensures AsWanted(groups, t, rs, g, now) <==> !Surprises(groups, rs, g, now) {
        RecordsAreFollowedExactly(groups, rs, now, g);
      }
      assert Follows(groups, t, rs, now);
    }
  }

  ghost predicate Follows(groups: Groups, t: Groups, rs: seq<Record>, now: int)
  {
    forall g | IsScopedMulticast(g) :: AsWanted(groups, t, rs, g, now) <==> !Surprises(groups, rs, g, now)
  }

  // ---- What the octets of a report mean ----

  /** A record as a host writes it: a list of sources, and auxiliary words the relay skips. */
  datatype Written = Written(kind: byte, group: Address, sources: seq<Address>, auxiliary: seq<byte>)

  predicate WellWritten(w: Written)
  {
    && 1 <= w.kind <= 6 && IsScopedMulticast(w.group) && |w.sources| <= 64 && |w.auxiliary| % 4 == 0 && |w.auxiliary| < 1024
    && forall i :: 0 <= i < |w.sources| ==> IsSource(w.sources[i])
  }

  function SetOf(sources: seq<Address>): (s: set<Address>)
  {
    set a | a in sources
  }

  function Meaning(w: Written): (r: Record)
  {
    Record(w.kind, w.group, SetOf(w.sources))
  }

  function Words(sources: seq<Address>): (s: seq<byte>)
    ensures |s| == 4 * |sources|
  {
    if sources == [] then [] else Words(sources[..|sources| - 1]) + Be32(sources[|sources| - 1])
  }

  /** Section 4.2.4 of RFC 3376: type, auxiliary length in words, number of sources, group, sources, auxiliary data. */
  function Octets(w: Written): (s: seq<byte>)
    requires WellWritten(w)
    ensures |s| == 8 + 4 * |w.sources| + |w.auxiliary|
  {
    [w.kind, |w.auxiliary| / 4] + Be16(|w.sources|) + Be32(w.group) + Words(w.sources) + w.auxiliary
  }

  lemma WordAt(a: seq<byte>, v: Address, b: seq<byte>)
    ensures U32(a + Be32(v) + b, |a|) == v
  {
    var s := a + Be32(v) + b;
    assert s[|a|] == Be32(v)[0] && s[|a| + 1] == Be32(v)[1] && s[|a| + 2] == Be32(v)[2] && s[|a| + 3] == Be32(v)[3];
  }

  lemma MiddlePart(a: seq<byte>, x: seq<byte>, y: seq<byte>, b: seq<byte>)
    ensures a + (x + y) + b == a + x + (y + b) && a + (x + y) + b == (a + x) + y + b
  {
  }

  lemma SetSnoc(front: seq<Address>, last: Address)
    ensures SetOf(front + [last]) == SetOf(front) + {last} && SetOf([]) == {}
  {
  }

  lemma SourcesStep(s: seq<byte>, at: nat, n: nat, front: set<Address>, last: Address)
    requires n > 0 && at + 4 * n <= |s| && SourcesAt(s, at, n - 1) == Some(front) && U32(s, at + 4 * (n - 1)) == last && IsSource(last)
    ensures SourcesAt(s, at, n) == Some(front + {last})
  {
  }

  lemma {:induction false} SourcesOfWords(a: seq<byte>, sources: seq<Address>, b: seq<byte>)
    requires forall i :: 0 <= i < |sources| ==> IsSource(sources[i])
    ensures SourcesAt(a + Words(sources) + b, |a|, |sources|) == Some(SetOf(sources))
  {
    var n := |sources|;
    if n == 0 {
      SetSnoc([], 0);
      assert sources == [];
    } else {
      hide Be32, U32, SourcesAt, SetOf;
      var front, last := sources[..n - 1], sources[n - 1];
      assert sources == front + [last];
      SourcesOfWords(a, front, Be32(last) + b);
      MiddlePart(a, Words(front), Be32(last), b);
      WordAt(a + Words(front), last, b);
      SetSnoc(front, last);
      assert IsSource(last);
      SourcesStep(a + Words(sources) + b, |a|, n, SetOf(front), last);
    }
  }

  lemma RecordFields(s: seq<byte>, at: nat, w: Written)
    requires WellWritten(w) && at + 8 + 4 * |w.sources| + |w.auxiliary| <= |s|
    requires s[at] == w.kind && s[at + 1] == |w.auxiliary| / 4 && U16(s, at + 2) == |w.sources| && U32(s, at + 4) == w.group
    requires SourcesAt(s, at + 8, |w.sources|) == Some(Meaning(w).sources)
    ensures RecordAt(s, at) == Some(Parsed(Meaning(w), at + 8 + 4 * |w.sources| + |w.auxiliary|))
  {
    hide SourcesAt, IsScopedMulticast, U16, U32;
    assert s[at + 1] as int * 4 == |w.auxiliary|;
  }

  lemma RecordOfOctets(a: seq<byte>, w: Written, b: seq<byte>)
    requires WellWritten(w)
    ensures RecordAt(a + Octets(w) + b, |a|) == Some(Parsed(Meaning(w), |a| + |Octets(w)|))
  {
    hide Be16, Be32, U16, U32, Words, SetOf, IsSource, IsScopedMulticast;
    var head := [w.kind, |w.auxiliary| / 4] + Be16(|w.sources|) + Be32(w.group);
    SplitOctets(a, head, Words(w.sources), w.auxiliary, b);
    hide WellWritten, SourcesAt, RecordAt;
    OctetsLayout(a, w, b);
    WrittenSources(w);
    SourcesOfWords(a + head, w.sources, w.auxiliary + b);
    assert |a + head| == |a| + 8;
    RecordFields(a + Octets(w) + b, |a|, w);
  }

  lemma WrittenSources(w: Written)
    requires WellWritten(w)
    ensures forall i :: 0 <= i < |w.sources| ==> IsSource(w.sources[i])
  {
  }

  lemma SplitOctets(a: seq<byte>, head: seq<byte>, words: seq<byte>, aux: seq<byte>, b: seq<byte>)
    ensures a + (head + words + aux) + b == (a + head) + words + (aux + b)
  {
  }

  lemma OctetsLayout(a: seq<byte>, w: Written, b: seq<byte>)
    requires WellWritten(w)
    ensures var s, at := a + Octets(w) + b, |a|;
      s[at] == w.kind && s[at + 1] == |w.auxiliary| / 4 && U16(s, at + 2) == |w.sources| && U32(s, at + 4) == w.group
  {
    hide Words;
    var s, at, o := a + Octets(w) + b, |a|, Octets(w);
    assert forall i :: 0 <= i < 8 ==> s[at + i] == o[i];
    assert o[..8] == [w.kind, |w.auxiliary| / 4] + Be16(|w.sources|) + Be32(w.group);
    assert s[at + 2] == o[2] && s[at + 3] == o[3] && s[at + 4] == o[4] && s[at + 5] == o[5] && s[at + 6] == o[6] && s[at + 7] == o[7];
    assert o[2] == Be16(|w.sources|)[0] && o[3] == Be16(|w.sources|)[1];
    assert o[4] == Be32(w.group)[0] && o[5] == Be32(w.group)[1] && o[6] == Be32(w.group)[2] && o[7] == Be32(w.group)[3];
  }

  function AllOctets(ws: seq<Written>): (s: seq<byte>)
    requires forall i :: 0 <= i < |ws| ==> WellWritten(ws[i])
  {
    if ws == [] then [] else Octets(ws[0]) + AllOctets(ws[1..])
  }

  function Meanings(ws: seq<Written>): (rs: seq<Record>)
    ensures |rs| == |ws|
  {
    if ws == [] then [] else [Meaning(ws[0])] + Meanings(ws[1..])
  }

  lemma {:induction false} RecordsOfOctets(a: seq<byte>, ws: seq<Written>)
    requires forall i :: 0 <= i < |ws| ==> WellWritten(ws[i])
    ensures RecordsFrom(a + AllOctets(ws), |a|, |ws|) == Some(Meanings(ws))
    decreases |ws|
  {
    hide RecordAt, Octets, WellWritten, Meaning;
    if ws == [] {
      assert a + AllOctets(ws) == a;
    } else {
      var rest := ws[1..];
      RecordOfOctets(a, ws[0], AllOctets(rest));
      assert a + AllOctets(ws) == a + Octets(ws[0]) + AllOctets(rest);
      RecordsOfOctets(a + Octets(ws[0]), rest);
      assert (a + Octets(ws[0])) + AllOctets(rest) == a + AllOctets(ws);
    }
  }

  /** A version 3 report is read as the records its host wrote. */
  lemma ReportIsRead(head: seq<byte>, ws: seq<Written>)
    requires |head| == 6 && head[0] == 0x22 && |ws| <= 64 && forall i :: 0 <= i < |ws| ==> WellWritten(ws[i])
    ensures Records(head + Be16(|ws|) + AllOctets(ws), 0xe000_0016) == Some(Meanings(ws))
  {
    hide RecordsFrom, AllOctets, WellWritten, Meanings, Be16, U16;
    RecordsOfOctets(head + Be16(|ws|), ws);
    CountIsRead(head, |ws|, AllOctets(ws));
  }

  lemma CountIsRead(head: seq<byte>, n: nat, rest: seq<byte>)
    requires |head| == 6 && n < 0x1_0000
    ensures U16(head + Be16(n) + rest, 6) == n && (head + Be16(n) + rest)[0] == head[0]
  {
    var payload := head + Be16(n) + rest;
    assert payload[0] == head[0] && payload[6] == Be16(n)[0] && payload[7] == Be16(n)[1];
  }

  /** A report of version 1 or 2 turns the whole group on, a leave turns it off, and either touches no other group. */
  lemma OlderReports(groups: Groups, packet: seq<byte>, now: int, source: Address, other: Address)
    requires Observed(groups, packet, now).1 == Accepted && packet[HeaderSize(packet)] in {0x12, 0x16, 0x17}
    ensures var h := HeaderSize(packet); var t := Observed(groups, packet, now).0;
      && h + 8 == |packet| && var g := U32(packet, h + 4);
         && (Receives(t, g, source, now) <==> packet[h] != 0x17)
         && (other != g ==> Receives(t, other, source, now) == Receives(groups, other, source, now))
  {
    var h := HeaderSize(packet);
    var payload := packet[h..];
    assert payload[4] == packet[h + 4] && payload[5] == packet[h + 5] && payload[6] == packet[h + 6] && payload[7] == packet[h + 7];
    var g := U32(payload, 4);
    assert g == U32(packet, h + 4);
    hide InternetChecksum, IsScopedMulticast, RecordsFrom;
    SingleRecord(Fresh(groups, now), Record(if packet[h] == 0x17 then 3 else 4, g, {}), now);
    FreshIsInvisible(groups, other, source, now);
  }

  /** Such a report lasts for 260 seconds; then the group falls back to what it is by default. */
  lemma OlderReportsLast(groups: Groups, packet: seq<byte>, now: int, source: Address, later: int)
    requires Observed(groups, packet, now).1 == Accepted && packet[HeaderSize(packet)] in {0x12, 0x16, 0x17}
    ensures var h := HeaderSize(packet);
      && h + 8 == |packet| && var g := U32(packet, h + 4);
         Receives(Observed(groups, packet, now).0, g, source, later) <==>
           if later - now <= 260 then packet[h] != 0x17 else g == 0xe000_00fb || g == 0xefff_fffa
  {
    OlderReports(groups, packet, now, source, 0);
    var h := HeaderSize(packet);
    var payload := packet[h..];
    assert payload[4] == packet[h + 4] && payload[5] == packet[h + 5] && payload[6] == packet[h + 6] && payload[7] == packet[h + 7];
    var g := U32(payload, 4);
    assert g == U32(packet, h + 4);
    hide InternetChecksum, IsScopedMulticast, RecordsFrom;
    SingleRecord(Fresh(groups, now), Record(if packet[h] == 0x17 then 3 else 4, g, {}), now);
  }

  // ---- Runs of reports ----

  datatype Observation = Observation(packet: seq<byte>, now: int)

  function After(groups: Groups, run: seq<Observation>): (t: Groups)
  {
    if run == [] then groups
    else
      var last := run[|run| - 1];
      Observed(After(groups, run[..|run| - 1]), last.packet, last.now).0
  }

  /** From a host that said nothing, no run of packets makes it hold more than 64 groups of 64 sources. */
  lemma {:induction false} TablesStaySmall(run: seq<Observation>)
    ensures Bounded(After(map[], run))
  {
    hide Observed;
    if run != [] {
      var last := run[|run| - 1];
      TablesStaySmall(run[..|run| - 1]);
      ReportsAreFollowed(After(map[], run[..|run| - 1]), last.packet, last.now);
    }
  }

  // ---- The object ----

  /** Reading the rest of a report and applying it. */
  function Walk(groups: Groups, s: seq<byte>, at: nat, count: nat, now: int): (t: Option<Groups>)
    requires at <= |s|
  {
    var rs := RecordsFrom(s, at, count);
    if rs.None? then None else ApplyAll(groups, rs.value, now)
  }

  lemma WalkStep(groups: Groups, s: seq<byte>, at: nat, count: nat, now: int)
    requires at <= |s| && count > 0
    ensures var r := RecordAt(s, at);
      Walk(groups, s, at, count, now) ==
        if r.None? || Apply(groups, r.value.record, now).None? then None
        else Walk(Apply(groups, r.value.record, now).value, s, r.value.next, count - 1, now)
  {
    hide RecordAt, Apply;
    var r := RecordAt(s, at);
    if r.Some? {
      var rest := RecordsFrom(s, r.value.next, count - 1);
      if rest.Some? {
        assert ([r.value.record] + rest.value)[1..] == rest.value;
      }
    }
  }

  class MulticastMembership {
    var groups: Groups
    var hostGroups: Option<set<Address>>

    constructor ()
      ensures groups == map[] && hostGroups == None
    {
      groups, hostGroups := map[], None;
    }

    static method ReadSources(s: seq<byte>, at: nat, n: nat) returns (r: Option<set<Address>>)
      requires at + 4 * n <= |s|
      ensures r == SourcesAt(s, at, n)
    {
      var addresses: set<Address> := {};
      for i := 0 to n
        invariant SourcesAt(s, at, i) == Some(addresses)
      {
        var address := U32(s, at + i * 4);
        if address == 0 || address >= 0xe000_0000 {
          NoSources(s, at, i + 1, n);
          return None;
        }
        addresses := addresses + {address};
      }
      r := Some(addresses);
    }

    static method ReadReport(current: Groups, payload: seq<byte>, count: nat, now: int) returns (r: Option<Groups>)
      requires |payload| >= 8
      ensures r == Walk(current, payload, 8, count, now)
    {
      hide SourcesAt, IsScopedMulticast, Filtered, ApplyAll;
      var updated: Groups, offset: nat := current, 8;
      for index := 0 to count
        invariant offset <= |payload|
        invariant Walk(current, payload, 8, count, now) == Walk(updated, payload, offset, count - index, now)
      {
        WalkStep(updated, payload, offset, count - index, now);
        if |payload| - offset < 8 { return None; }
        var kind, auxiliary := payload[offset] as int, payload[offset + 1] as int * 4;
        var sources, group := U16(payload, offset + 2), U32(payload, offset + 4);
        if kind < 1 || kind > 6 || sources > MAX_SOURCES || !IsScopedMulticast(group)
           || 8 + sources * 4 + auxiliary > |payload| - offset {
          return None;
        }
        var addresses := ReadSources(payload, offset + 8, sources);
        if addresses.None? { return None; }
        var entry := Filtered(EntryOf(updated, group), Record(kind, group, addresses.value), now);
        if |entry.sources| > MAX_SOURCES { return None; }
        updated := updated[group := entry];
        offset := offset + 8 + sources * 4 + auxiliary;
      }
      EmptyWalk(updated, payload, offset, now);
      if offset != |payload| { return None; }
      r := Some(updated);
    }

    method Observe(packet: seq<byte>, now: int) returns (v: Verdict)
      modifies this`groups
      ensures (groups, v) == Observed(old(groups), packet, now)
    {
      hide IsScopedMulticast, ApplyAll, RecordsFrom, InternetChecksum;
      if |packet| < 20 || packet[9] != 2 { return NotIgmp; }
      var header := HeaderSize(packet);
      if packet[0] / 16 != 4 || header < 20 || header > |packet| || U16(packet, 2) != |packet|
         || U16(packet, 6) % 0x4000 != 0 || packet[8] != 1 {
        return Rejected;
      }
      var payload := packet[header..];
      if |payload| < 8 { return Rejected; }
      var sum := ComputeChecksum(payload);
      if sum != 0 { return Rejected; }
      var updated := map g | g in groups && now - groups[g].updated <= LIFETIME :: groups[g];
      assert updated == Fresh(groups, now);
      var kind, destination := payload[0] as int, U32(packet, 16);
      if kind == 0x12 || kind == 0x16 || kind == 0x17 {
        var group := U32(payload, 4);
        if |payload| != 8 || !IsScopedMulticast(group) || destination != (if kind == 0x17 then 0xe000_0002 else group) {
          return Rejected;
        }
        SingleRecord(updated, Record(if kind == 0x17 then 3 else 4, group, {}), now);
        updated := updated[group := Group(kind != 0x17, {}, now)];
      } else if kind == 0x22 {
        var count := U16(payload, 6);
        if destination != 0xe000_0016 || count > 64 { return Rejected; }
        var walked := ReadReport(updated, payload, count, now);
        if walked.None? { return Rejected; }
        updated := walked.value;
      } else {
        return Rejected;
      }
      if |updated| > MAX_GROUPS { return Rejected; }
      groups := updated;
      v := Accepted;
    }

    /** Once the host's own list of groups is known it alone decides. */
    predicate Wants(group: Address, source: Address, now: int)
      reads this
    {
      if !IsScopedMulticast(group) then false
      else if hostGroups.Some? then group in hostGroups.value
      else Receives(groups, group, source, now)
    }

    method Synchronize(list: Option<seq<Address>>)
      modifies this`hostGroups
      ensures list.None? ==> hostGroups == None
      ensures list.Some? ==> hostGroups.Some? && |hostGroups.value| <= 256
      ensures list.Some? ==> forall g :: g in hostGroups.value ==> g in list.value && IsScopedMulticast(g)
      ensures list.Some? && |hostGroups.value| < 256 ==> forall g :: g in list.value && IsScopedMulticast(g) ==> g in hostGroups.value
    {
      if list.None? {
        hostGroups := None;
        return;
      }
      var known: set<Address> := {};
      for i := 0 to |list.value|
        invariant |known| <= 256
        invariant forall g :: g in known ==> g in list.value && IsScopedMulticast(g)
        invariant |known| < 256 ==> forall k :: 0 <= k < i && IsScopedMulticast(list.value[k]) ==> list.value[k] in known
      {
        if IsScopedMulticast(list.value[i]) && |known| < 256 {
          known := known + {list.value[i]};
        }
      }
      hostGroups := Some(known);
    }
  }

  lemma {:induction false} NoSources(s: seq<byte>, at: nat, i: nat, n: nat)
    requires i <= n && at + 4 * n <= |s| && SourcesAt(s, at, i).None?
    ensures SourcesAt(s, at, n).None?
    decreases n - i
  {
    if i < n {
      NoSources(s, at, i + 1, n);
    }
  }

  lemma EmptyWalk(groups: Groups, s: seq<byte>, at: nat, now: int)
    requires at <= |s|
    ensures Walk(groups, s, at, 0, now) == if at == |s| then Some(groups) else None
  {
  }

  lemma SingleRecord(groups: Groups, r: Record, now: int)
    requires (r.kind == 3 || r.kind == 4) && r.sources == {}
    ensures ApplyAll(groups, [r], now) == Some(groups[r.group := Group(r.kind == 4, {}, now)])
  {
    assert [r][1..] == [];
  }
}
