/**
  * The stored form of a network policy: what the encoder refuses, the octets
  * it writes, and the reader that takes them apart again.
  */
module PolicyCodec {
  import opened Bytes
  import opened Policy

  // ---- Reading and writing one value, and lists of them ----

  /** What a reader took from the front, and the unread rest. */
  datatype Parsed<+T> = Bad | Good(value: T, rest: seq<byte>)
  {
    predicate IsFailure() { Bad? }
    function PropagateFailure<U>(): Parsed<U> requires IsFailure() { Bad }
    function Extract(): (T, seq<byte>) requires !IsFailure() { (value, rest) }
  }

  type Reader<!T> = seq<byte> -> Parsed<T>
  type Writer<!T> = T -> seq<byte>

  /** The reader undoes the writer, whatever follows. */
  ghost predicate Reads<T(!new)>(parse: Reader<T>, write: Writer<T>, x: T)
  {
    forall rest :: parse(write(x) + rest) == Good(x, rest)
  }

  /** Whatever the reader accepts is what the writer would have written. */
  ghost predicate Faithful<T(!new)>(parse: Reader<T>, write: Writer<T>)
  {
    forall s :: parse(s).Good? ==> s == write(parse(s).value) + parse(s).rest
  }

  function Concat<T>(write: Writer<T>, xs: seq<T>): (s: seq<byte>)
  {
    if xs == [] then [] else write(xs[0]) + Concat(write, xs[1..])
  }

  function Many<T>(parse: Reader<T>, n: nat, s: seq<byte>): (r: Parsed<seq<T>>)
    ensures r.Good? ==> |r.value| == n
  {
    if n == 0 then Good([], s)
    else
      var (x, s1) :- parse(s);
      var (xs, s2) :- Many(parse, n - 1, s1);
      Good([x] + xs, s2)
  }

  lemma {:induction false} ManyOfConcat<T(!new)>(parse: Reader<T>, write: Writer<T>, xs: seq<T>, rest: seq<byte>)
    requires forall i :: 0 <= i < |xs| ==> Reads(parse, write, xs[i])
    ensures Many(parse, |xs|, Concat(write, xs) + rest) == Good(xs, rest)
  {
    if xs != [] {
      var tail := Concat(write, xs[1..]) + rest;
      assert Concat(write, xs) + rest == write(xs[0]) + tail;
      assert Reads(parse, write, xs[0]);
      ManyOfConcat(parse, write, xs[1..], rest);
      assert xs == [xs[0]] + xs[1..];
    }
  }

  lemma {:induction false} ConcatOfMany<T(!new)>(parse: Reader<T>, write: Writer<T>, n: nat, s: seq<byte>)
    requires Faithful(parse, write) && Many(parse, n, s).Good?
    ensures s == Concat(write, Many(parse, n, s).value) + Many(parse, n, s).rest
  {
    if n > 0 {
      var s1 := parse(s).rest;
      ConcatOfMany(parse, write, n - 1, s1);
      var xs := Many(parse, n - 1, s1).value;
      assert ([parse(s).value] + xs)[1..] == xs;
      assert s == write(parse(s).value) + (Concat(write, xs) + Many(parse, n, s).rest);
    }
  }

  // ---- The fields ----

  function Octet(s: seq<byte>): (r: Parsed<byte>)
  {
    if s == [] then Bad else Good(s[0], s[1..])
  }

  function Take(n: nat, s: seq<byte>): (r: Parsed<seq<byte>>)
  {
    if n > |s| then Bad else Good(s[..n], s[n..])
  }

  function Flag(s: seq<byte>): (r: Parsed<bool>)
  {
    var (b, s1) :- Octet(s);
    if b > 1 then Bad else Good(b == 1, s1)
  }

  function FlagWire(b: bool): (s: seq<byte>)
  {
    [if b then 1 else 0]
  }

  function Device(s: seq<byte>): (r: Parsed<DeviceId>)
  {
    var (d, s1) :- Take(DEVICE_ID_SIZE, s);
    Good(d, s1)
  }

  function DeviceWire(d: DeviceId): (s: seq<byte>)
  {
    d
  }

  function Word(s: seq<byte>): (r: Parsed<u32>)
  {
    var (b, s1) :- Take(4, s);
    Good(U32(b, 0), s1)
  }

  function LongWord(s: seq<byte>): (r: Parsed<u64>)
  {
    var (high, s1) :- Word(s);
    var (low, s2) :- Word(s1);
    Good(high * 0x1_0000_0000 + low, s2)
  }

  function LongWire(v: u64): (s: seq<byte>)
  {
    Be32(v / 0x1_0000_0000) + Be32(v % 0x1_0000_0000)
  }

  /** The length octet is the size cut to eight bits; the encoder refuses longer names first. */
  function TextWire(t: Text): (s: seq<byte>)
  {
    [|t| % 256] + t
  }

  function ReadText(s: seq<byte>): (r: Parsed<Text>)
  {
    var (n, s1) :- Octet(s);
    Take(n, s1)
  }

  function ReadSubject(s: seq<byte>): (r: Parsed<Subject>)
  {
    var (d, s1) :- Device(s);
    var (g, s2) :- ReadText(s1);
    Good(Subject(d, g), s2)
  }

  function SubjectWire(x: Subject): (s: seq<byte>)
  {
    x.device + TextWire(x.group)
  }

  function ReadRule(s: seq<byte>): (r: Parsed<Rule>)
  {
    var (first, s1) :- ReadSubject(s);
    var (second, s2) :- ReadSubject(s1);
    var (allow, s3) :- Flag(s2);
    Good(Rule(first, second, allow), s3)
  }

  function RuleWire(x: Rule): (s: seq<byte>)
  {
    SubjectWire(x.first) + (SubjectWire(x.second) + FlagWire(x.allow))
  }

  function ReadMember(s: seq<byte>): (r: Parsed<Member>)
  {
    var (d, s1) :- Device(s);
    var (role, s2) :- Octet(s1);
    var (g, s3) :- ReadText(s2);
    Good(Member(d, role, g), s3)
  }

  function MemberWire(x: Member): (s: seq<byte>)
  {
    x.device + ([x.role] + TextWire(x.group))
  }

  function ReadGateway(s: seq<byte>): (r: Parsed<Gateway>)
  {
    var (d, s1) :- Device(s);
    var (approved, s2) :- Flag(s1);
    Good(Gateway(d, approved), s2)
  }

  function GatewayWire(x: Gateway): (s: seq<byte>)
  {
    x.device + FlagWire(x.approved)
  }

  function ReadRoute(s: seq<byte>): (r: Parsed<Route>)
  {
    var (d, s1) :- Device(s);
    var (address, s2) :- Word(s1);
    var (prefix, s3) :- Octet(s2);
    var (g, s4) :- ReadText(s3);
    Good(Route(d, address, prefix, g), s4)
  }

  function RouteWire(x: Route): (s: seq<byte>)
  {
    x.gateway + (Be32(x.address) + ([x.prefix] + TextWire(x.group)))
  }

  // ---- Each field is read back ----

  lemma TakeOfPrefix(a: seq<byte>, rest: seq<byte>)
    ensures Take(|a|, a + rest) == Good(a, rest)
  {
  }

  lemma Reassociate(a: seq<byte>, b: seq<byte>, c: seq<byte>)
    ensures (a + b) + c == a + (b + c)
  {
  }

  lemma ReadBackDevice(d: DeviceId, rest: seq<byte>)
    ensures Device(d + rest) == Good(d, rest)
  {
    TakeOfPrefix(d, rest);
  }

  lemma ReadBackOctet(b: byte, rest: seq<byte>)
    ensures Octet([b] + rest) == Good(b, rest)
  {
  }

  lemma ReadBackFlag(b: bool, rest: seq<byte>)
    ensures Flag(FlagWire(b) + rest) == Good(b, rest)
  {
  }

  lemma ReadBackWord(v: u32, rest: seq<byte>)
    ensures Word(Be32(v) + rest) == Good(v, rest)
  {
    TakeOfPrefix(Be32(v), rest);
  }

  lemma ReadBackLong(v: u64, rest: seq<byte>)
    ensures LongWord(LongWire(v) + rest) == Good(v, rest)
  {
    var high, low := v / 0x1_0000_0000, v % 0x1_0000_0000;
    Reassociate(Be32(high), Be32(low), rest);
    ReadBackWord(high, Be32(low) + rest);
    ReadBackWord(low, rest);
  }

  lemma ReadBackText(t: Text, rest: seq<byte>)
    requires |t| < 256
    ensures ReadText(TextWire(t) + rest) == Good(t, rest)
  {
    Reassociate([|t| % 256], t, rest);
    ReadBackOctet(|t|, t + rest);
    TakeOfPrefix(t, rest);
  }

  lemma ReadBackSubject(x: Subject, rest: seq<byte>)
    requires |x.group| < 256
    ensures ReadSubject(SubjectWire(x) + rest) == Good(x, rest)
  {
    Reassociate(x.device, TextWire(x.group), rest);
    ReadBackDevice(x.device, TextWire(x.group) + rest);
    ReadBackText(x.group, rest);
  }

  lemma ReadBackRule(x: Rule, rest: seq<byte>)
    requires |x.first.group| < 256 && |x.second.group| < 256
    ensures ReadRule(RuleWire(x) + rest) == Good(x, rest)
  {
    hide ReadSubject, SubjectWire, Flag, FlagWire;
    var flag := FlagWire(x.allow);
    Reassociate(SubjectWire(x.second), flag, rest);
    Reassociate(SubjectWire(x.first), SubjectWire(x.second) + flag, rest);
    ReadBackSubject(x.first, SubjectWire(x.second) + (flag + rest));
    ReadBackSubject(x.second, flag + rest);
    ReadBackFlag(x.allow, rest);
  }

  lemma ReadBackMember(x: Member, rest: seq<byte>)
    requires |x.group| < 256
    ensures ReadMember(MemberWire(x) + rest) == Good(x, rest)
  {
    hide Device, Octet, ReadText, TextWire;
    var text := TextWire(x.group);
    Reassociate([x.role], text, rest);
    Reassociate(x.device, [x.role] + text, rest);
    ReadBackDevice(x.device, [x.role] + (text + rest));
    ReadBackOctet(x.role, text + rest);
    ReadBackText(x.group, rest);
  }

  lemma ReadBackGateway(x: Gateway, rest: seq<byte>)
    ensures ReadGateway(GatewayWire(x) + rest) == Good(x, rest)
  {
    hide Device, Flag, FlagWire;
    Reassociate(x.device, FlagWire(x.approved), rest);
    ReadBackDevice(x.device, FlagWire(x.approved) + rest);
    ReadBackFlag(x.approved, rest);
  }

  lemma ReadBackRoute(x: Route, rest: seq<byte>)
    requires |x.group| < 256
    ensures ReadRoute(RouteWire(x) + rest) == Good(x, rest)
  {
    hide Device, Word, Octet, ReadText, TextWire, Be32;
    var text, address := TextWire(x.group), Be32(x.address);
    Reassociate([x.prefix], text, rest);
    Reassociate(address, [x.prefix] + text, rest);
    Reassociate(x.gateway, address + ([x.prefix] + text), rest);
    ReadBackDevice(x.gateway, address + ([x.prefix] + (text + rest)));
    ReadBackWord(x.address, [x.prefix] + (text + rest));
    ReadBackOctet(x.prefix, text + rest);
    ReadBackText(x.group, rest);
  }

  // ---- Each accepted field is what would be written ----

  lemma WrittenDevice(s: seq<byte>)
    requires Device(s).Good?
    ensures s == Device(s).value + Device(s).rest
  {
  }

  lemma WrittenWord(s: seq<byte>)
    requires Word(s).Good?
    ensures s == Be32(Word(s).value) + Word(s).rest
  {
    var b := s[..4];
    assert s == b + s[4..];
    assert Be32(U32(b, 0)) == b;
  }

  lemma WrittenLong(s: seq<byte>)
    requires LongWord(s).Good?
    ensures s == LongWire(LongWord(s).value) + LongWord(s).rest
  {
    hide Word, Be32;
    WrittenWord(s);
    var high := Word(s);
    WrittenWord(high.rest);
    var low := Word(high.rest);
    var v := high.value * 0x1_0000_0000 + low.value;
    assert v / 0x1_0000_0000 == high.value && v % 0x1_0000_0000 == low.value;
    Reassociate(Be32(high.value), Be32(low.value), low.rest);
  }

  lemma WrittenText(s: seq<byte>)
    requires ReadText(s).Good?
    ensures s == TextWire(ReadText(s).value) + ReadText(s).rest && |ReadText(s).value| < 256
  {
  }

  lemma WrittenFlag(s: seq<byte>)
    requires Flag(s).Good?
    ensures s == FlagWire(Flag(s).value) + Flag(s).rest
  {
  }

  lemma WrittenSubject(s: seq<byte>)
    requires ReadSubject(s).Good?
    ensures s == SubjectWire(ReadSubject(s).value) + ReadSubject(s).rest
  {
    hide Device, ReadText, TextWire;
    WrittenDevice(s);
    WrittenText(Device(s).rest);
    var r := ReadSubject(s);
    Reassociate(r.value.device, TextWire(r.value.group), r.rest);
  }

  lemma WrittenRule(s: seq<byte>)
    requires ReadRule(s).Good?
    ensures s == RuleWire(ReadRule(s).value) + ReadRule(s).rest
  {
    hide ReadSubject, SubjectWire, Flag, FlagWire;
    WrittenSubject(s);
    var s1 := ReadSubject(s).rest;
    WrittenSubject(s1);
    WrittenFlag(ReadSubject(s1).rest);
    var r := ReadRule(s);
    var first, second, flag := SubjectWire(r.value.first), SubjectWire(r.value.second), FlagWire(r.value.allow);
    Reassociate(second, flag, r.rest);
    Reassociate(first, second + flag, r.rest);
  }

  lemma WrittenMember(s: seq<byte>)
    requires ReadMember(s).Good?
    ensures s == MemberWire(ReadMember(s).value) + ReadMember(s).rest
  {
    hide Device, ReadText, TextWire;
    WrittenDevice(s);
    var s1 := Device(s).rest;
    assert s1 == [s1[0]] + s1[1..];
    WrittenText(s1[1..]);
    var r := ReadMember(s);
    Reassociate([r.value.role], TextWire(r.value.group), r.rest);
    Reassociate(r.value.device, [r.value.role] + TextWire(r.value.group), r.rest);
  }

  lemma WrittenGateway(s: seq<byte>)
    requires ReadGateway(s).Good?
    ensures s == GatewayWire(ReadGateway(s).value) + ReadGateway(s).rest
  {
    hide Device, Flag, FlagWire;
    WrittenDevice(s);
    WrittenFlag(Device(s).rest);
    var r := ReadGateway(s);
    Reassociate(r.value.device, FlagWire(r.value.approved), r.rest);
  }

  lemma WrittenRoute(s: seq<byte>)
    requires ReadRoute(s).Good?
    ensures s == RouteWire(ReadRoute(s).value) + ReadRoute(s).rest
  {
    hide Device, Word, Be32, ReadText, TextWire;
    WrittenDevice(s);
    var s1 := Device(s).rest;
    WrittenWord(s1);
    var s2 := Word(s1).rest;
    assert s2 == [s2[0]] + s2[1..];
    WrittenText(s2[1..]);
    var r := ReadRoute(s);
    var text, address := TextWire(r.value.group), Be32(r.value.address);
    Reassociate([r.value.prefix], text, r.rest);
    Reassociate(address, [r.value.prefix] + text, r.rest);
    Reassociate(r.value.gateway, address + ([r.value.prefix] + text), r.rest);
  }

  // ---- Lists behind a count ----

  function ListWire<T>(write: Writer<T>, xs: seq<T>): (s: seq<byte>)
  {
    [|xs| % 256] + Concat(write, xs)
  }

  function ReadList<T>(parse: Reader<T>, max: nat, s: seq<byte>): (r: Parsed<seq<T>>)
    ensures r.Good? ==> |r.value| <= max
  {
    var (n, s1) :- Octet(s);
    if n > max then Bad else Many(parse, n, s1)
  }

  lemma ReadBackList<T(!new)>(parse: Reader<T>, write: Writer<T>, max: nat, xs: seq<T>, rest: seq<byte>)
    requires |xs| <= max < 256
    requires forall i :: 0 <= i < |xs| ==> Reads(parse, write, xs[i])
    ensures ReadList(parse, max, ListWire(write, xs) + rest) == Good(xs, rest)
  {
    hide Reads, Many, Concat;
    Reassociate([|xs| % 256], Concat(write, xs), rest);
    ReadBackOctet(|xs|, Concat(write, xs) + rest);
    ManyOfConcat(parse, write, xs, rest);
  }

  lemma WrittenList<T(!new)>(parse: Reader<T>, write: Writer<T>, max: nat, s: seq<byte>)
    requires Faithful(parse, write) && ReadList(parse, max, s).Good?
    ensures s == ListWire(write, ReadList(parse, max, s).value) + ReadList(parse, max, s).rest
  {
    hide Faithful, Many, Concat;
    assert s == [s[0]] + s[1..];
    ConcatOfMany(parse, write, s[0], s[1..]);
    var r := Many(parse, s[0], s[1..]);
    Reassociate([s[0]], Concat(write, r.value), r.rest);
  }

  /** The member list alone has a count of sixteen bits. */
  function MembersWire(xs: seq<Member>): (s: seq<byte>)
  {
    Be16(|xs| % 0x1_0000) + Concat(MemberWire, xs)
  }

  function ReadMembers(s: seq<byte>): (r: Parsed<seq<Member>>)
  {
    var (b, s1) :- Take(2, s);
    var n := U16(b, 0);
    if n > 254 then Bad else Many(ReadMember, n, s1)
  }

  lemma ReadBackMembers(xs: seq<Member>, rest: seq<byte>)
    requires |xs| <= 254 && forall i :: 0 <= i < |xs| ==> |xs[i].group| < 256
    ensures ReadMembers(MembersWire(xs) + rest) == Good(xs, rest)
  {
    hide Many, Concat, ReadMember, MemberWire;
    forall i | 0 <= i < |xs| ensures Reads(ReadMember, MemberWire, xs[i]) {
      forall t ensures ReadMember(MemberWire(xs[i]) + t) == Good(xs[i], t) {
        ReadBackMember(xs[i], t);
      }
    }
    Reassociate(Be16(|xs|), Concat(MemberWire, xs), rest);
    TakeOfPrefix(Be16(|xs|), Concat(MemberWire, xs) + rest);
    ManyOfConcat(ReadMember, MemberWire, xs, rest);
  }

  lemma WrittenCount(s: seq<byte>)
    requires |s| >= 2
    ensures s == Be16(U16(s[..2], 0)) + s[2..]
  {
    assert s[..2] == [s[0], s[1]];
    assert Be16(U16(s[..2], 0)) == [s[0], s[1]];
  }

  lemma MembersAreFaithful()
    ensures Faithful(ReadMember, MemberWire)
  {
    hide ReadMember, MemberWire;
    forall t | ReadMember(t).Good? ensures t == MemberWire(ReadMember(t).value) + ReadMember(t).rest {
      WrittenMember(t);
    }
  }

  lemma WrittenMembers(s: seq<byte>)
    requires ReadMembers(s).Good?
    ensures s == MembersWire(ReadMembers(s).value) + ReadMembers(s).rest
  {
    hide Many, Concat, ReadMember, MemberWire, Faithful, Be16, U16;
    WrittenCount(s);
    MembersAreFaithful();
    var n := U16(s[..2], 0);
    ConcatOfMany(ReadMember, MemberWire, n, s[2..]);
    var r := Many(ReadMember, n, s[2..]);
    Reassociate(Be16(n), Concat(MemberWire, r.value), r.rest);
  }

  // ---- The header ----

  const VERSION: byte := 1

  datatype Header = Header(revision: u64, managed: bool, topology: byte)

  function ReadHeader(s: seq<byte>): (r: Parsed<Header>)
  {
    var (version, s1) :- Octet(s);
    if version != VERSION then Bad
    else
      var (revision, s2) :- LongWord(s1);
      var (managed, s3) :- Flag(s2);
      var (topology, s4) :- Octet(s3);
      Good(Header(revision, managed, topology), s4)
  }

  function HeaderWire(h: Header): (s: seq<byte>)
  {
    [VERSION] + (LongWire(h.revision) + (FlagWire(h.managed) + [h.topology]))
  }

  lemma ReadBackHeader(h: Header, rest: seq<byte>)
    ensures ReadHeader(HeaderWire(h) + rest) == Good(h, rest)
  {
    hide LongWord, LongWire, Flag, FlagWire, Octet;
    var flag, long := FlagWire(h.managed), LongWire(h.revision);
    Reassociate(flag, [h.topology], rest);
    Reassociate(long, flag + [h.topology], rest);
    Reassociate([VERSION], long + (flag + [h.topology]), rest);
    ReadBackOctet(VERSION, long + (flag + ([h.topology] + rest)));
    ReadBackLong(h.revision, flag + ([h.topology] + rest));
    ReadBackFlag(h.managed, [h.topology] + rest);
    ReadBackOctet(h.topology, rest);
  }

  lemma WrittenOctet(s: seq<byte>)
    requires Octet(s).Good?
    ensures s == [Octet(s).value] + Octet(s).rest
  {
  }

  lemma WrittenHeader(s: seq<byte>)
    requires ReadHeader(s).Good?
    ensures s == HeaderWire(ReadHeader(s).value) + ReadHeader(s).rest
  {
    hide LongWord, LongWire, Flag, FlagWire, Octet;
    WrittenOctet(s);
    var s1 := Octet(s).rest;
    WrittenLong(s1);
    var s2 := LongWord(s1).rest;
    WrittenFlag(s2);
    WrittenOctet(Flag(s2).rest);
    var r := ReadHeader(s);
    var h := r.value;
    var flag, long := FlagWire(h.managed), LongWire(h.revision);
    Reassociate(flag, [h.topology], r.rest);
    Reassociate(long, flag + [h.topology], r.rest);
    Reassociate([VERSION], long + (flag + [h.topology]), r.rest);
  }

  // ---- The policy ----

  predicate GoodText(t: Text)
  {
    |t| <= 32 && forall i :: 0 <= i < |t| ==> NameOctet(t[i])
  }

  /** ASCII letters, digits, underscore and hyphen. */
  predicate NameOctet(c: byte)
  {
    97 <= c <= 122 || 65 <= c <= 90 || 48 <= c <= 57 || c == 95 || c == 45
  }

  predicate Distinct<T(==)>(xs: seq<T>)
  {
    forall i, j :: 0 <= i < j < |xs| ==> xs[i] != xs[j]
  }

  predicate GoodDevices(ds: seq<DeviceId>)
  {
    Distinct(ds) && ZERO_DEVICE !in ds
  }

  predicate GoodSubject(x: Subject, groups: seq<Text>)
  {
    (x.device == ZERO_DEVICE || x.group == []) && GoodText(x.group) && (x.group == [] || Known(x.group, groups))
  }

  predicate Known(g: Text, groups: seq<Text>)
  {
    g == MEMBERS || g in groups
  }

  predicate GoodGroups(groups: seq<Text>)
  {
    Distinct(groups) && [] !in groups && MEMBERS !in groups && forall i :: 0 <= i < |groups| ==> GoodText(groups[i])
  }

  predicate GoodMember(m: Member, groups: seq<Text>)
  {
    m.role <= RESTRICTED && Known(m.group, groups)
  }

  predicate GoodRoute(r: Route, p: NetworkPolicy)
  {
    PrivateRoutedSubnet(r.address, r.prefix) && (r.group == [] || Known(r.group, p.groups)) && ApprovedGateway(p.gateways, r.gateway)
  }

  predicate RoutesApart(routes: seq<Route>)
  {
    forall i, j :: 0 <= j < i < |routes| ==> !SubnetsOverlap(routes[i].address, routes[i].prefix, routes[j].address, routes[j].prefix)
  }

  predicate SmallLists(p: NetworkPolicy)
  {
    && |p.hubs| <= 32 && |p.rules| <= 64 && |p.groups| <= 16
    && |p.members| <= 254 && |p.gateways| <= 16 && |p.routes| <= 32
  }

  predicate PlainMesh(p: NetworkPolicy)
  {
    p.topology == MESH && p.hubs == [] && p.rules == [] && p.groups == [] && p.members == [] && p.gateways == [] && p.routes == []
  }

  function MemberDevices(ms: seq<Member>): (ds: seq<DeviceId>)
  {
    seq(|ms|, i requires 0 <= i < |ms| => ms[i].device)
  }

  function GatewayDevices(gs: seq<Gateway>): (ds: seq<DeviceId>)
  {
    seq(|gs|, i requires 0 <= i < |gs| => gs[i].device)
  }

  /** The policies the encoder does not refuse. */
  predicate Acceptable(p: NetworkPolicy)
  {
    && p.topology <= HUB_SPOKE && SmallLists(p) && (p.managed || PlainMesh(p))
    && GoodDevices(p.hubs)
    && (forall i :: 0 <= i < |p.rules| ==> GoodSubject(p.rules[i].first, p.groups) && GoodSubject(p.rules[i].second, p.groups))
    && GoodGroups(p.groups)
    && GoodDevices(MemberDevices(p.members))
    && (forall i :: 0 <= i < |p.members| ==> GoodMember(p.members[i], p.groups))
    && GoodDevices(GatewayDevices(p.gateways))
    && (forall i :: 0 <= i < |p.routes| ==> GoodRoute(p.routes[i], p))
    && RoutesApart(p.routes)
  }

  /** A name is known when it is "members" or listed, and the empty one stands for no group. */
  predicate Names(p: NetworkPolicy, g: Text)
  {
    g == [] || g == [109, 101, 109, 98, 101, 114, 115] || g in p.groups
  }

  /** The encoder's conditions, one by one. */
  lemma AcceptableExactly(p: NetworkPolicy)
    ensures Acceptable(p) <==>
      && p.topology <= 1 && |p.hubs| <= 32 && |p.rules| <= 64 && |p.groups| <= 16 && |p.members| <= 254 && |p.gateways| <= 16 && |p.routes| <= 32
      && (!p.managed ==> p.topology == 0 && p.hubs == [] && p.rules == [] && p.groups == [] && p.members == [] && p.gateways == [] && p.routes == [])
      && (forall i, j :: 0 <= i < j < |p.hubs| ==> p.hubs[i] != p.hubs[j]) && (forall i :: 0 <= i < |p.hubs| ==> p.hubs[i] != ZERO_DEVICE)
      && (forall i, j :: 0 <= i < j < |p.groups| ==> p.groups[i] != p.groups[j])
      && (forall i :: 0 <= i < |p.groups| ==> p.groups[i] != [] && p.groups[i] != MEMBERS && GoodText(p.groups[i]))
      && (forall i, j :: 0 <= i < j < |p.members| ==> p.members[i].device != p.members[j].device)
      && (forall i :: 0 <= i < |p.members| ==>
            p.members[i].device != ZERO_DEVICE && p.members[i].role <= 2 && p.members[i].group != [] && Names(p, p.members[i].group))
      && (forall i, j :: 0 <= i < j < |p.gateways| ==> p.gateways[i].device != p.gateways[j].device)
      && (forall i :: 0 <= i < |p.gateways| ==> p.gateways[i].device != ZERO_DEVICE)
      && (forall i :: 0 <= i < |p.rules| ==> SubjectFits(p, p.rules[i].first) && SubjectFits(p, p.rules[i].second))
      && (forall i :: 0 <= i < |p.routes| ==> RouteFits(p, p.routes[i]))
      && (forall i, j :: 0 <= j < i < |p.routes| ==> !SubnetsOverlap(p.routes[i].address, p.routes[i].prefix, p.routes[j].address, p.routes[j].prefix))
  {
    hide PrivateRoutedSubnet, SubnetsOverlap, GoodDevices, GoodGroups, GoodText, GoodSubject, GoodMember, GoodRoute, SubjectFits, RouteFits, Names;
    DevicesExactly(p.hubs);
    MembersExactly(p.members);
    GatewaysExactly(p.gateways);
    GroupsExactly(p.groups);
    if GoodGroups(p.groups) {
      forall x: Subject ensures GoodSubject(x, p.groups) <==> SubjectFits(p, x) {
        SubjectExactly(p, x);
      }
      forall m: Member ensures GoodMember(m, p.groups) <==> m.role <= 2 && m.group != [] && Names(p, m.group) {
        MemberExactly(p, m);
      }
      forall r: Route ensures GoodRoute(r, p) <==> RouteFits(p, r) {
        RouteExactly(p, r);
      }
    }
  }

  lemma MembersExactly(ms: seq<Member>)
    ensures GoodDevices(MemberDevices(ms)) <==>
      (forall i, j :: 0 <= i < j < |ms| ==> ms[i].device != ms[j].device) && (forall i :: 0 <= i < |ms| ==> ms[i].device != ZERO_DEVICE)
  {
    DevicesExactly(MemberDevices(ms));
    hide GoodDevices;
    assert forall i :: 0 <= i < |ms| ==> MemberDevices(ms)[i] == ms[i].device;
  }

  lemma GatewaysExactly(gs: seq<Gateway>)
    ensures GoodDevices(GatewayDevices(gs)) <==>
      (forall i, j :: 0 <= i < j < |gs| ==> gs[i].device != gs[j].device) && (forall i :: 0 <= i < |gs| ==> gs[i].device != ZERO_DEVICE)
  {
    DevicesExactly(GatewayDevices(gs));
    hide GoodDevices;
    assert forall i :: 0 <= i < |gs| ==> GatewayDevices(gs)[i] == gs[i].device;
  }

  lemma SubjectExactly(p: NetworkPolicy, x: Subject)
    requires GoodGroups(p.groups)
    ensures GoodSubject(x, p.groups) <==> SubjectFits(p, x)
  {
    KnownTexts(p);
    hide GoodText, GoodGroups;
  }

  lemma MemberExactly(p: NetworkPolicy, m: Member)
    requires GoodGroups(p.groups)
    ensures GoodMember(m, p.groups) <==> m.role <= 2 && m.group != [] && Names(p, m.group)
  {
    KnownTexts(p);
    hide GoodText, GoodGroups;
  }

  lemma RouteExactly(p: NetworkPolicy, r: Route)
    requires GoodGroups(p.groups)
    ensures GoodRoute(r, p) <==> RouteFits(p, r)
  {
    hide PrivateRoutedSubnet, GoodGroups;
  }

  /** A subject is a device or a group, not both. */
  predicate SubjectFits(p: NetworkPolicy, x: Subject)
  {
    (x.device == ZERO_DEVICE || x.group == []) && Names(p, x.group)
  }

  /** A private subnet behind an approved gateway, for a known group or for all. */
  predicate RouteFits(p: NetworkPolicy, r: Route)
  {
    && PrivateRoutedSubnet(r.address, r.prefix) && Names(p, r.group)
    && exists i :: 0 <= i < |p.gateways| && p.gateways[i].device == r.gateway && p.gateways[i].approved
  }

  lemma DevicesExactly(ds: seq<DeviceId>)
    ensures GoodDevices(ds) <==> (forall i, j :: 0 <= i < j < |ds| ==> ds[i] != ds[j]) && (forall i :: 0 <= i < |ds| ==> ds[i] != ZERO_DEVICE)
  {
  }

  lemma GroupsExactly(gs: seq<Text>)
    ensures GoodGroups(gs) <==>
      (forall i, j :: 0 <= i < j < |gs| ==> gs[i] != gs[j]) && (forall i :: 0 <= i < |gs| ==> gs[i] != [] && gs[i] != MEMBERS && GoodText(gs[i]))
  {
    hide GoodText;
  }

  lemma KnownTexts(p: NetworkPolicy)
    requires GoodGroups(p.groups)
    ensures forall g :: Names(p, g) ==> GoodText(g)
    ensures [] !in p.groups
  {
    forall g | Names(p, g) ensures GoodText(g) {
      KnownIsGood(g, p.groups);
    }
  }

  function Wire(p: NetworkPolicy): (s: seq<byte>)
  {
    HeaderWire(Header(p.revision, p.managed, p.topology))
    + (ListWire(DeviceWire, p.hubs)
       + (ListWire(RuleWire, p.rules)
          + (ListWire(TextWire, p.groups)
             + (MembersWire(p.members)
                + (ListWire(GatewayWire, p.gateways) + ListWire(RouteWire, p.routes))))))
  }

  function ReadPolicy(s: seq<byte>): (r: Parsed<NetworkPolicy>)
  {
    var (h, s1) :- ReadHeader(s);
    var (hubs, s2) :- ReadList(Device, 32, s1);
    var (rules, s3) :- ReadList(ReadRule, 64, s2);
    var (groups, s4) :- ReadList(ReadText, 16, s3);
    var (members, s5) :- ReadMembers(s4);
    var (gateways, s6) :- ReadList(ReadGateway, 16, s5);
    var (routes, s7) :- ReadList(ReadRoute, 32, s6);
    Good(NetworkPolicy(h.revision, h.managed, h.topology, hubs, rules, groups, members, gateways, routes), s7)
  }

  const MAX_SIZE: nat := 32768

  /** The decoder ends by encoding what it read, so it refuses what the encoder refuses. */
  function Decode(s: seq<byte>): (r: Result<NetworkPolicy>)
  {
    if |s| > MAX_SIZE then Failure
    else
      var r := ReadPolicy(s);
      if r.Good? && r.rest == [] && Acceptable(r.value) then Success(r.value) else Failure
  }

  // ---- Encoding and decoding undo each other ----

  lemma KnownIsGood(g: Text, groups: seq<Text>)
    requires GoodGroups(groups) && (g == [] || Known(g, groups))
    ensures GoodText(g)
  {
  }

  lemma DevicesReadBack(ds: seq<DeviceId>, rest: seq<byte>)
    requires |ds| <= 32
    ensures ReadList(Device, 32, ListWire(DeviceWire, ds) + rest) == Good(ds, rest)
  {
    hide Device, ListWire, ReadList;
    forall i | 0 <= i < |ds| ensures Reads(Device, DeviceWire, ds[i]) {
      forall t ensures Device(DeviceWire(ds[i]) + t) == Good(ds[i], t) {
        ReadBackDevice(ds[i], t);
      }
    }
    ReadBackList(Device, DeviceWire, 32, ds, rest);
  }

  lemma RulesReadBack(xs: seq<Rule>, rest: seq<byte>)
    requires |xs| <= 64 && forall i :: 0 <= i < |xs| ==> |xs[i].first.group| < 256 && |xs[i].second.group| < 256
    ensures ReadList(ReadRule, 64, ListWire(RuleWire, xs) + rest) == Good(xs, rest)
  {
    hide ReadRule, RuleWire, ListWire, ReadList;
    forall i | 0 <= i < |xs| ensures Reads(ReadRule, RuleWire, xs[i]) {
      forall t ensures ReadRule(RuleWire(xs[i]) + t) == Good(xs[i], t) {
        ReadBackRule(xs[i], t);
      }
    }
    ReadBackList(ReadRule, RuleWire, 64, xs, rest);
  }

  lemma TextsReadBack(xs: seq<Text>, rest: seq<byte>)
    requires |xs| <= 16 && forall i :: 0 <= i < |xs| ==> |xs[i]| < 256
    ensures ReadList(ReadText, 16, ListWire(TextWire, xs) + rest) == Good(xs, rest)
  {
    hide ReadText, TextWire, ListWire, ReadList;
    forall i | 0 <= i < |xs| ensures Reads(ReadText, TextWire, xs[i]) {
      forall t ensures ReadText(TextWire(xs[i]) + t) == Good(xs[i], t) {
        ReadBackText(xs[i], t);
      }
    }
    ReadBackList(ReadText, TextWire, 16, xs, rest);
  }

  lemma GatewaysReadBack(xs: seq<Gateway>, rest: seq<byte>)
    requires |xs| <= 16
    ensures ReadList(ReadGateway, 16, ListWire(GatewayWire, xs) + rest) == Good(xs, rest)
  {
    hide ReadGateway, GatewayWire, ListWire, ReadList;
    forall i | 0 <= i < |xs| ensures Reads(ReadGateway, GatewayWire, xs[i]) {
      forall t ensures ReadGateway(GatewayWire(xs[i]) + t) == Good(xs[i], t) {
        ReadBackGateway(xs[i], t);
      }
    }
    ReadBackList(ReadGateway, GatewayWire, 16, xs, rest);
  }

  lemma RoutesReadBack(xs: seq<Route>, rest: seq<byte>)
    requires |xs| <= 32 && forall i :: 0 <= i < |xs| ==> |xs[i].group| < 256
    ensures ReadList(ReadRoute, 32, ListWire(RouteWire, xs) + rest) == Good(xs, rest)
  {
    hide ReadRoute, RouteWire, ListWire, ReadList;
    forall i | 0 <= i < |xs| ensures Reads(ReadRoute, RouteWire, xs[i]) {
      forall t ensures ReadRoute(RouteWire(xs[i]) + t) == Good(xs[i], t) {
        ReadBackRoute(xs[i], t);
      }
    }
    ReadBackList(ReadRoute, RouteWire, 32, xs, rest);
  }

  lemma ShortTexts(p: NetworkPolicy)
    requires Acceptable(p)
    ensures forall i :: 0 <= i < |p.rules| ==> |p.rules[i].first.group| <= 32 && |p.rules[i].second.group| <= 32
    ensures forall i :: 0 <= i < |p.groups| ==> |p.groups[i]| <= 32
    ensures forall i :: 0 <= i < |p.members| ==> |p.members[i].group| <= 32
    ensures forall i :: 0 <= i < |p.routes| ==> |p.routes[i].group| <= 32
  {
    forall i | 0 <= i < |p.members| ensures |p.members[i].group| <= 32 {
      KnownIsGood(p.members[i].group, p.groups);
    }
    forall i | 0 <= i < |p.routes| ensures |p.routes[i].group| <= 32 {
      assert GoodRoute(p.routes[i], p);
      KnownIsGood(p.routes[i].group, p.groups);
    }
  }

  lemma ReadPolicyOfWire(p: NetworkPolicy)
    requires Acceptable(p)
    ensures ReadPolicy(Wire(p)) == Good(p, [])
  {
    ShortTexts(p);
    assert SmallLists(p);
    hide ReadHeader, HeaderWire, ReadList, ListWire, ReadMembers, MembersWire, Acceptable;
    var routes := ListWire(RouteWire, p.routes);
    assert routes + [] == routes;
    RoutesReadBack(p.routes, []);
    var s6 := routes;
    GatewaysReadBack(p.gateways, s6);
    var s5 := ListWire(GatewayWire, p.gateways) + s6;
    ReadBackMembers(p.members, s5);
    var s4 := MembersWire(p.members) + s5;
    TextsReadBack(p.groups, s4);
    var s3 := ListWire(TextWire, p.groups) + s4;
    RulesReadBack(p.rules, s3);
    var s2 := ListWire(RuleWire, p.rules) + s3;
    DevicesReadBack(p.hubs, s2);
    ReadBackHeader(Header(p.revision, p.managed, p.topology), ListWire(DeviceWire, p.hubs) + s2);
  }

  /** The octets of a policy the decoder accepts are the octets its encoding would have. */
  lemma WireOfReadPolicy(s: seq<byte>)
    requires ReadPolicy(s).Good? && ReadPolicy(s).rest == []
    ensures Wire(ReadPolicy(s).value) == s
  {
    hide ReadHeader, HeaderWire, ReadList, ListWire, ReadMembers, MembersWire;
    ItemsAreFaithful();
    hide Faithful;
    WrittenHeader(s);
    var s1 := ReadHeader(s).rest;
    WrittenList(Device, DeviceWire, 32, s1);
    var s2 := ReadList(Device, 32, s1).rest;
    WrittenList(ReadRule, RuleWire, 64, s2);
    var s3 := ReadList(ReadRule, 64, s2).rest;
    WrittenList(ReadText, TextWire, 16, s3);
    var s4 := ReadList(ReadText, 16, s3).rest;
    WrittenMembers(s4);
    var s5 := ReadMembers(s4).rest;
    WrittenList(ReadGateway, GatewayWire, 16, s5);
    var s6 := ReadList(ReadGateway, 16, s5).rest;
    WrittenList(ReadRoute, RouteWire, 32, s6);
    assert s6 == ListWire(RouteWire, ReadPolicy(s).value.routes);
  }

  lemma ItemsAreFaithful()
    ensures Faithful(Device, DeviceWire) && Faithful(ReadRule, RuleWire) && Faithful(ReadText, TextWire)
    ensures Faithful(ReadGateway, GatewayWire) && Faithful(ReadRoute, RouteWire)
  {
    hide Device, ReadRule, ReadText, ReadGateway, ReadRoute, RuleWire, TextWire, GatewayWire, RouteWire;
    forall t | Device(t).Good? ensures t == DeviceWire(Device(t).value) + Device(t).rest { WrittenDevice(t); }
    forall t | ReadRule(t).Good? ensures t == RuleWire(ReadRule(t).value) + ReadRule(t).rest { WrittenRule(t); }
    forall t | ReadText(t).Good? ensures t == TextWire(ReadText(t).value) + ReadText(t).rest { WrittenText(t); }
    forall t | ReadGateway(t).Good? ensures t == GatewayWire(ReadGateway(t).value) + ReadGateway(t).rest { WrittenGateway(t); }
    forall t | ReadRoute(t).Good? ensures t == RouteWire(ReadRoute(t).value) + ReadRoute(t).rest { WrittenRoute(t); }
  }

  const LARGEST: nat := 29486

  lemma {:induction false} ConcatIsBounded<T(!new)>(write: Writer<T>, xs: seq<T>, most: nat)
    requires forall i :: 0 <= i < |xs| ==> |write(xs[i])| <= most
    ensures |Concat(write, xs)| <= most * |xs|
  {
    if xs != [] {
      ConcatIsBounded(write, xs[1..], most);
      assert most * |xs| == most + most * (|xs| - 1);
    }
  }

  lemma ListIsBounded<T(!new)>(write: Writer<T>, xs: seq<T>, most: nat)
    requires forall i :: 0 <= i < |xs| ==> |write(xs[i])| <= most
    ensures |ListWire(write, xs)| <= 1 + most * |xs|
  {
    hide Concat;
    ConcatIsBounded(write, xs, most);
  }

  lemma MembersAreBounded(xs: seq<Member>)
    requires forall i :: 0 <= i < |xs| ==> |xs[i].group| <= 32
    ensures |MembersWire(xs)| <= 2 + 66 * |xs|
  {
    hide Concat;
    ConcatIsBounded(MemberWire, xs, 66);
  }

  lemma WireIsBounded(p: NetworkPolicy)
    requires Acceptable(p)
    ensures |Wire(p)| <= LARGEST
  {
    ShortTexts(p);
    assert SmallLists(p);
    hide Acceptable, ListWire, MembersWire;
    ListIsBounded(DeviceWire, p.hubs, 32);
    ListIsBounded(RuleWire, p.rules, 131);
    ListIsBounded(TextWire, p.groups, 33);
    MembersAreBounded(p.members);
    ListIsBounded(GatewayWire, p.gateways, 33);
    ListIsBounded(RouteWire, p.routes, 70);
    assert |HeaderWire(Header(p.revision, p.managed, p.topology))| == 11;
  }

  /** Every policy the encoder accepts is decoded to itself: it is below the decoder's size limit. */
  lemma DecodeOfWire(p: NetworkPolicy)
    requires Acceptable(p)
    ensures |Wire(p)| <= LARGEST && Decode(Wire(p)) == Success(p)
  {
    hide Acceptable, Wire, ReadPolicy;
    WireIsBounded(p);
    ReadPolicyOfWire(p);
  }

  /** Accepted octets are the encoding of the policy they decode to, which the encoder accepts. */
  lemma WireOfDecoded(s: seq<byte>)
    requires Decode(s).Success?
    ensures Acceptable(Decode(s).value) && Wire(Decode(s).value) == s
  {
    hide Acceptable, Wire, ReadPolicy;
    WireOfReadPolicy(s);
  }

  // ---- The loops of the encoder and the decoder ----

  lemma {:induction false} ConcatAppends<T>(write: Writer<T>, xs: seq<T>, x: T)
    ensures Concat(write, xs + [x]) == Concat(write, xs) + write(x)
  {
    if xs != [] {
      assert (xs + [x])[1..] == xs[1..] + [x];
      ConcatAppends(write, xs[1..], x);
    } else {
      assert [x][1..] == [];
      assert write(x) + Concat(write, []) == write(x);
    }
  }

  method WriteAll<T>(write: Writer<T>, xs: seq<T>, w: seq<byte>) returns (out: seq<byte>)
    ensures out == w + Concat(write, xs)
  {
    out := w;
    for i := 0 to |xs|
      invariant out == w + Concat(write, xs[..i])
    {
      out := out + write(xs[i]);
      ConcatAppends(write, xs[..i], xs[i]);
      assert xs[..i + 1] == xs[..i] + [xs[i]];
    }
    assert xs[..|xs|] == xs;
  }

  lemma {:induction false} ManyExtends<T>(parse: Reader<T>, n: nat, s: seq<byte>)
    ensures var r := Many(parse, n, s);
      Many(parse, n + 1, s) == if r.Bad? then Bad
      else (var x := parse(r.rest); if x.Bad? then Bad else Good(r.value + [x.value], x.rest))
  {
    var x := parse(s);
    if x.Good? {
      if n == 0 {
        assert Many(parse, 0, x.rest) == Good([], x.rest);
        assert [x.value] + [] == [] + [x.value];
      } else {
        ManyExtends(parse, n - 1, x.rest);
        var r := Many(parse, n - 1, x.rest);
        if r.Good? && parse(r.rest).Good? {
          assert [x.value] + (r.value + [parse(r.rest).value]) == ([x.value] + r.value) + [parse(r.rest).value];
        }
      }
    }
  }

  method ReadMany<T>(parse: Reader<T>, n: nat, s: seq<byte>) returns (r: Parsed<seq<T>>)
    ensures r == Many(parse, n, s)
  {
    var xs: seq<T>, rest := [], s;
    for i := 0 to n
      invariant Many(parse, i, s) == Good(xs, rest)
    {
      ManyExtends(parse, i, s);
      var x := parse(rest);
      if x.Bad? {
        BadStaysBad(parse, i + 1, n, s);
        return Bad;
      }
      xs, rest := xs + [x.value], x.rest;
    }
    r := Good(xs, rest);
  }

  lemma {:induction false} BadStaysBad<T>(parse: Reader<T>, i: nat, n: nat, s: seq<byte>)
    requires i <= n && Many(parse, i, s).Bad?
    ensures Many(parse, n, s).Bad?
    decreases n - i
  {
    if i < n {
      ManyExtends(parse, i, s);
      BadStaysBad(parse, i + 1, n, s);
    }
  }

  /** `ids.insert(d).second` for every device in turn. */
  method CheckDevices(ds: seq<DeviceId>) returns (ok: bool)
    ensures ok <==> GoodDevices(ds)
  {
    var ids: set<DeviceId> := {};
    for i := 0 to |ds|
      invariant forall d :: d in ids <==> d in ds[..i]
      invariant GoodDevices(ds[..i])
    {
      if ds[i] == ZERO_DEVICE || ds[i] in ids {
        assert ds[i] in ds;
        return false;
      }
      ids := ids + {ds[i]};
      assert ds[..i + 1] == ds[..i] + [ds[i]];
    }
    assert ds[..|ds|] == ds;
    return true;
  }

  method CheckText(t: Text) returns (ok: bool)
    ensures ok <==> GoodText(t)
  {
    ok := |t| <= 32 && forall i :: 0 <= i < |t| ==> NameOctet(t[i]);
  }

  /** The set of names starts from "members"; every group has to be new in it. */
  method CheckGroups(groups: seq<Text>) returns (ok: bool, names: set<Text>)
    ensures ok <==> GoodGroups(groups)
    ensures ok ==> forall g :: g in names <==> Known(g, groups)
  {
    names := {MEMBERS};
    for i := 0 to |groups|
      invariant forall g :: g in names <==> Known(g, groups[..i])
      invariant GoodGroups(groups[..i])
    {
      var good := CheckText(groups[i]);
      if groups[i] == [] || groups[i] == MEMBERS || groups[i] in names || !good {
        assert groups[i] in groups;
        return false, names;
      }
      names := names + {groups[i]};
      assert groups[..i + 1] == groups[..i] + [groups[i]];
    }
    assert groups[..|groups|] == groups;
    ok := true;
  }

  method CheckRoutes(p: NetworkPolicy, names: set<Text>) returns (ok: bool)
    requires forall g :: g in names <==> Known(g, p.groups)
    ensures ok <==> (forall i :: 0 <= i < |p.routes| ==> GoodRoute(p.routes[i], p)) && RoutesApart(p.routes)
  {
    hide PrivateRoutedSubnet, SubnetsOverlap, ApprovedGateway, Known;
    for i := 0 to |p.routes|
      invariant forall k :: 0 <= k < i ==> GoodRoute(p.routes[k], p)
      invariant RoutesApart(p.routes[..i])
    {
      var r := p.routes[i];
      if !PrivateRoutedSubnet(r.address, r.prefix) || !(r.group == [] || r.group in names) || !ApprovedGateway(p.gateways, r.gateway) {
        assert !GoodRoute(p.routes[i], p);
        return false;
      }
      for j := 0 to i
        invariant forall k :: 0 <= k < j ==> !SubnetsOverlap(r.address, r.prefix, p.routes[k].address, p.routes[k].prefix)
      {
        if SubnetsOverlap(r.address, r.prefix, p.routes[j].address, p.routes[j].prefix) {
          return false;
        }
      }
    }
    assert p.routes[..|p.routes|] == p.routes;
    return true;
  }

  method CheckRules(p: NetworkPolicy, names: set<Text>) returns (ok: bool)
    requires forall g :: g in names <==> Known(g, p.groups)
    ensures ok <==> forall i :: 0 <= i < |p.rules| ==> GoodSubject(p.rules[i].first, p.groups) && GoodSubject(p.rules[i].second, p.groups)
  {
    for i := 0 to |p.rules|
      invariant forall k :: 0 <= k < i ==> GoodSubject(p.rules[k].first, p.groups) && GoodSubject(p.rules[k].second, p.groups)
    {
      var first := CheckSubject(p.rules[i].first, p.groups, names);
      var second := CheckSubject(p.rules[i].second, p.groups, names);
      if !first || !second {
        return false;
      }
    }
    return true;
  }

  method CheckSubject(x: Subject, groups: seq<Text>, names: set<Text>) returns (ok: bool)
    requires forall g :: g in names <==> Known(g, groups)
    ensures ok <==> GoodSubject(x, groups)
  {
    var good := CheckText(x.group);
    ok := (x.device == ZERO_DEVICE || x.group == []) && good && (x.group == [] || x.group in names);
  }

  method CheckMembers(p: NetworkPolicy, names: set<Text>) returns (ok: bool)
    requires forall g :: g in names <==> Known(g, p.groups)
    ensures ok <==> forall i :: 0 <= i < |p.members| ==> GoodMember(p.members[i], p.groups)
  {
    for i := 0 to |p.members|
      invariant forall k :: 0 <= k < i ==> GoodMember(p.members[k], p.groups)
    {
      if p.members[i].role > RESTRICTED || p.members[i].group !in names {
        assert !GoodMember(p.members[i], p.groups);
        return false;
      }
    }
    return true;
  }

  method CheckPolicy(p: NetworkPolicy) returns (ok: bool)
    ensures ok <==> Acceptable(p)
  {
    hide GoodDevices, GoodSubject, GoodGroups, GoodMember, GoodRoute, RoutesApart, PlainMesh, SmallLists, Known;
    if p.topology > HUB_SPOKE || !SmallLists(p) || !(p.managed || PlainMesh(p)) {
      return false;
    }
    var hubs := CheckDevices(p.hubs);
    var groups, names := CheckGroups(p.groups);
    if !hubs || !groups {
      return false;
    }
    var members := CheckDevices(MemberDevices(p.members));
    var roles := CheckMembers(p, names);
    var rules := CheckRules(p, names);
    var gateways := CheckDevices(GatewayDevices(p.gateways));
    var routes := CheckRoutes(p, names);
    ok := members && roles && rules && gateways && routes;
  }

  method EncodeNetworkPolicy(p: NetworkPolicy) returns (r: Result<seq<byte>>)
    ensures r == if Acceptable(p) then Success(Wire(p)) else Failure
  {
    hide Acceptable, HeaderWire, Concat;
    var ok := CheckPolicy(p);
    if !ok {
      return Failure;
    }
    var header := HeaderWire(Header(p.revision, p.managed, p.topology));
    var hubs := WriteAll(DeviceWire, p.hubs, [|p.hubs| % 256]);
    var rules := WriteAll(RuleWire, p.rules, [|p.rules| % 256]);
    var groups := WriteAll(TextWire, p.groups, [|p.groups| % 256]);
    var members := WriteAll(MemberWire, p.members, Be16(|p.members| % 0x1_0000));
    var gateways := WriteAll(GatewayWire, p.gateways, [|p.gateways| % 256]);
    var routes := WriteAll(RouteWire, p.routes, [|p.routes| % 256]);
    r := Success(header + (hubs + (rules + (groups + (members + (gateways + routes))))));
  }

  method ReadCounted<T>(parse: Reader<T>, max: nat, s: seq<byte>) returns (r: Parsed<seq<T>>)
    ensures r == ReadList(parse, max, s)
  {
    var n := Octet(s);
    if n.Bad? || n.value > max {
      return Bad;
    }
    r := ReadMany(parse, n.value, n.rest);
  }

  method DecodeNetworkPolicy(s: seq<byte>) returns (r: Result<NetworkPolicy>)
    ensures r == Decode(s)
  {
    hide ReadHeader, ReadList, Many, Acceptable, Wire;
    if |s| > MAX_SIZE {
      return Failure;
    }
    var h := ReadHeader(s);
    if h.Bad? { return Failure; }
    var hubs := ReadCounted(Device, 32, h.rest);
    if hubs.Bad? { return Failure; }
    var rules := ReadCounted(ReadRule, 64, hubs.rest);
    if rules.Bad? { return Failure; }
    var groups := ReadCounted(ReadText, 16, rules.rest);
    if groups.Bad? { return Failure; }
    var count := Take(2, groups.rest);
    if count.Bad? || U16(count.value, 0) > 254 { return Failure; }
    var members := ReadMany(ReadMember, U16(count.value, 0), count.rest);
    if members.Bad? { return Failure; }
    var gateways := ReadCounted(ReadGateway, 16, members.rest);
    if gateways.Bad? { return Failure; }
    var routes := ReadCounted(ReadRoute, 32, gateways.rest);
    if routes.Bad? || routes.rest != [] { return Failure; }
    var p := NetworkPolicy(h.value.revision, h.value.managed, h.value.topology, hubs.value, rules.value, groups.value,
                           members.value, gateways.value, routes.value);
    var again := EncodeNetworkPolicy(p);
    r := if again.Success? then Success(p) else Failure;
  }
}
