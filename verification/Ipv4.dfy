/** IPv4 header inspection and fragmentation on wire octets. */
module Ipv4 {
  import opened Bytes
  import opened Checksum
  import opened Ipv4Options
  import opened Fragmentation

  datatype Header = Header(size: nat, source: nat, destination: nat, offset: nat, more: bool, dontFragment: bool)

  function Flags(packet: seq<byte>): (f: nat)
    requires |packet| >= 20
  {
    U16(packet, 6)
  }

  function Offset(packet: seq<byte>): (o: nat)
    requires |packet| >= 20
  {
    Flags(packet) % 0x2000 * 8
  }

  predicate More(packet: seq<byte>)
    requires |packet| >= 20
  {
    Flags(packet) / 0x2000 % 2 == 1
  }

  predicate DontFragment(packet: seq<byte>)
    requires |packet| >= 20
  {
    Flags(packet) / 0x4000 % 2 == 1
  }

  function Options(packet: seq<byte>): (o: seq<byte>)
    requires HasHeader(packet)
  {
    packet[20..HeaderSize(packet)]
  }

  function Payload(packet: seq<byte>): (p: seq<byte>)
    requires HasHeader(packet)
  {
    packet[HeaderSize(packet)..]
  }

  predicate GoodFragmentBounds(packet: seq<byte>)
    requires HasHeader(packet)
  {
    var offset, more, df, payload := Offset(packet), More(packet), DontFragment(packet), |Payload(packet)|;
    && Flags(packet) < 0x8000
    && !(df && (more || offset != 0))
    && !((more || offset != 0) && payload == 0)
    && !(more && payload % 8 != 0)
    && offset + payload <= 65535 - HeaderSize(packet)
  }

  /** `inspect_ipv4` accepts the packet. */
  predicate Accepted(packet: seq<byte>)
  {
    && 20 <= |packet| <= 65535 && packet[0] / 16 == 4
    && HasHeader(packet)
    && U16(packet, 2) == |packet|
    && packet[8] != 0
    && InternetChecksum(packet[..HeaderSize(packet)]) == 0
    && CopiedOptions(Options(packet)).Success?
    && GoodFragmentBounds(packet)
  }

  /** What `inspect_ipv4` returns for an accepted packet. */
  function Inspect(packet: seq<byte>): (r: Result<Header>)
  {
    if Accepted(packet)
    then Success(Header(HeaderSize(packet), U32(packet, 12), U32(packet, 16), Offset(packet), More(packet), DontFragment(packet)))
    else Failure
  }

  /** `inspect_ipv4`, check by check. */
  method InspectIpv4(packet: seq<byte>) returns (r: Result<Header>)
    ensures r == Inspect(packet)
  {
    if |packet| < 20 || |packet| > 65535 || packet[0] / 16 != 4 { return Failure; }
    var header := packet[0] as int % 16 * 4;
    if header < 20 || header > |packet| || U16(packet, 2) != |packet| || packet[8] == 0 { return Failure; }
    var checksum := ComputeChecksum(packet[..header]);
    if checksum != 0 { return Failure; }
    var options := CopyOptions(packet, header);
    if options.Failure? { return Failure; }
    var flags := U16(packet, 6);
    var offset := flags % 0x2000 * 8;
    var more, df := flags / 0x2000 % 2 == 1, flags / 0x4000 % 2 == 1;
    var payload := |packet| - header;
    if flags >= 0x8000 || (df && (more || offset != 0)) || ((more || offset != 0) && payload == 0)
       || (more && payload % 8 != 0) || offset + payload > 65535 - header { return Failure; }
    r := Success(Header(header, U32(packet, 12), U32(packet, 16), offset, more, df));
  }

  /** What inspection accepts, field by field of the header of section 3.1 of RFC 791, and what it reports. */
  lemma InspectedExactly(p: seq<byte>)
    ensures Inspect(p).Success? <==>
      && 20 <= |p| <= 65535 && 0x45 <= p[0] <= 0x4f
      && var h := (p[0] as int - 0x40) * 4; var f := U16(p, 6);
         && h <= |p| && U16(p, 2) == |p| && p[8] != 0 && InternetChecksum(p[..h]) == 0 && CopiedOptions(p[20..h]).Success?
         && f < 0x8000 && (f >= 0x4000 ==> f == 0x4000) && (f % 0x4000 != 0 ==> h < |p|) && (f % 0x4000 >= 0x2000 ==> (|p| - h) % 8 == 0)
         && f % 0x2000 * 8 + |p| <= 65535
    ensures Inspect(p).Success? ==>
      && Inspect(p).value.size == (p[0] as int - 0x40) * 4 && Inspect(p).value.source == U32(p, 12) && Inspect(p).value.destination == U32(p, 16)
      && Inspect(p).value.offset == U16(p, 6) % 0x2000 * 8 && (Inspect(p).value.more <==> U16(p, 6) % 0x4000 >= 0x2000)
      && (Inspect(p).value.dontFragment <==> U16(p, 6) >= 0x4000)
  {
    hide InternetChecksum, CopiedOptions;
    if |p| >= 20 {
      FlagBits(U16(p, 6));
      VersionAndLength(p[0]);
    }
  }

  lemma FlagBits(f: nat)
    requires f < 0x1_0000
    ensures f < 0x8000 ==> (f / 0x4000 % 2 == 1 <==> f >= 0x4000)
    ensures f / 0x2000 % 2 == 1 <==> f % 0x4000 >= 0x2000
    ensures f % 0x4000 == 0 <==> f / 0x2000 % 2 != 1 && f % 0x2000 == 0
    ensures f < 0x8000 ==> (f == 0x4000 <==> f >= 0x4000 && f % 0x4000 == 0)
  {
  }

  lemma VersionAndLength(b: byte)
    ensures b / 16 == 4 ==> b as int % 16 * 4 == (b as int - 0x40) * 4
    ensures b / 16 == 4 && b as int % 16 * 4 >= 20 <==> 0x45 <= b <= 0x4f
  {
  }

  /** An accepted packet as a datagram. */
  ghost function Read(packet: seq<byte>): (d: Datagram)
    requires Inspect(packet).Success?
  {
    Datagram(packet[1..2] + packet[4..6] + packet[8..10] + packet[12..20], Options(packet),
             CopiedOptions(Options(packet)).value, Offset(packet), More(packet), DontFragment(packet), Payload(packet))
  }

  ghost predicate ReadsAs(packet: seq<byte>, d: Datagram)
  {
    Inspect(packet).Success? && Read(packet) == d
  }

  /** Packet by packet these are those datagrams, and no packet is longer than `mtu`. */
  ghost predicate AllReadAs(packets: seq<seq<byte>>, ds: seq<Datagram>, mtu: nat)
  {
    |packets| == |ds| && forall i :: 0 <= i < |ds| ==> ReadsAs(packets[i], ds[i]) && |packets[i]| <= mtu
  }

  lemma AllReadAsSnoc(packets: seq<seq<byte>>, ds: seq<Datagram>, p: seq<byte>, d: Datagram, mtu: nat)
    requires AllReadAs(packets, ds, mtu) && ReadsAs(p, d) && |p| <= mtu
    ensures AllReadAs(packets + [p], ds + [d], mtu)
  {}

  // ---- Building one fragment ----

  /** The octets of a fragment before its checksum: the first 20 of the packet patched, options and payload. */
  function Draft(packet: seq<byte>, options: seq<byte>, payload: seq<byte>, flags: nat): (f: seq<byte>)
    requires |packet| >= 20 && |options| <= 40 && |options| % 4 == 0
    requires 20 + |options| + |payload| <= 65535 && flags < 0x1_0000
    ensures |f| == 20 + |options| + |payload|
  {
    var raw := packet[..20] + options + payload;
    Put16(Put16(raw[0 := 0x40 + (20 + |options|) / 4], 2, |raw|), 6, flags)
  }

  lemma DraftOctets(packet: seq<byte>, options: seq<byte>, payload: seq<byte>, flags: nat)
    requires |packet| >= 20 && |options| <= 40 && |options| % 4 == 0
    requires 20 + |options| + |payload| <= 65535 && flags < 0x1_0000
    ensures
      var d := Draft(packet, options, payload, flags);
      && d[0] == 0x40 + (20 + |options|) / 4
      && U16(d, 2) == |d| && U16(d, 6) == flags
      && (forall i :: 1 <= i < 20 && i != 2 && i != 3 && i != 6 && i != 7 ==> d[i] == packet[i])
      && d[20..] == options + payload
  {
    var raw := packet[..20] + options + payload;
    assert raw[20..] == options + payload;
    var d := Draft(packet, options, payload, flags);
    assert d[20..] == raw[20..];
  }

  lemma DraftLayout(packet: seq<byte>, options: seq<byte>, payload: seq<byte>, flags: nat)
    requires |packet| >= 20 && |options| <= 40 && |options| % 4 == 0
    requires 20 + |options| + |payload| <= 65535 && flags < 0x1_0000
    ensures
      var d := Draft(packet, options, payload, flags);
      && HasHeader(d) && HeaderSize(d) == 20 + |options| && d[0] / 16 == 4
      && Options(d) == options && Payload(d) == payload
  {
    DraftOctets(packet, options, payload, flags);
    var d := Draft(packet, options, payload, flags);
    var n := 20 + |options|;
    assert d[0] as int % 16 * 4 == n;
    assert d[20..n] == d[20..][..|options|] == options;
    assert d[n..] == d[20..][|options|..] == payload;
  }

  lemma ChecksumKeepsLayout(d: seq<byte>)
    requires HasHeader(d)
    ensures
      var f := WithChecksum(d);
      && HasHeader(f) && HeaderSize(f) == HeaderSize(d) && |f| == |d|
      && Options(f) == Options(d) && Payload(f) == Payload(d)
      && U16(f, 2) == U16(d, 2) && U16(f, 6) == U16(d, 6) && f[0] == d[0] && f[8] == d[8]
      && f[1..2] == d[1..2] && f[4..6] == d[4..6] && f[8..10] == d[8..10] && f[12..20] == d[12..20]
      && InternetChecksum(f[..HeaderSize(f)]) == 0
  {
    UpdatedHeaderVerifies(d);
  }

  // ---- The fragment of a packet at a place in its payload ----

  /** A place where the loop may cut: whole 8-octet units up to the last piece. */
  predicate CutsAt(packet: seq<byte>, at: nat, count: nat)
    requires HasHeader(packet)
  {
    && 0 < count && at % 8 == 0 && at + count <= |Payload(packet)|
    && (at + count < |Payload(packet)| ==> count % 8 == 0)
  }

  lemma OptionsFit(packet: seq<byte>)
    requires Inspect(packet).Success?
    ensures |Options(packet)| % 4 == 0 && CopiedOptions(Options(packet)).Success?
    ensures |CopiedOptions(Options(packet)).value| <= |Options(packet)|
    ensures CopiedOptions(CopiedOptions(Options(packet)).value) == CopiedOptions(Options(packet))
  {
    hide Kept, InternetChecksum, GoodFragmentBounds;
    CopiedOptionsFit(Options(packet));
    CopyingIsIdempotent(Options(packet));
  }

  function SliceOptions(packet: seq<byte>, at: nat): (o: seq<byte>)
    requires Inspect(packet).Success?
    ensures |o| % 4 == 0 && |o| <= |Options(packet)|
    ensures CopiedOptions(o) == CopiedOptions(Options(packet))
  {
    OptionsFit(packet);
    if at == 0 then Options(packet) else CopiedOptions(Options(packet)).value
  }

  function SliceFlags(offset: nat, more: bool): (f: nat)
    requires offset <= 65535
    ensures f < 0x4000 && f % 0x2000 == offset / 8 && (f / 0x2000 == 1 <==> more)
  {
    offset / 8 + if more then 0x2000 else 0
  }

  /** `f` is a packet with the fixed fields of `packet` around these options, payload and flags. */
  ghost predicate BuiltAs(f: seq<byte>, packet: seq<byte>, options: seq<byte>, payload: seq<byte>, flags: nat)
    requires |packet| >= 20
  {
    && HasHeader(f) && HeaderSize(f) == 20 + |options| && f[0] / 16 == 4 && f[8] == packet[8]
    && U16(f, 2) == |f| == 20 + |options| + |payload| && U16(f, 6) == flags
    && Options(f) == options && Payload(f) == payload
    && f[1..2] == packet[1..2] && f[4..6] == packet[4..6] && f[8..10] == packet[8..10] && f[12..20] == packet[12..20]
    && InternetChecksum(f[..HeaderSize(f)]) == 0
  }

  lemma DraftIsBuilt(packet: seq<byte>, options: seq<byte>, payload: seq<byte>, flags: nat)
    requires |packet| >= 20 && |options| <= 40 && |options| % 4 == 0
    requires 20 + |options| + |payload| <= 65535 && flags < 0x1_0000
    ensures HasHeader(Draft(packet, options, payload, flags))
    ensures BuiltAs(WithChecksum(Draft(packet, options, payload, flags)), packet, options, payload, flags)
  {
    DraftOctets(packet, options, payload, flags);
    DraftLayout(packet, options, payload, flags);
    ChecksumKeepsLayout(Draft(packet, options, payload, flags));
  }

  /** Flag word and bounds of a cut, in numbers only. */
  lemma CutArithmetic(offset: nat, total: nat, header: nat, at: nat, count: nat, more: bool, flags: nat)
    requires offset % 8 == 0 && at % 8 == 0 && at + count <= total && offset + total <= 65535 - header
    requires header >= 20 && flags == SliceFlags(offset + at, more)
    ensures flags % 0x2000 * 8 == offset + at && flags / 0x4000 == 0 && (flags / 0x2000 % 2 == 1 <==> more)
    ensures (offset + at) + count <= 65535 - header
  {}

  lemma BuiltHasGoodBounds(f: seq<byte>, packet: seq<byte>, at: nat, count: nat, options: seq<byte>, flags: nat)
    requires HasHeader(packet) && GoodFragmentBounds(packet) && !DontFragment(packet) && CutsAt(packet, at, count)
    requires flags == SliceFlags(Offset(packet) + at, at + count < |Payload(packet)| || More(packet))
    requires HasHeader(f) && HeaderSize(f) == 20 + |options| && U16(f, 6) == flags && |Payload(f)| == count
    requires |options| <= |Options(packet)|
    ensures GoodFragmentBounds(f) && Offset(f) == Offset(packet) + at && !DontFragment(f)
    ensures More(f) <==> at + count < |Payload(packet)| || More(packet)
  {
    var more := at + count < |Payload(packet)| || More(packet);
    CutArithmetic(Offset(packet), |Payload(packet)|, HeaderSize(packet), at, count, more, flags);
    CutIsAligned(|Payload(packet)|, at, count, More(packet));
    hide SliceFlags;
    assert Offset(f) == Offset(packet) + at && (More(f) <==> more) && !DontFragment(f);
  }

  lemma CutIsAligned(total: nat, at: nat, count: nat, more: bool)
    requires at % 8 == 0 && at + count <= total && (at + count < total ==> count % 8 == 0) && (more ==> total % 8 == 0)
    ensures at + count < total || more ==> count % 8 == 0
  {}

  lemma BuiltIsAccepted(f: seq<byte>, packet: seq<byte>, options: seq<byte>, payload: seq<byte>, flags: nat)
    requires Inspect(packet).Success? && BuiltAs(f, packet, options, payload, flags)
    requires |options| <= |Options(packet)| && |payload| <= |Payload(packet)|
    requires CopiedOptions(options).Success? && GoodFragmentBounds(f)
    ensures Inspect(f).Success?
  {}

  lemma BuiltIsSlice(f: seq<byte>, packet: seq<byte>, at: nat, count: nat, flags: nat)
    requires Inspect(packet).Success? && !DontFragment(packet) && CutsAt(packet, at, count)
    requires flags == SliceFlags(Offset(packet) + at, at + count < |Payload(packet)| || More(packet))
    requires BuiltAs(f, packet, SliceOptions(packet, at), Payload(packet)[at..at + count], flags)
    ensures Inspect(f).Success? && IsSlice(Read(f), Read(packet), at) && |Read(f).payload| == count
  {
    var options := SliceOptions(packet, at);
    BuiltHasGoodBounds(f, packet, at, count, options, flags);
    BuiltIsAccepted(f, packet, options, Payload(packet)[at..at + count], flags);
  }

  // ---- The fragmentation loop ----

  datatype FragmentResult =
    | Pieces(fragments: seq<seq<byte>>)
    | Invalid                // the MTU or the packet is not acceptable
    | FragmentationNeeded    // too long, and the packet must not be fragmented

  /** How many payload octets go into a fragment: never none, which rules out the source's last error. */
  function CountAt(offset: nat, remaining: nat, header: nat, mtu: nat): (n: nat)
    requires remaining > 0 && header + 8 <= mtu && offset % 8 == 0
    ensures 0 < n <= remaining && header + n <= mtu
    ensures n < remaining ==> n % 8 == 0 && (offset + n) % 8 == 0
  {
    if remaining <= mtu - header then remaining else (mtu - header) / 8 * 8
  }

  /** Assembles a fragment octet by octet and checksums it in place. */
  method AssembleFragment(packet: seq<byte>, options: seq<byte>, payload: seq<byte>, flags: nat) returns (f: seq<byte>)
    requires |packet| >= 20 && |options| <= 40 && |options| % 4 == 0
    requires 20 + |options| + |payload| <= 65535 && flags < 0x1_0000
    ensures BuiltAs(f, packet, options, payload, flags)
  {
    var header := 20 + |options|;
    var buffer := packet[..20];
    buffer := buffer + options;
    buffer := buffer + payload;
    buffer := buffer[0 := 0x40 + header / 4];
    buffer := Put16(buffer, 2, |buffer|);
    buffer := Put16(buffer, 6, flags);
    assert buffer == Draft(packet, options, payload, flags);
    DraftIsBuilt(packet, options, payload, flags);
    var cells := new byte[|buffer|](i requires 0 <= i < |buffer| => buffer[i]);
    assert cells[..] == buffer;
    var ok := UpdateChecksum(cells);
    f := cells[..];
  }

  lemma PayloadSlice(packet: seq<byte>, at: nat, count: nat)
    requires HasHeader(packet) && at + count <= |Payload(packet)|
    ensures packet[HeaderSize(packet) + at..HeaderSize(packet) + at + count] == Payload(packet)[at..at + count]
  {}

  /** The body of the loop: the fragment at `at`. */
  method BuildFragment(packet: seq<byte>, options: seq<byte>, at: nat, count: nat)
    returns (f: seq<byte>, ghost d: Datagram)
    requires Inspect(packet).Success? && !DontFragment(packet) && CutsAt(packet, at, count)
    requires options == CopiedOptions(Options(packet)).value
    ensures ReadsAs(f, d) && IsSlice(d, Read(packet), at) && |d.payload| == count
    ensures |f| == (if at == 0 then HeaderSize(packet) else 20 + |options|) + count
  {
    hide IsSlice, InternetChecksum, CopiedOptions, SliceFlags;
    var size := HeaderSize(packet);
    var remaining := |packet| - size - at;
    var flags := SliceFlags(Offset(packet) + at, count < remaining || More(packet));
    ghost var chosen := SliceOptions(packet, at);
    PayloadSlice(packet, at, count);
    f := AssembleFragment(packet, if at == 0 then packet[20..size] else options,
                          packet[size + at..size + at + count], flags);
    BuiltIsSlice(f, packet, at, count, flags);
    d := Read(f);
  }

  /** One turn of the loop of `fragment_ipv4`: the next piece fits and reads back as the next slice. */
  method NextFragment(packet: seq<byte>, options: seq<byte>, offset: nat, mtu: nat)
    returns (f: seq<byte>, next: nat, ghost d: Datagram)
    requires Inspect(packet).Success? && !DontFragment(packet) && 68 <= mtu
    requires options == CopiedOptions(Options(packet)).value && |options| <= |Options(packet)|
    requires offset < |Payload(packet)| && offset % 8 == 0
    ensures ReadsAs(f, d) && IsSlice(d, Read(packet), offset) && offset + |d.payload| == next
    ensures offset < next <= |Payload(packet)| && |f| <= mtu
    ensures next < |Payload(packet)| ==> next % 8 == 0
    ensures var room := mtu - if offset == 0 then HeaderSize(packet) else 20 + |options|;
      && room >= 8 && next == (if |Payload(packet)| - offset <= room then |Payload(packet)| else offset + room / 8 * 8)
      && |f| == mtu - room + (next - offset)
  {
    hide IsSlice, InternetChecksum, CopiedOptions;
    var header := if offset == 0 then HeaderSize(packet) else 20 + |options|;
    var count := CountAt(offset, |packet| - HeaderSize(packet) - offset, header, mtu);
    f, d := BuildFragment(packet, options, offset, count);
    next := offset + count;
  }

  /** Where `n` pieces end that are not the last: the first one of `a` octets, all others of `b`. */
  function Reach(a: nat, b: nat, n: nat): (offset: nat)
  {
    if n == 0 then 0 else if n == 1 then a else Reach(a, b, n - 1) + b
  }

  /**
    * `n` pieces are needed, and no fewer: after all but one, filled to the last
    * whole eight octets, the rest fits into the room of a piece, and not before.
    */
  predicate Needed(n: nat, total: nat, first: nat, later: nat)
  {
    && n >= 2 && total > first && total - Reach(first / 8 * 8, later / 8 * 8, n - 1) <= later
    && (n > 2 ==> total - Reach(first / 8 * 8, later / 8 * 8, n - 2) > later)
  }

  /** `n` pieces have been cut up to `offset`: all full if something is left, and as many as needed if not. */
  predicate OnTrack(n: nat, total: nat, first: nat, later: nat, offset: nat)
  {
    var a, b := first / 8 * 8, later / 8 * 8;
    && offset <= total && (offset < total ==> offset == Reach(a, b, n) && (n >= 2 ==> total - Reach(a, b, n - 1) > later))
    && (offset == total ==> Needed(n, total, first, later))
  }

  lemma OneMorePiece(n: nat, total: nat, first: nat, later: nat, offset: nat, next: nat)
    requires first >= 8 && later >= 8 && total > first && offset < total && OnTrack(n, total, first, later, offset)
    requires var room := if n == 0 then first else later; next == if total - offset <= room then total else offset + room / 8 * 8
    ensures OnTrack(n + 1, total, first, later, next)
  {
    var a, b := first / 8 * 8, later / 8 * 8;
    assert n >= 1 ==> Reach(a, b, n + 1) == Reach(a, b, n) + b;
  }

  lemma FullSnoc(pieces: seq<seq<byte>>, f: seq<byte>, mtu: nat, last: bool)
    requires AllFull(pieces, mtu, |pieces|) && (last || |f| <= mtu < |f| + 8)
    ensures AllFull(pieces + [f], mtu, if last then |pieces| else |pieces| + 1)
  {
  }

  /** Every piece but the last is as long as the MTU and the alignment allow. */
  predicate AllFull(pieces: seq<seq<byte>>, mtu: nat, count: nat)
  {
    forall i :: 0 <= i < |pieces| && i < count ==> |pieces[i]| <= mtu < |pieces[i]| + 8
  }

  /** The loop of `fragment_ipv4`; its "MTU cannot hold a fragment" error is never reached. */
  method BuildFragments(packet: seq<byte>, options: seq<byte>, mtu: nat)
    returns (result: seq<seq<byte>>, ghost read: seq<Datagram>)
    requires Inspect(packet).Success? && !DontFragment(packet) && 68 <= mtu < |packet|
    requires options == CopiedOptions(Options(packet)).value && |options| <= |Options(packet)|
    ensures AllReadAs(result, read, mtu) && AreFragments(read, Read(packet)) && AllFull(result, mtu, |result| - 1)
    ensures Needed(|result|, |Payload(packet)|, mtu - HeaderSize(packet), mtu - 20 - |options|)
  {
    hide IsSlice, InternetChecksum, CopiedOptions, ReadsAs, GoodFragmentBounds;
    var total := |packet| - HeaderSize(packet);
    result, read := [], [];
    ghost var whole := Read(packet);
    assert total == |Payload(packet)| == |whole.payload|;
    assert CoveredTo([], whole, 0) == Some(0);
    ghost var first, later := mtu - HeaderSize(packet), mtu - 20 - |options|;
    assert OnTrack(0, total, first, later, 0);
    hide CoveredTo, Read, Inspect, OnTrack, Needed, AllFull, AllReadAs, NoneEmpty;
    NothingYet(mtu);
    var offset := 0;
    while offset < total
      invariant offset <= total && OnTrack(|result|, total, first, later, offset)
      invariant offset < total ==> offset % 8 == 0
      invariant |result| == |read| && AllReadAs(result, read, mtu)
      invariant CoveredTo(read, whole, 0) == Some(offset)
      invariant (offset > 0 <==> read != []) && NoneEmpty(read)
      invariant AllFull(result, mtu, if offset < total then |result| else |result| - 1)
    {
      ghost var d: Datagram;
      var f, next;
      f, next, d := NextFragment(packet, options, offset, mtu);
      OneMorePiece(|result|, total, first, later, offset, next);
      CoversSnoc(read, d, whole, 0, offset, next);
      AllReadAsSnoc(result, read, f, d, mtu);
      FullSnoc(result, f, mtu, next == total);
      NoneEmptySnoc(read, d);
      result, read := result + [f], read + [d];
      offset := next;
    }
    TrackEnds(|result|, total, first, later);
  }

  lemma NothingYet(mtu: nat)
    ensures AllReadAs([], [], mtu) && NoneEmpty([]) && AllFull([], mtu, 0)
  {
  }

  lemma NoneEmptySnoc(ds: seq<Datagram>, d: Datagram)
    requires NoneEmpty(ds) && d.payload != []
    ensures NoneEmpty(ds + [d])
  {
  }

  lemma TrackEnds(n: nat, total: nat, first: nat, later: nat)
    requires OnTrack(n, total, first, later, total)
    ensures Needed(n, total, first, later)
  {
  }

  /**
    * `fragment_ipv4`. For a packet that is accepted and may be fragmented, every
    * MTU from 68 up succeeds: the pieces fit, are accepted, and together are the
    * fragments of the packet.
    */
  method FragmentIpv4(packet: seq<byte>, mtu: nat) returns (r: FragmentResult, ghost read: seq<Datagram>)
    requires mtu < 0x1_0000
    ensures r == Invalid <==> mtu < 68 || Inspect(packet).Failure?
    ensures r == FragmentationNeeded <==> mtu >= 68 && Inspect(packet).Success? && |packet| > mtu && DontFragment(packet)
    ensures r.Pieces? ==> AllReadAs(r.fragments, read, mtu) && AreFragments(read, Read(packet))
    ensures r.Pieces? && |packet| <= mtu ==> r.fragments == [packet]
    ensures r.Pieces? && |packet| > mtu ==> AllFull(r.fragments, mtu, |r.fragments| - 1)
    ensures r.Pieces? && |packet| > mtu ==>
      Needed(|r.fragments|, |Payload(packet)|, mtu - HeaderSize(packet), mtu - 20 - |CopiedOptions(Options(packet)).value|)
  {
    hide InternetChecksum, AllFull, Needed, AreFragments, CopiedOptions;
    read := [];
    if mtu < 68 { return Invalid, read; }
    var inspected := InspectIpv4(packet);
    if inspected.Failure? { return Invalid, read; }
    if |packet| <= mtu {
      read := [Read(packet)];
      WholeIsItsOwnFragment(Read(packet));
      return Pieces([packet]), read;
    }
    if inspected.value.dontFragment { return FragmentationNeeded, read; }
    var copied := CopyOptions(packet, inspected.value.size);
    CopiedOptionsFit(Options(packet));
    assert Payload(packet) != [];
    var result;
    result, read := BuildFragments(packet, copied.value, mtu);
    r := Pieces(result);
  }

  lemma AllReadAsJoins(ps: seq<seq<byte>>, ds: seq<Datagram>, qs: seq<seq<byte>>, es: seq<Datagram>, mtu: nat)
    requires AllReadAs(ps, ds, mtu) && AllReadAs(qs, es, mtu)
    ensures AllReadAs(ps + qs, ds + es, mtu)
  {
    hide ReadsAs;
  }

  lemma PieceMayBeCut(p: seq<byte>, d: Datagram, whole: Datagram, at: nat)
    requires ReadsAs(p, d) && IsSlice(d, whole, at)
    ensures Inspect(p).Success? && Read(p) == d && DontFragment(p) == whole.dontFragment
  {
  }

  lemma FragmentsExist(packet: seq<byte>, fs: seq<Datagram>)
    requires Inspect(packet).Success? && AreFragments(fs, Read(packet))
    ensures fs != [] && |packet| >= 20 && DontFragment(packet) == Read(packet).dontFragment
  {
  }

  /**
    * Fragmenting at one MTU and every piece again at another: for a packet that
    * may be cut this always succeeds, and the octets that come out are again
    * fragments of the original packet, all within the second MTU.
    */
  method FragmentTwice(packet: seq<byte>, first: nat, second: nat) returns (r: Option<seq<seq<byte>>>, ghost read: seq<Datagram>)
    requires first < 0x1_0000 && second < 0x1_0000
    ensures r.Some? <==> Inspect(packet).Success? && first >= 68 && second >= 68 && (DontFragment(packet) ==> |packet| <= first && |packet| <= second)
    ensures r.Some? ==> Inspect(packet).Success? && AllReadAs(r.value, read, second) && AreFragments(read, Read(packet))
  {
    hide Inspect, ReadsAs, AreFragments;
    read := [];
    var cut;
    ghost var fs;
    cut, fs := FragmentIpv4(packet, first);
    if !cut.Pieces? { return None, read; }
    var result: seq<seq<byte>> := [];
    ghost var pieces: seq<seq<Datagram>> := [];
    assert Flatten(pieces) == [];
    FragmentsExist(packet, fs);
    for i := 0 to |cut.fragments|
      invariant |pieces| == i && forall n :: 0 <= n < i ==> AreFragments(pieces[n], fs[n])
      invariant AllReadAs(result, Flatten(pieces), second)
      invariant i > 0 ==> second >= 68 && (DontFragment(packet) ==> |packet| <= second)
    {
      SliceAt(fs, Read(packet), i);
      PieceMayBeCut(cut.fragments[i], fs[i], Read(packet), |Payloads(fs[..i])|);
      var again;
      ghost var gs;
      again, gs := FragmentIpv4(cut.fragments[i], second);
      if !again.Pieces? { return None, read; }
      AllReadAsJoins(result, Flatten(pieces), again.fragments, gs, second);
      FlattenSnoc(pieces, gs);
      result, pieces := result + again.fragments, pieces + [gs];
    }
    RefragmentingIsFragmenting(fs, pieces, Read(packet));
    read := Flatten(pieces);
    r := Some(result);
  }
}
