/** The ICMP "fragmentation needed" answer to a packet that may not be cut. */
module IcmpReply {
  import opened Bytes
  import opened Policy
  import opened Checksum
  import opened Ipv4Options
  import opened Ipv4
  import opened Tunnels

  const CLASS_D: nat := 0xe000_0000
  const ICMP: byte := 1

  /** Errors are never answered with errors. */
  predicate IsIcmpError(packet: seq<byte>)
    requires HasHeader(packet)
  {
    packet[9] == ICMP && |packet| > HeaderSize(packet) && packet[HeaderSize(packet)] in {3, 4, 5, 11, 12}
  }

  predicate Answerable(packet: seq<byte>, router: u32)
    requires Inspect(packet).Success?
  {
    var h := Inspect(packet).value;
    && h.dontFragment && h.offset == 0 && 0 < h.source < CLASS_D && h.destination < CLASS_D && 0 < router < CLASS_D
    && !IsIcmpError(packet)
  }

  /** The header and the first eight octets behind it. */
  function Quote(packet: seq<byte>): (q: seq<byte>)
    requires HasHeader(packet)
    ensures 20 <= |q| <= 68
  {
    packet[..if |packet| < HeaderSize(packet) + 8 then |packet| else HeaderSize(packet) + 8]
  }

  function Message(packet: seq<byte>, mtu: nat): (m: seq<byte>)
    requires HasHeader(packet) && mtu < 0x1_0000
  {
    [3, 4, 0, 0, 0, 0] + Be16(mtu) + Quote(packet)
  }

  function Sealed(m: seq<byte>): (r: seq<byte>)
    requires |m| >= 4
  {
    Put16(m, 2, InternetChecksum(m))
  }

  /** A packet that is not valid is an error, one that may not be answered gets nothing. */
  function FragmentationNeeded(packet: seq<byte>, router: u32, mtu: nat): (r: Result<Option<seq<byte>>>)
    requires mtu < 0x1_0000
  {
    if Inspect(packet).Failure? then Failure
    else if !Answerable(packet, router) then Success(None)
    else
      var m := Sealed(Message(packet, mtu));
      var p := PlainHeader(20 + |m|, ICMP, router, U32(packet, 12)) + m;
      if HasHeader(p) then Success(Some(WithChecksum(p))) else Success(None)
  }

  lemma SealedReply(m: seq<byte>, router: u32, source: u32)
    requires 28 <= |m| <= 76
    ensures var p := PlainHeader(20 + |m|, ICMP, router, source) + m;
      && HasHeader(p) && HeaderSize(p) == 20
      && var r := WithChecksum(p);
         && Inspect(r) == Success(Header(20, router, source, 0, false, false)) && r[8] == 64 && r[9] == 1 && r[20..] == m
  {
    hide PlainHeader, InternetChecksum, WithChecksum;
    var h := PlainHeader(20 + |m|, ICMP, router, source);
    PlainFields(20 + |m|, ICMP, router, source);
    var p := h + m;
    assert p[0] == h[0] && HeaderSize(p) == 20;
    UpdatedHeaderVerifies(p);
    var r := WithChecksum(p);
    assert forall i :: 0 <= i < |p| && i != 10 && i != 11 ==> r[i] == p[i];
    assert r[20..] == m;
    assert Options(r) == [];
    assert CopiedOptions([]).Success?;
  }

  /**
    * An answer is a valid packet from the router to the sender whose ICMP checksum
    * verifies, carries the MTU and quotes the packet; and it is never answered itself.
    */
  lemma ReplyIsValid(packet: seq<byte>, router: u32, mtu: nat)
    requires mtu < 0x1_0000 && Inspect(packet).Success?
    ensures Answerable(packet, router) <==> FragmentationNeeded(packet, router, mtu).value.Some?
    ensures Answerable(packet, router) ==>
      var r := FragmentationNeeded(packet, router, mtu).value.value;
      && Inspect(r) == Success(Header(20, router, U32(packet, 12), 0, false, false))
      && r[8] == 64 && r[9] == 1 && r[20] == 3 && r[21] == 4
      && InternetChecksum(r[20..]) == 0 && U16(r, 26) == mtu && r[28..] == Quote(packet)
      && forall other: u32 :: FragmentationNeeded(r, other, mtu) == Success(None)
  {
    assert HasHeader(packet);
    hide Inspect, InternetChecksum, WithChecksum, PlainHeader;
    var plain := Message(packet, mtu);
    var m := Sealed(plain);
    MessageFields(packet, mtu);
    WrittenChecksumVerifies(plain, 2);
    SealedReply(m, router, U32(packet, 12));
    if Answerable(packet, router) {
      var r := FragmentationNeeded(packet, router, mtu).value.value;
      assert r[20] == r[20..][0] && r[21] == r[20..][1];
      assert r[28..] == r[20..][8..] && U16(r, 26) == U16(r[20..], 6);
    }
  }

  lemma MessageFields(packet: seq<byte>, mtu: nat)
    requires HasHeader(packet) && mtu < 0x1_0000
    ensures var m := Message(packet, mtu);
      && 28 <= |m| <= 76 && Sealed(m)[0] == 3 && Sealed(m)[1] == 4 && U16(m, 2) == 0 && U16(Sealed(m), 6) == mtu && Sealed(m)[8..] == Quote(packet)
  {
    hide InternetChecksum;
    var m := Message(packet, mtu);
    assert m[8..] == Quote(packet);
    assert Sealed(m)[8..] == m[8..];
  }

  /** Which valid packets are answered: whole or first fragments that must not be cut, between real hosts, that are not errors themselves. */
  lemma AnsweredExactly(p: seq<byte>, router: u32, mtu: nat)
    requires mtu < 0x1_0000 && Inspect(p).Success?
    ensures FragmentationNeeded(p, router, mtu).value.Some? <==>
      && U16(p, 6) >= 0x4000 && U16(p, 6) % 0x2000 == 0
      && 0 < U32(p, 12) < 0xe000_0000 && U32(p, 16) < 0xe000_0000 && 0 < router < 0xe000_0000
      && var h := (p[0] as int - 0x40) * 4;
         !(p[9] == 1 && |p| > h && (p[h] == 3 || p[h] == 4 || p[h] == 5 || p[h] == 11 || p[h] == 12))
  {
    InspectedExactly(p);
    ReplyIsValid(p, router, mtu);
    assert HasHeader(p) && HeaderSize(p) == (p[0] as int - 0x40) * 4;
    hide Inspect, FragmentationNeeded;
  }

  /** `ipv4_fragmentation_needed`: a header and a message, each with its own checksum. */
  method BuildReply(original: seq<byte>, router: u32, mtu: nat) returns (r: Result<Option<seq<byte>>>)
    requires mtu < 0x1_0000
    ensures r == FragmentationNeeded(original, router, mtu)
  {
    var info := InspectIpv4(original);
    if info.Failure? {
      return Failure;
    }
    if !Answerable(original, router) {
      return Success(None);
    }
    MessageFields(original, mtu);
    hide Inspect, InternetChecksum, WithChecksum, PlainHeader, Answerable;
    var plain := [3, 4, 0, 0, 0, 0] + Be16(mtu) + Quote(original);
    var sum := ComputeChecksum(plain);
    var m := Put16(plain, 2, sum);
    var header := new byte[20](_ => 0);
    FillPlain(header, 20 + |m|, ICMP, router, info.value.source);
    var whole := header[..] + m;
    SealedReply(m, router, info.value.source);
    var packet := new byte[|whole|](i requires 0 <= i < |whole| => whole[i]);
    assert packet[..] == whole;
    var _ := UpdateChecksum(packet);
    r := Success(Some(packet[..]));
  }
}
