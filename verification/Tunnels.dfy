/** The two encapsulations: Ethernet frames in UDP between adapters, and routed IPv4 in IPv4 to a gateway. */
module Tunnels {
  import opened Arithmetic
  import opened Bytes
  import opened Policy
  import opened Ipv4Fanout
  import opened Checksum
  import opened Ipv4Options
  import opened Ipv4

  datatype Adapter = Adapter(address: u32, subnet: u32, prefix: byte)

  const MTU: nat := 1280
  const TUNNEL_HEADER: nat := 32
  const TUNNEL_PORT: nat := 48042
  const ARP: nat := 0x0806
  const IPV4: nat := 0x0800

  function VirtualMac(a: u32): (m: seq<byte>)
    ensures |m| == 6
  {
    [2, 0x4c] + Be32(a)
  }

  function MulticastMac(a: u32): (m: seq<byte>)
  {
    [1, 0, 0x5e, a / 0x1_0000 % 0x80, a / 0x100 % 0x100, a % 0x100]
  }

  // ---- Ethernet frames ----

  /** The ARP target, or the IPv4 destination, of a frame that really comes from `sender`. */
  function TargetOf(frame: seq<byte>, subnet: u32, prefix: byte, sender: u32): (r: Result<u32>)
    requires |frame| >= 14
  {
    var kind := U16(frame, 12);
    if kind == ARP then
      if |frame| < 42 || U16(frame, 14) != 1 || U16(frame, 16) != IPV4 || frame[18] != 6 || frame[19] != 4
         || (U16(frame, 20) != 1 && U16(frame, 20) != 2) || frame[22..28] != VirtualMac(sender) || U32(frame, 28) != sender
         || !IsHost(U32(frame, 38), subnet, prefix)
      then Failure else Success(U32(frame, 38))
    else if kind == IPV4 then
      if |frame| < 34 || U16(frame, 16) < 20 || U16(frame, 16) > |frame| - 14 then Failure
      else
        var ip := frame[14..14 + U16(frame, 16)];
        if Inspect(ip).Failure? || U32(ip, 12) != sender then Failure
        else if !IsHost(U32(ip, 16), subnet, prefix) && !IsFanout(U32(ip, 16), subnet, prefix) then Failure
        else Success(U32(ip, 16))
    else Failure
  }

  /** Where a valid frame goes: one address of the subnet, or everyone. */
  function ValidateFrame(frame: seq<byte>, subnet: u32, prefix: byte, sender: u32): (r: Result<u32>)
  {
    if |frame| < 14 || |frame| > MTU + 14 || !IsHost(sender, subnet, prefix) || frame[6..12] != VirtualMac(sender) then Failure
    else
      var target := TargetOf(frame, subnet, prefix, sender);
      var destination := U32(frame, 2);
      if target.Failure? then Failure
      else if frame[..6] == [255, 255, 255, 255, 255, 255] then Success(EVERYONE)
      else if U16(frame, 12) == IPV4 && IsScopedMulticast(target.value) && frame[..6] == MulticastMac(target.value) then Success(EVERYONE)
      else if !IsHost(destination, subnet, prefix) || frame[..6] != VirtualMac(destination) || destination != target.value then Failure
      else Success(destination)
  }

  /** The header in front of a tunnelled frame, before its checksum. */
  function TunnelHeader(size: nat, source: u32, target: u32): (h: seq<byte>)
    requires 20 <= size < 0x1_0000
    ensures |h| == TUNNEL_HEADER
  {
    [0x45, 0] + Be16(size) + [0, 0, 0x40, 0, 64, 17, 0, 0] + Be32(source) + Be32(target)
    + Be16(TUNNEL_PORT) + Be16(TUNNEL_PORT) + Be16(size - 20) + [0, 0, 76, 76, 50, 1]
  }

  function Tunnelled(frame: seq<byte>, source: u32, target: u32): (p: seq<byte>)
    requires |frame| <= MTU + 14
  {
    var p := TunnelHeader(TUNNEL_HEADER + |frame|, source, target) + frame;
    if HasHeader(p) then WithChecksum(p) else p
  }

  function EncapsulateEthernet(frame: seq<byte>, own: Adapter): (r: Result<seq<byte>>)
  {
    if !IsHost(own.address, own.subnet, own.prefix) then Failure
    else
      var target := ValidateFrame(frame, own.subnet, own.prefix, own.address);
      if target.Failure? then Failure else Success(Tunnelled(frame, own.address, target.value))
  }

  predicate TunnelShape(p: seq<byte>)
  {
    && TUNNEL_HEADER + 14 <= |p| <= TUNNEL_HEADER + MTU + 14 && p[0] == 0x45 && p[9] == 17
    && U16(p, 6) % 0x4000 == 0 && U16(p, 20) == TUNNEL_PORT && U16(p, 22) == TUNNEL_PORT
    && U16(p, 24) == |p| - 20 && U16(p, 26) == 0 && p[28] == 76 && p[29] == 76 && p[30] == 50 && p[31] == 1
  }

  function DecapsulateEthernet(p: seq<byte>, own: Adapter): (r: Result<seq<byte>>)
  {
    if !IsHost(own.address, own.subnet, own.prefix) || !TunnelShape(p) || Inspect(p).Failure? then Failure
    else
      var frame := p[TUNNEL_HEADER..];
      var target := ValidateFrame(frame, own.subnet, own.prefix, U32(p, 12));
      if target.Failure? || U32(p, 16) != target.value || (target.value != EVERYONE && target.value != own.address) then Failure
      else Success(frame)
  }

  // ---- Round trip ----

  lemma Fields(size: nat, source: u32, target: u32)
    requires 20 <= size < 0x1_0000
    ensures var h := TunnelHeader(size, source, target);
      && h[0] == 0x45 && h[8] == 64 && h[9] == 17 && U16(h, 2) == size && U16(h, 6) == 0x4000
      && U32(h, 12) == source && U32(h, 16) == target && U16(h, 20) == TUNNEL_PORT && U16(h, 22) == TUNNEL_PORT
      && U16(h, 24) == size - 20 && U16(h, 26) == 0 && h[28] == 76 && h[29] == 76 && h[30] == 50 && h[31] == 1
  {
  }

  lemma TunnelledFields(frame: seq<byte>, source: u32, target: u32)
    requires 14 <= |frame| <= MTU + 14
    ensures var p := Tunnelled(frame, source, target);
      && |p| == TUNNEL_HEADER + |frame| && p[TUNNEL_HEADER..] == frame
      && p[0] == 0x45 && p[8] == 64 && p[9] == 17 && U16(p, 2) == |p| && U16(p, 6) == 0x4000
      && U32(p, 12) == source && U32(p, 16) == target && TunnelShape(p)
      && HasHeader(p) && InternetChecksum(p[..20]) == 0
  {
    hide TunnelHeader, InternetChecksum;
    var size := TUNNEL_HEADER + |frame|;
    Fields(size, source, target);
    var h := TunnelHeader(size, source, target);
    var raw := h + frame;
    assert raw[0] == h[0];
    assert HeaderSize(raw) == 20;
    UpdatedHeaderVerifies(raw);
    var p := Tunnelled(frame, source, target);
    assert forall i :: 0 <= i < |p| && i != 10 && i != 11 ==> p[i] == raw[i];
    assert p[TUNNEL_HEADER..] == frame;
  }

  lemma TunnelledIsAccepted(frame: seq<byte>, source: u32, target: u32)
    requires 14 <= |frame| <= MTU + 14
    ensures Inspect(Tunnelled(frame, source, target)).Success?
  {
    hide Tunnelled, InternetChecksum;
    TunnelledFields(frame, source, target);
    var p := Tunnelled(frame, source, target);
    assert Options(p) == [];
    assert CopiedOptions([]).Success?;
  }

  /**
    * Every frame an adapter accepts comes out unchanged at its target, or at
    * every host of the subnet when it is for everyone, and nowhere else.
    */
  lemma EthernetRoundTrip(frame: seq<byte>, from: Adapter, to: Adapter)
    requires EncapsulateEthernet(frame, from).Success?
    requires to.subnet == from.subnet && to.prefix == from.prefix && IsHost(to.address, to.subnet, to.prefix)
    ensures var target := ValidateFrame(frame, from.subnet, from.prefix, from.address).value;
      DecapsulateEthernet(EncapsulateEthernet(frame, from).value, to) ==
        if target == EVERYONE || target == to.address then Success(frame) else Failure
  {
    var target := ValidateFrame(frame, from.subnet, from.prefix, from.address).value;
    assert 14 <= |frame| <= MTU + 14;
    hide ValidateFrame, Tunnelled, Inspect, IsHost;
    TunnelledFields(frame, from.address, target);
    TunnelledIsAccepted(frame, from.address, target);
  }

  /** A frame that comes out was one its sender could have sent, from the address and to the target the packet names. */
  lemma DecapsulatedWasValid(p: seq<byte>, to: Adapter)
    requires DecapsulateEthernet(p, to).Success?
    ensures var frame, from := DecapsulateEthernet(p, to).value, Adapter(U32(p, 12), to.subnet, to.prefix);
      && ValidateFrame(frame, to.subnet, to.prefix, from.address) == Success(U32(p, 16))
      && frame[6..12] == VirtualMac(from.address)
      && EncapsulateEthernet(frame, from).Success?
      && DecapsulateEthernet(EncapsulateEthernet(frame, from).value, to) == Success(frame)
  {
    var frame, from := DecapsulateEthernet(p, to).value, Adapter(U32(p, 12), to.subnet, to.prefix);
    SenderIsHost(frame, to.subnet, to.prefix, from.address);
    hide ValidateFrame, Tunnelled, Inspect, IsHost, TunnelShape;
    EthernetRoundTrip(frame, from, to);
  }

  lemma SenderIsHost(frame: seq<byte>, subnet: u32, prefix: byte, sender: u32)
    requires ValidateFrame(frame, subnet, prefix, sender).Success?
    ensures |frame| >= 14 && IsHost(sender, subnet, prefix) && frame[6..12] == VirtualMac(sender)
  {
    hide TargetOf;
  }

  lemma WordOctets(v: nat)
    requires v < 0x1_0000_0000
    ensures Be32(v) == [v / 0x100_0000, v / 0x1_0000 % 256, v / 256 % 256, v % 256]
  {
    var high, low := v / 0x1_0000, v % 0x1_0000;
    assert v == high * 0x1_0000 + low;
    assert high / 256 == v / 0x100_0000;
    LowOctets(high, low);
  }

  lemma LowOctets(high: nat, low: nat)
    requires low < 0x1_0000
    ensures (high * 0x1_0000 + low) / 256 % 256 == low / 256 && (high * 0x1_0000 + low) % 256 == low % 256
  {
    var v := high * 0x1_0000 + low;
    assert v == (high * 256 + low / 256) * 256 + low % 256;
    DivisionIsUnique(v, 256, high * 256 + low / 256, low % 256);
    DivisionIsUnique(v / 256, 256, high, low / 256);
  }

  lemma HalfWordOctets(v: nat)
    requires v < 0x1_0000
    ensures Be16(v) == [v / 256 % 256, v % 256]
  {
  }

  /** `put`: a big-endian integer in place. */
  /** What the source checks of an address inside a frame, on the octets of the frame. */
  predicate NamesSender(frame: seq<byte>, sender: u32)
    requires |frame| >= 34
  {
    if U16(frame, 12) == 0x0806 then |frame| >= 42 && U32(frame, 28) == sender && frame[22..28] == [2, 0x4c] + Be32(sender)
    else U16(frame, 12) == 0x0800 && U32(frame, 26) == sender
  }

  /** The address a frame is for: the ARP target or the IPv4 destination. */
  function Inner(frame: seq<byte>): (a: u32)
    requires |frame| >= 42 || (|frame| >= 34 && U16(frame, 12) != 0x0806)
  {
    if U16(frame, 12) == 0x0806 then U32(frame, 38) else U32(frame, 30)
  }

  lemma InnerAddresses(frame: seq<byte>, length: nat)
    requires 20 <= length <= |frame| - 14
    ensures var ip := frame[14..14 + length]; U32(ip, 12) == U32(frame, 26) && U32(ip, 16) == U32(frame, 30)
  {
    var ip := frame[14..14 + length];
    assert forall i :: 0 <= i < length ==> ip[i] == frame[14 + i];
    assert ip[12] == frame[26] && ip[13] == frame[27] && ip[14] == frame[28] && ip[15] == frame[29];
    assert ip[16] == frame[30] && ip[17] == frame[31] && ip[18] == frame[32] && ip[19] == frame[33];
  }

  lemma TargetIsInner(frame: seq<byte>, subnet: u32, prefix: byte, sender: u32)
    requires |frame| >= 14 && TargetOf(frame, subnet, prefix, sender).Success?
    ensures |frame| >= 34 && NamesSender(frame, sender) && TargetOf(frame, subnet, prefix, sender).value == Inner(frame)
    ensures U16(frame, 12) == 0x0806 ==> IsHost(Inner(frame), subnet, prefix)
    ensures U16(frame, 12) == 0x0800 ==> IsHost(Inner(frame), subnet, prefix) || IsFanout(Inner(frame), subnet, prefix)
  {
    hide Inspect, IsHost, IsFanout;
    if U16(frame, 12) == IPV4 {
      InnerAddresses(frame, U16(frame, 16));
    }
  }

  /**
    * An accepted frame comes from the sender at every level: its hardware source,
    * and the IPv4 source or the ARP sender inside it. It goes to everyone exactly
    * when its hardware destination is broadcast or the group's own, and otherwise
    * to the one host named both by its hardware destination and inside it.
    */
  lemma FrameIsFromSender(frame: seq<byte>, subnet: u32, prefix: byte, sender: u32)
    requires ValidateFrame(frame, subnet, prefix, sender).Success?
    ensures 34 <= |frame| <= 1294 && frame[6..12] == [2, 0x4c] + Be32(sender) && IsHost(sender, subnet, prefix) && NamesSender(frame, sender)
    ensures var target, g := ValidateFrame(frame, subnet, prefix, sender).value, Inner(frame);
      && (target == 0xffff_ffff <==>
            || frame[..6] == [255, 255, 255, 255, 255, 255]
            || (U16(frame, 12) == 0x0800 && IsScopedMulticast(g) && frame[..6] == [1, 0, 0x5e, g / 0x1_0000 % 0x80, g / 0x100 % 0x100, g % 0x100]))
      && (target != 0xffff_ffff ==> target == g && IsHost(target, subnet, prefix) && frame[..6] == [2, 0x4c] + Be32(target))
  {
    hide TargetOf, Be32;
    TargetIsInner(frame, subnet, prefix, sender);
    HostIsNotEveryone(U32(frame, 2), subnet, prefix);
  }

  predicate ArpFits(frame: seq<byte>, subnet: u32, prefix: byte, sender: u32)
    requires |frame| >= 14
  {
    && |frame| >= 42 && frame[14..20] == [0, 1, 8, 0, 6, 4] && frame[20] == 0 && (frame[21] == 1 || frame[21] == 2)
    && frame[22..28] == [2, 0x4c] + Be32(sender) && U32(frame, 28) == sender && IsHost(U32(frame, 38), subnet, prefix)
  }

  predicate Ipv4Fits(frame: seq<byte>, subnet: u32, prefix: byte, sender: u32)
    requires |frame| >= 14
  {
    && |frame| >= 34 && 20 <= U16(frame, 16) <= |frame| - 14 && Inspect(frame[14..14 + U16(frame, 16)]).Success?
    && U32(frame, 26) == sender && (IsHost(U32(frame, 30), subnet, prefix) || IsFanout(U32(frame, 30), subnet, prefix))
  }

  lemma TargetExactly(frame: seq<byte>, subnet: u32, prefix: byte, sender: u32)
    requires |frame| >= 14
    ensures TargetOf(frame, subnet, prefix, sender).Success? <==>
      if U16(frame, 12) == 0x0806 then ArpFits(frame, subnet, prefix, sender) else U16(frame, 12) == 0x0800 && Ipv4Fits(frame, subnet, prefix, sender)
  {
    hide Inspect, IsHost, IsFanout;
    if U16(frame, 12) == IPV4 && |frame| >= 34 && 20 <= U16(frame, 16) <= |frame| - 14 {
      InnerAddresses(frame, U16(frame, 16));
    }
    if |frame| >= 42 {
      assert frame[14..20] == [frame[14], frame[15], frame[16], frame[17], frame[18], frame[19]];
    }
  }

  /** Which frames an adapter accepts, on their octets. */
  lemma FrameAcceptedExactly(frame: seq<byte>, subnet: u32, prefix: byte, sender: u32)
    ensures ValidateFrame(frame, subnet, prefix, sender).Success? <==>
      && 14 <= |frame| <= 1294 && IsHost(sender, subnet, prefix) && frame[6..12] == [2, 0x4c] + Be32(sender)
      && (if U16(frame, 12) == 0x0806 then ArpFits(frame, subnet, prefix, sender)
          else U16(frame, 12) == 0x0800 && Ipv4Fits(frame, subnet, prefix, sender))
      && var g := Inner(frame);
         || frame[..6] == [255, 255, 255, 255, 255, 255]
         || (U16(frame, 12) == 0x0800 && IsScopedMulticast(g) && frame[..6] == [1, 0, 0x5e, g / 0x1_0000 % 0x80, g / 0x100 % 0x100, g % 0x100])
         || (IsHost(g, subnet, prefix) && frame[..6] == [2, 0x4c] + Be32(g))
  {
    hide TargetOf, IsHost, Be32, IsScopedMulticast;
    if |frame| >= 14 {
      TargetExactly(frame, subnet, prefix, sender);
      if TargetOf(frame, subnet, prefix, sender).Success? {
        TargetIsInner(frame, subnet, prefix, sender);
        MacNames(frame, Inner(frame));
      }
    }
  }

  /** A hardware address names one address. */
  lemma MacNames(frame: seq<byte>, a: u32)
    requires |frame| >= 14
    ensures frame[..6] == [2, 0x4c] + Be32(a) <==> frame[..6] == [2, 0x4c] + Be32(U32(frame, 2)) && U32(frame, 2) == a
  {
    WordOctets(a);
    WordOctets(U32(frame, 2));
    if frame[..6] == [2, 0x4c] + Be32(a) {
      assert frame[..6][2] == frame[2] == Be32(a)[0] && frame[..6][3] == frame[3] == Be32(a)[1];
      assert frame[..6][4] == frame[4] == Be32(a)[2] && frame[..6][5] == frame[5] == Be32(a)[3];
      hide Be32;
      FromOctets(a);
    }
  }

  lemma FromOctets(v: u32)
    ensures v == (v / 0x100_0000) * 0x100_0000 + (v / 0x1_0000 % 256) * 0x1_0000 + (v / 256 % 256) * 256 + v % 256
  {
    var a: nat := v / 256;
    var b: nat := a / 256;
    var c: nat := b / 256;
    assert v == 256 * a + v % 256 && a == 256 * b + a % 256 && b == 256 * c + b % 256;
    assert v / 0x1_0000 == b && v / 0x100_0000 == c;
  }

  lemma HostIsNotEveryone(a: u32, subnet: u32, prefix: byte)
    ensures IsHost(a, subnet, prefix) ==> a != 0xffff_ffff
  {
  }

  method PutWord(packet: array<byte>, at: nat, value: nat)
    requires at + 4 <= packet.Length && value < 0x1_0000_0000
    modifies packet
    ensures packet[at..at + 4] == Be32(value)
    ensures forall i :: 0 <= i < packet.Length && !(at <= i < at + 4) ==> packet[i] == old(packet[i])
  {
    WordOctets(value);
    for i := 0 to 4
      invariant forall k :: 0 <= k < i ==> packet[at + k] == Be32(value)[k]
      invariant forall k :: 0 <= k < packet.Length && !(at <= k < at + i) ==> packet[k] == old(packet[k])
    {
      packet[at + i] := if i == 0 then value / 0x100_0000 else if i == 1 then value / 0x1_0000 % 256
                        else if i == 2 then value / 256 % 256 else value % 256;
    }
  }

  method PutHalfWord(packet: array<byte>, at: nat, value: nat)
    requires at + 2 <= packet.Length && value < 0x1_0000
    modifies packet
    ensures packet[at..at + 2] == Be16(value)
    ensures forall i :: 0 <= i < packet.Length && !(at <= i < at + 2) ==> packet[i] == old(packet[i])
  {
    HalfWordOctets(value);
    packet[at] := value / 256 % 256;
    packet[at + 1] := value % 256;
  }

  /** `encapsulate_ethernet`: a zeroed buffer, filled field by field. */
  method EncapsulateFrame(frame: seq<byte>, own: Adapter) returns (r: Result<seq<byte>>)
    ensures r == EncapsulateEthernet(frame, own)
  {
    if !IsHost(own.address, own.subnet, own.prefix) {
      return Failure;
    }
    var target := ValidateFrame(frame, own.subnet, own.prefix, own.address);
    if target.Failure? {
      return Failure;
    }
    FrameSize(frame, own);
    var packet := FillTunnel(frame, own.address, target.value);
    hide ValidateFrame, IsHost;
    r := Success(packet);
  }

  lemma FrameSize(frame: seq<byte>, own: Adapter)
    requires ValidateFrame(frame, own.subnet, own.prefix, own.address).Success?
    ensures 14 <= |frame| <= MTU + 14
  {
  }

  method FillTunnel(frame: seq<byte>, source: u32, target: u32) returns (r: seq<byte>)
    requires 14 <= |frame| <= MTU + 14
    ensures r == Tunnelled(frame, source, target)
  {
    hide WithChecksum, TunnelHeader;
    var size := TUNNEL_HEADER + |frame|;
    var packet := new byte[size](_ => 0);
    FillHeader(packet, source, target);
    forall i | 0 <= i < |frame| {
      packet[TUNNEL_HEADER + i] := frame[i];
    }
    assert packet[..TUNNEL_HEADER] == TunnelHeader(size, source, target);
    assert packet[..] == TunnelHeader(size, source, target) + frame;
    Fields(size, source, target);
    var _ := UpdateChecksum(packet);
    r := packet[..];
  }

  method FillHeader(packet: array<byte>, source: u32, target: u32)
    requires TUNNEL_HEADER <= packet.Length < 0x1_0000 && forall i :: 0 <= i < TUNNEL_HEADER ==> packet[i] == 0
    modifies packet
    ensures packet[..TUNNEL_HEADER] == TunnelHeader(packet.Length, source, target)
  {
    hide Be16, Be32;
    var size := packet.Length;
    FillIpHeader(packet, source, target);
    PutNext(packet, 20, TUNNEL_PORT);
    PutNext(packet, 22, TUNNEL_PORT);
    PutNext(packet, 24, size - 20);
    label sized:
    packet[28], packet[29], packet[30], packet[31] := 76, 76, 50, 1;
    assert packet[..26] == old@sized(packet[..26]);
    assert packet[26..32] == [0, 0, 76, 76, 50, 1];
    assert packet[..32] == packet[..26] + packet[26..32];
  }

  method PutNext(packet: array<byte>, at: nat, value: nat)
    requires at + 2 <= packet.Length && value < 0x1_0000
    modifies packet
    ensures packet[..at + 2] == old(packet[..at]) + Be16(value)
    ensures forall i :: at + 2 <= i < packet.Length ==> packet[i] == old(packet[i])
  {
    hide Be16;
    PutHalfWord(packet, at, value);
    assert packet[..at + 2] == packet[..at] + packet[at..at + 2];
  }

  method FillIpHeader(packet: array<byte>, source: u32, target: u32)
    requires TUNNEL_HEADER <= packet.Length < 0x1_0000 && forall i :: 0 <= i < 20 ==> packet[i] == 0
    modifies packet
    ensures packet[..20] == [0x45, 0] + Be16(packet.Length) + [0, 0, 0x40, 0, 64, 17, 0, 0] + Be32(source) + Be32(target)
    ensures forall i :: 20 <= i < packet.Length ==> packet[i] == old(packet[i])
  {
    hide Be16, Be32;
    packet[0] := 0x45;
    PutHalfWord(packet, 2, packet.Length);
    packet[6], packet[8], packet[9] := 0x40, 64, 17;
    PutWord(packet, 12, source);
    PutWord(packet, 16, target);
    assert packet[..2] == [0x45, 0];
    assert packet[2..4] == Be16(packet.Length);
    assert packet[4..12] == [0, 0, 0x40, 0, 64, 17, 0, 0];
    assert packet[12..16] == Be32(source);
    assert packet[..20] == packet[..2] + packet[2..4] + packet[4..12] + packet[12..16] + packet[16..20];
  }

  // ---- Routed IPv4 ----

  const MAX_INNER: nat := 65515
  const IP_IN_IP: byte := 4

  /** A plain header of twenty octets, before its checksum. */
  function PlainHeader(size: nat, protocol: byte, source: u32, destination: u32): (h: seq<byte>)
    requires size < 0x1_0000
    ensures |h| == 20 && HasHeader(h)
  {
    [0x45, 0] + Be16(size) + [0, 0, 0, 0, 64, protocol, 0, 0] + Be32(source) + Be32(destination)
  }

  /** A longer inner packet is refused, like one that is not valid. */
  function EncapsulateRouted(inner: seq<byte>, source: u32, destination: u32): (r: Result<seq<byte>>)
  {
    if Inspect(inner).Failure? || |inner| > MAX_INNER then Failure
    else Success(WithChecksum(PlainHeader(|inner| + 20, IP_IN_IP, source, destination)) + inner)
  }

  function DecapsulateRouted(outer: seq<byte>): (r: Result<seq<byte>>)
  {
    var h := Inspect(outer);
    if h.Failure? || outer[9] != 4 || h.value.size != 20 || h.value.offset != 0 || h.value.more then Failure
    else if Inspect(outer[20..]).Failure? then Failure
    else Success(outer[20..])
  }

  lemma PlainFields(size: nat, protocol: byte, source: u32, destination: u32)
    requires size < 0x1_0000
    ensures var h := PlainHeader(size, protocol, source, destination);
      h[0] == 0x45 && U16(h, 2) == size && U16(h, 6) == 0 && h[8] == 64 && h[9] == protocol && U32(h, 12) == source && U32(h, 16) == destination
  {
  }

  lemma OuterIsAccepted(inner: seq<byte>, source: u32, destination: u32)
    requires |inner| <= MAX_INNER
    ensures var outer := WithChecksum(PlainHeader(|inner| + 20, IP_IN_IP, source, destination)) + inner;
      && Inspect(outer) == Success(Header(20, source, destination, 0, false, false))
      && outer[9] == 4 && outer[20..] == inner
  {
    hide PlainHeader, InternetChecksum, WithChecksum;
    var h := PlainHeader(|inner| + 20, IP_IN_IP, source, destination);
    PlainFields(|inner| + 20, IP_IN_IP, source, destination);
    UpdatedHeaderVerifies(h);
    var c := WithChecksum(h);
    var outer := c + inner;
    assert forall i :: 0 <= i < 20 ==> outer[i] == c[i];
    assert outer[..20] == c == c[..20];
    assert Options(outer) == [];
    assert CopiedOptions([]).Success?;
  }

  /** Every valid inner packet that fits comes out of the tunnel unchanged; no other goes in. */
  lemma RoutedRoundTrip(inner: seq<byte>, source: u32, destination: u32)
    ensures EncapsulateRouted(inner, source, destination).Success? <==> Inspect(inner).Success? && |inner| <= MAX_INNER
    ensures EncapsulateRouted(inner, source, destination).Success? ==>
      DecapsulateRouted(EncapsulateRouted(inner, source, destination).value) == Success(inner)
  {
    hide Inspect, PlainHeader, WithChecksum;
    if |inner| <= MAX_INNER {
      OuterIsAccepted(inner, source, destination);
    }
  }

  /** What comes out of a tunnel is a valid packet that could have gone in. */
  lemma RoutedWasValid(outer: seq<byte>, source: u32, destination: u32)
    requires DecapsulateRouted(outer).Success?
    ensures EncapsulateRouted(DecapsulateRouted(outer).value, source, destination).Success?
  {
    hide PlainHeader, WithChecksum, InternetChecksum, CopiedOptions;
  }

  /** `encapsulate_routed_ipv4`: the header in a buffer, then the packet behind it. */
  method EncapsulateRoutedIpv4(inner: seq<byte>, source: u32, destination: u32) returns (r: Result<seq<byte>>)
    ensures r == EncapsulateRouted(inner, source, destination)
  {
    hide Inspect, WithChecksum;
    var h := InspectIpv4(inner);
    if h.Failure? || |inner| > MAX_INNER {
      return Failure;
    }
    var size := |inner| + 20;
    var outer := new byte[20](_ => 0);
    FillPlain(outer, size, IP_IN_IP, source, destination);
    var _ := UpdateChecksum(outer);
    r := Success(outer[..] + inner);
  }

  method FillPlain(outer: array<byte>, size: nat, protocol: byte, source: u32, destination: u32)
    requires outer.Length == 20 && size < 0x1_0000 && forall i :: 0 <= i < 20 ==> outer[i] == 0
    modifies outer
    ensures outer[..] == PlainHeader(size, protocol, source, destination)
  {
    hide Be16, Be32;
    outer[0] := 0x45;
    PutHalfWord(outer, 2, size);
    outer[8], outer[9] := 64, protocol;
    assert outer[2..4] == Be16(size);
    PutWord(outer, 12, source);
    label filled:
    PutWord(outer, 16, destination);
    assert outer[..2] == [0x45, 0];
    assert outer[2..4] == old@filled(outer[2..4]);
    assert outer[4..12] == [0, 0, 0, 0, 64, protocol, 0, 0];
    assert outer[12..16] == old@filled(outer[12..16]);
    assert outer[..] == outer[..2] + outer[2..4] + outer[4..12] + outer[12..16] + outer[16..20];
  }
}
