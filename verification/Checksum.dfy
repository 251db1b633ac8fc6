/** The internet checksum of RFC 1071 and its in-place update in an IPv4 header. */
module Checksum {
  import opened Bytes

  /** The sum of the big-endian 16-bit words, an odd last octet counting as a high octet. */
  function WordSum(s: seq<byte>): (sum: nat)
    ensures sum <= 0xffff * ((|s| + 1) / 2)
  {
    if s == [] then 0
    else if |s| == 1 then s[0] as int * 256
    else U16(s, 0) + WordSum(s[2..])
  }

  /** End-around carry until 16 bits are left. */
  function Fold(sum: nat): (f: nat)
    ensures f < 0x1_0000
  {
    if sum < 0x1_0000 then sum else Fold(sum % 0x1_0000 + sum / 0x1_0000)
  }

  function InternetChecksum(s: seq<byte>): (c: nat)
    ensures c < 0x1_0000
  {
    0xffff - Fold(WordSum(s))
  }

  /** Folding is the remainder mod 65535, with 65535 rather than 0 for a non-zero sum. */
  lemma {:induction false} FoldIsRemainder(sum: nat)
    ensures Fold(sum) == if sum == 0 then 0 else (sum - 1) % 0xffff + 1
    decreases sum
  {
    if sum >= 0x1_0000 {
      FoldIsRemainder(sum % 0x1_0000 + sum / 0x1_0000);
    }
  }

  /** Checksum 0 means that the words, complement included, add up to a non-zero multiple of 65535. */
  lemma ChecksumIsZeroExactly(s: seq<byte>)
    ensures InternetChecksum(s) == 0 <==> WordSum(s) > 0 && WordSum(s) % 0xffff == 0
  {
    hide WordSum, Fold;
    FoldIsRemainder(WordSum(s));
    if WordSum(s) > 0 {
      MultipleOf65535(WordSum(s));
    }
  }

  lemma MultipleOf65535(sum: nat)
    requires sum > 0
    ensures (sum - 1) % 0xffff == 0xfffe <==> sum % 0xffff == 0
  {
  }

  lemma {:induction false} WordSumPut(s: seq<byte>, at: nat, v: nat)
    requires at % 2 == 0 && at + 2 <= |s| && v < 0x1_0000
    ensures WordSum(Put16(s, at, v)) == WordSum(s) - U16(s, at) + v
    decreases at
  {
    var r := Put16(s, at, v);
    if at == 0 {
      assert r[2..] == s[2..];
    } else {
      assert r[2..] == Put16(s[2..], at - 2, v);
      WordSumPut(s[2..], at - 2, v);
      assert U16(s[2..], at - 2) == U16(s, at);
    }
  }

  lemma {:induction false} WordSumSnoc(s: seq<byte>, i: nat)
    requires i % 2 == 0 && i < |s|
    ensures WordSum(s[..if i + 2 <= |s| then i + 2 else |s|]) ==
            WordSum(s[..i]) + if i + 2 <= |s| then U16(s, i) else s[i] as int * 256
    decreases i
  {
    var end := if i + 2 <= |s| then i + 2 else |s|;
    if i == 0 {
      assert s[..end][2 * (end / 2)..] == if end == 2 then [] else [s[0]];
    } else {
      WordSumSnoc(s[2..], i - 2);
      assert s[..end][2..] == s[2..][..end - 2];
      assert s[..i][2..] == s[2..][..i - 2];
    }
  }

  lemma EmptySum()
    ensures WordSum([]) == 0
  {
  }

  /** The first loop of `internet_checksum`, in the source's 32-bit accumulator. */
  method SumWords(s: seq<byte>) returns (sum: nat)
    ensures |s| <= 0x2_0000 ==> sum == WordSum(s)
    ensures sum < 0x1_0000_0000
  {
    hide WordSum;
    sum := 0;
    var i := 0;
    EmptySum();
    while i < |s|
      invariant i % 2 == 0 && i <= |s| + 1
      invariant 0 <= sum < 0x1_0000_0000
      invariant |s| <= 0x2_0000 ==> sum == WordSum(s[..if i <= |s| then i else |s|])
    {
      WordSumSnoc(s, i);
      var word := s[i] as int * 256 + if i + 1 < |s| then s[i + 1] as int else 0;
      assert i + 1 < |s| ==> word == U16(s, i);
      sum := (sum + word) % 0x1_0000_0000;
      i := i + 2;
    }
    assert s[..|s|] == s;
  }

  /** The second loop: carries are added back until none is left. */
  method FoldCarries(total: nat) returns (sum: nat)
    ensures sum == Fold(total)
  {
    sum := total;
    while sum >= 0x1_0000
      invariant Fold(sum) == Fold(total)
    {
      sum := sum % 0x1_0000 + sum / 0x1_0000;
    }
  }

  method ComputeChecksum(s: seq<byte>) returns (c: nat)
    ensures c < 0x1_0000
    ensures |s| <= 0x2_0000 ==> c == InternetChecksum(s)
  {
    var total := SumWords(s);
    var sum := FoldCarries(total);
    c := 0xffff - sum;
  }

  function HeaderSize(packet: seq<byte>): (n: nat)
    requires packet != []
    ensures n <= 60
  {
    packet[0] as int % 16 * 4
  }

  predicate HasHeader(packet: seq<byte>)
  {
    |packet| >= 20 && 20 <= HeaderSize(packet) <= |packet|
  }

  /** The packet with its header checksum field replaced by the checksum of the header. */
  function WithChecksum(packet: seq<byte>): (r: seq<byte>)
    requires HasHeader(packet)
    ensures |r| == |packet| && forall i :: 0 <= i < |packet| && i != 10 && i != 11 ==> r[i] == packet[i]
  {
    var cleared := Put16(packet, 10, 0);
    Put16(cleared, 10, InternetChecksum(cleared[..HeaderSize(packet)]))
  }

  lemma ComplementCompletes(sum: nat)
    ensures sum + 0xffff - Fold(sum) > 0 && (sum + 0xffff - Fold(sum)) % 0xffff == 0
  {
    hide Fold;
    FoldIsRemainder(sum);
    if sum > 0 {
      var q, r := (sum - 1) / 0xffff, (sum - 1) % 0xffff;
      assert sum + 0xffff - (r + 1) == (q + 1) * 0xffff;
    }
  }

  /** A checksum written into its own zeroed field makes the whole verify, whatever it holds. */
  lemma WrittenChecksumVerifies(s: seq<byte>, at: nat)
    requires at % 2 == 0 && at + 2 <= |s| && U16(s, at) == 0
    ensures InternetChecksum(Put16(s, at, InternetChecksum(s))) == 0
  {
    var c := InternetChecksum(s);
    WordSumPut(s, at, c);
    ComplementCompletes(WordSum(s));
    ChecksumIsZeroExactly(Put16(s, at, c));
  }

  /** An updated header verifies, whatever it holds. */
  lemma UpdatedHeaderVerifies(packet: seq<byte>)
    requires HasHeader(packet)
    ensures InternetChecksum(WithChecksum(packet)[..HeaderSize(packet)]) == 0
  {
    var n := HeaderSize(packet);
    var head := Put16(packet, 10, 0)[..n];
    assert WithChecksum(packet)[..n] == Put16(head, 10, InternetChecksum(head));
    assert U16(head, 10) == 0;
    WrittenChecksumVerifies(head, 10);
  }

  /** `update_ipv4_checksum`, in place; refuses a buffer without a whole header. */
  method UpdateChecksum(packet: array<byte>) returns (ok: bool)
    modifies packet
    ensures ok <==> HasHeader(old(packet[..]))
    ensures ok ==> packet[..] == WithChecksum(old(packet[..]))
    ensures !ok ==> packet[..] == old(packet[..])
  {
    if packet.Length < 20 { return false; }
    var header := packet[0] as int % 16 * 4;
    if header < 20 || header > packet.Length { return false; }
    packet[10], packet[11] := 0, 0;
    assert packet[..] == Put16(old(packet[..]), 10, 0);
    var c := ComputeChecksum(packet[..header]);
    assert packet[..header] == packet[..][..header];
    packet[10], packet[11] := c / 256, c % 256;
    ok := true;
  }
}
