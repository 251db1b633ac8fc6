/** The wire format of control frames: encoding and decoding are inverse, and decoding is stable under more input. */
module FrameCodec {
  import opened Bytes

  const HEADER_SIZE: nat := 16
  const MAX_PAYLOAD: nat := 1024 * 1024
  const MAX_FRAME: nat := HEADER_SIZE + MAX_PAYLOAD
  const MAGIC: seq<byte> := [0x4c, 0x4e, 0x4c, 0x4b]
  const VERSION: nat := 5

  /** `kind` is the raw message type. */
  datatype Frame = Frame(kind: nat, requestId: nat, payload: seq<byte>)

  predicate IsKnownType(kind: nat)
  {
    || 0x0001 <= kind <= 0x0007
    || 0x0100 <= kind <= 0x010d
    || 0x0180 <= kind <= 0x018c
    || kind == 0x00ff
  }

  /** The frames `encode_frame` accepts; the request id is a 32-bit field. */
  predicate Encodable(f: Frame)
  {
    IsKnownType(f.kind) && f.requestId < 0x1_0000_0000 && |f.payload| <= MAX_PAYLOAD
  }

  function Wire(f: Frame): (w: seq<byte>)
    requires Encodable(f)
    ensures |w| == HEADER_SIZE + |f.payload|
  {
    MAGIC + Be16(VERSION) + Be16(f.kind) + Be32(f.requestId) + Be32(|f.payload|) + f.payload
  }

  function Pow256(n: nat): (p: nat)
    ensures p > 0
  {
    if n == 0 then 1 else 256 * Pow256(n - 1)
  }

  /** The `size` low octets of `value`, most significant first. */
  function BigEndian(value: nat, size: nat): (s: seq<byte>)
    ensures |s| == size
  {
    if size == 0 then [] else [value / Pow256(size - 1) % 256] + BigEndian(value, size - 1)
  }

  lemma Digits(v: nat)
    ensures v / 0x100_0000 == v / 0x1_0000 / 256
    ensures v / 256 % 256 == v % 0x1_0000 / 256
    ensures v % 256 == v % 0x1_0000 % 256
  {
    var hi, lo := v / 0x1_0000, v % 0x1_0000;
    assert v == hi * 0x1_0000 + lo;
    assert v / 256 == hi * 256 + lo / 256;
  }

  lemma BigEndianDigits(value: nat)
    ensures BigEndian(value, 2) == [value / 256 % 256, value % 256]
    ensures BigEndian(value, 4) == [value / 0x100_0000 % 256, value / 0x1_0000 % 256, value / 256 % 256, value % 256]
  {
    assert Pow256(0) == 1 && Pow256(1) == 256 && Pow256(2) == 0x1_0000 && Pow256(3) == 0x100_0000;
    assert BigEndian(value, 0) == [];
    assert BigEndian(value, 1) == [value % 256];
    assert BigEndian(value, 2) == [value / 256 % 256] + BigEndian(value, 1);
    assert BigEndian(value, 3) == [value / 0x1_0000 % 256] + BigEndian(value, 2);
  }

  lemma Be32Digits(v: nat)
    requires v < 0x1_0000_0000
    ensures Be32(v) == [v / 0x1_0000 / 256, v / 0x1_0000 % 256, v % 0x1_0000 / 256, v % 0x1_0000 % 256]
  {}

  lemma SmallQuotient(v: nat, d: nat)
    requires d > 0 && v < 256 * d
    ensures v / d % 256 == v / d
  {
    assert v / d < 256;
  }

  lemma BigEndianIsBe(value: nat)
    ensures value < 0x1_0000 ==> BigEndian(value, 2) == Be16(value)
    ensures value < 0x1_0000_0000 ==> BigEndian(value, 4) == Be32(value)
  {
    hide BigEndian, Be32;
    BigEndianDigits(value);
    if value < 0x1_0000 {
      SmallQuotient(value, 256);
    }
    if value < 0x1_0000_0000 {
      SmallQuotient(value, 0x100_0000);
      Digits(value);
      Be32Digits(value);
    }
  }

  /** `append_integer`, one octet a turn. */
  method AppendInteger(output: seq<byte>, value: nat, size: nat) returns (r: seq<byte>)
    ensures r == output + BigEndian(value, size)
  {
    r := output;
    var index := size;
    while index > 0
      invariant 0 <= index <= size
      invariant r + BigEndian(value, index) == output + BigEndian(value, size)
    {
      var octet := value / Pow256(index - 1) % 256;
      assert r + BigEndian(value, index) == r + [octet] + BigEndian(value, index - 1);
      r := r + [octet];
      index := index - 1;
    }
  }

  method EncodeFrame(f: Frame) returns (r: Result<seq<byte>>)
    requires f.requestId < 0x1_0000_0000
    ensures r == if Encodable(f) then Success(Wire(f)) else Failure
  {
    if !IsKnownType(f.kind) { return Failure; }
    if |f.payload| > MAX_PAYLOAD { return Failure; }
    BigEndianIsBe(VERSION);
    BigEndianIsBe(f.kind);
    BigEndianIsBe(f.requestId);
    BigEndianIsBe(|f.payload|);
    var output := MAGIC;
    output := AppendInteger(output, VERSION, 2);
    output := AppendInteger(output, f.kind, 2);
    output := AppendInteger(output, f.requestId, 4);
    output := AppendInteger(output, |f.payload|, 4);
    r := Success(output + f.payload);
  }

  datatype Decoded =
    | Complete(frame: Frame, consumed: nat)
    | NeedMoreData(required: nat)
    | InvalidMagic
    | UnsupportedVersion
    | UnknownType
    | PayloadTooLarge
  {
    predicate Bad() {
      !Complete? && !NeedMoreData?
    }
  }

  function DecodeFrame(bytes: seq<byte>): (r: Decoded)
    ensures r.Complete? ==> HEADER_SIZE <= r.consumed <= |bytes|
    ensures r.NeedMoreData? ==> |bytes| < r.required <= MAX_FRAME
    ensures r.Bad() ==> |bytes| >= HEADER_SIZE
  {
    if |bytes| < HEADER_SIZE then NeedMoreData(HEADER_SIZE)
    else if bytes[..4] != MAGIC then InvalidMagic
    else if U16(bytes, 4) != VERSION then UnsupportedVersion
    else if !IsKnownType(U16(bytes, 6)) then UnknownType
    else
      var size := U32(bytes, 12);
      if size > MAX_PAYLOAD then PayloadTooLarge
      else if |bytes| < HEADER_SIZE + size then NeedMoreData(HEADER_SIZE + size)
      else Complete(Frame(U16(bytes, 6), U32(bytes, 8), bytes[HEADER_SIZE..HEADER_SIZE + size]), HEADER_SIZE + size)
  }

  predicate Marked(b: seq<byte>)
  {
    |b| >= 16 && b[0] == 0x4c && b[1] == 0x4e && b[2] == 0x4c && b[3] == 0x4b
  }

  /** The four ways in which sixteen octets can fail to be a header, each one ruling out the ones after it. */
  lemma BadExactly(b: seq<byte>)
    ensures DecodeFrame(b) == InvalidMagic <==> |b| >= 16 && !Marked(b)
    ensures DecodeFrame(b) == UnsupportedVersion <==> Marked(b) && U16(b, 4) != 5
    ensures DecodeFrame(b) == UnknownType <==> Marked(b) && U16(b, 4) == 5 && !IsKnownType(U16(b, 6))
    ensures DecodeFrame(b) == PayloadTooLarge <==> Marked(b) && U16(b, 4) == 5 && IsKnownType(U16(b, 6)) && U32(b, 12) > 0x10_0000
  {
    if |b| >= 16 {
      assert b[..4] == [b[0], b[1], b[2], b[3]];
    }
  }

  lemma WireLayout(f: Frame, rest: seq<byte>)
    requires Encodable(f)
    ensures
      var b := Wire(f) + rest;
      && b[..4] == MAGIC && U16(b, 4) == VERSION && U16(b, 6) == f.kind && U32(b, 8) == f.requestId
      && U32(b, 12) == |f.payload| && b[HEADER_SIZE..HEADER_SIZE + |f.payload|] == f.payload
  {
    var head := MAGIC + Be16(VERSION) + Be16(f.kind) + Be32(f.requestId) + Be32(|f.payload|);
    assert Wire(f) + rest == head + f.payload + rest;
    assert (head + f.payload + rest)[16..16 + |f.payload|] == f.payload;
    var b := head + f.payload + rest;
    assert b[..4] == MAGIC;
    assert b[4] == 0 && b[5] == VERSION;
    assert b[6] == f.kind / 256 && b[7] == f.kind % 256;
    assert forall i :: 8 <= i < 12 ==> b[i] == Be32(f.requestId)[i - 8];
    assert forall i :: 12 <= i < 16 ==> b[i] == Be32(|f.payload|)[i - 12];
  }

  /** Decoding what was encoded, with anything after it, returns the frame and where it ends. */
  lemma DecodeOfWire(f: Frame, rest: seq<byte>)
    requires Encodable(f)
    ensures DecodeFrame(Wire(f) + rest) == Complete(f, |Wire(f)|)
  {
    WireLayout(f, rest);
  }

  /** Whatever decodes is the encoding of the frame it decodes to. */
  lemma WireOfDecoded(bytes: seq<byte>)
    requires DecodeFrame(bytes).Complete?
    ensures
      var r := DecodeFrame(bytes);
      Encodable(r.frame) && Wire(r.frame) == bytes[..r.consumed]
  {
    var f := DecodeFrame(bytes).frame;
    ReadBack(bytes, 4);
    ReadBack(bytes, 6);
    ReadBack(bytes, 8);
    ReadBack(bytes, 12);
    assert bytes[..16 + |f.payload|] ==
           bytes[..4] + bytes[4..6] + bytes[6..8] + bytes[8..12] + bytes[12..16] + bytes[16..16 + |f.payload|];
  }

  lemma ReadBack(s: seq<byte>, at: nat)
    requires at + 4 <= |s|
    ensures Be16(U16(s, at)) == s[at..at + 2] && Be32(U32(s, at)) == s[at..at + 4]
  {
    ReadBackHalf(s, at);
    ReadBackHalf(s, at + 2);
    hide Be16, U16;
    assert U32(s, at) / 0x1_0000 == U16(s, at) && U32(s, at) % 0x1_0000 == U16(s, at + 2);
    assert s[at..at + 4] == s[at..at + 2] + s[at + 2..at + 4];
  }

  lemma ReadBackHalf(s: seq<byte>, at: nat)
    requires at + 2 <= |s|
    ensures Be16(U16(s, at)) == s[at..at + 2]
  {
  }

  /** A proper prefix of an encoding always asks for more. */
  lemma PrefixNeedsMore(f: Frame, n: nat)
    requires Encodable(f) && n < |Wire(f)|
    ensures DecodeFrame(Wire(f)[..n]).NeedMoreData?
  {
    WireLayout(f, []);
    assert Wire(f) + [] == Wire(f);
    if n >= HEADER_SIZE {
      assert Wire(f)[..n][..4] == Wire(f)[..4];
    }
  }

  /** More input never changes a verdict that was reached. */
  lemma VerdictIsStable(a: seq<byte>, b: seq<byte>)
    requires !DecodeFrame(a).NeedMoreData?
    ensures DecodeFrame(a + b) == DecodeFrame(a)
  {
    assert (a + b)[..4] == a[..4];
    if DecodeFrame(a).Complete? {
      var n := DecodeFrame(a).consumed;
      assert (a + b)[HEADER_SIZE..n] == a[HEADER_SIZE..n];
    }
  }
}
