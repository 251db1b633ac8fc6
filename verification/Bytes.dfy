/**
  * Octets, big-endian integers and identifiers shared by the protocol modules.
  * A `std::byte` is an integer below 256; masks and shifts of the source are
  * written as divisions and remainders by powers of two.
  */
module Bytes {
  type byte = b: int | 0 <= b < 256

  datatype Option<+T> = None | Some(value: T)

  /** Error text is left out: a thrown exception is `Failure`. */
  datatype Result<+T> = Success(value: T) | Failure

  const DEVICE_ID_SIZE: nat := 32

  const NETWORK_ID_SIZE: nat := 16

  type NetworkId = n: seq<byte> | |n| == NETWORK_ID_SIZE witness seq(NETWORK_ID_SIZE, _ => 0)

  type DeviceId = d: seq<byte> | |d| == DEVICE_ID_SIZE witness seq(DEVICE_ID_SIZE, _ => 0)

  const ZERO_DEVICE: DeviceId :=
    [0, 0, 0, 0, 0, 0, 0, 0, 0, 0, 0, 0, 0, 0, 0, 0, 0, 0, 0, 0, 0, 0, 0, 0, 0, 0, 0, 0, 0, 0, 0, 0]

  function U16(s: seq<byte>, at: nat): (v: nat)
    requires at + 2 <= |s|
    ensures v < 0x1_0000
  {
    s[at] as int * 256 + s[at + 1] as int
  }

  function U32(s: seq<byte>, at: nat): (v: nat)
    requires at + 4 <= |s|
    ensures v < 0x1_0000_0000
  {
    U16(s, at) * 0x1_0000 + U16(s, at + 2)
  }

  function Be16(v: nat): (s: seq<byte>)
    requires v < 0x1_0000
    ensures |s| == 2
  {
    [v / 256, v % 256]
  }

  function Be32(v: nat): (s: seq<byte>)
    requires v < 0x1_0000_0000
    ensures |s| == 4
  {
    Be16(v / 0x1_0000) + Be16(v % 0x1_0000)
  }

  /** Writing `v` in place at `at`, as the `put` helpers do. */
  function Put16(s: seq<byte>, at: nat, v: nat): (r: seq<byte>)
    requires at + 2 <= |s| && v < 0x1_0000
    ensures |r| == |s| && U16(r, at) == v
    ensures forall i :: 0 <= i < |s| && i != at && i != at + 1 ==> r[i] == s[i]
  {
    s[at := v / 256][at + 1 := v % 256]
  }

  /** The order `std::array` compares device identifiers by. */
  predicate Before(a: seq<byte>, b: seq<byte>)
    requires |a| == |b|
    decreases |a|
  {
    a != [] && (a[0] < b[0] || (a[0] == b[0] && Before(a[1..], b[1..])))
  }

  /** Distinct identifiers are ordered one way and not the other. */
  lemma {:induction false} BeforeIsTotal(a: seq<byte>, b: seq<byte>)
    requires |a| == |b| && a != b
    ensures Before(a, b) != Before(b, a)
    decreases |a|
  {
    if a[0] == b[0] {
      assert a == [a[0]] + a[1..] && b == [b[0]] + b[1..];
      BeforeIsTotal(a[1..], b[1..]);
    }
  }
}
