/** Which IPv4 options a fragment repeats, and the loop that collects them. */
module Ipv4Options {
  import opened Bytes

  /** The options to be repeated in every fragment, or a malformed option area. */
  function Kept(options: seq<byte>): (r: Result<seq<byte>>)
    ensures r.Success? ==> |r.value| <= |options|
  {
    if options == [] || options[0] == 0 then Success([])
    else if options[0] == 1 then Kept(options[1..])
    else if |options| < 2 then Failure
    else
      var size := options[1];
      if size < 2 || size > |options| then Failure
      else
        match Kept(options[size..])
        case Failure => Failure
        case Success(rest) => Success((if options[0] >= 0x80 then options[..size] else []) + rest)
  }

  /** Filled up with end-of-list octets to a whole number of words. */
  function Padded(s: seq<byte>): (r: seq<byte>)
    ensures |r| % 4 == 0 && |s| <= |r| < |s| + 4 && s <= r
    ensures forall i :: |s| <= i < |r| ==> r[i] == 0
  {
    s + seq((4 - |s| % 4) % 4, _ => 0)
  }

  function CopiedOptions(options: seq<byte>): (r: Result<seq<byte>>)
    ensures r.Success? ==> |r.value| % 4 == 0
  {
    match Kept(options)
    case Failure => Failure
    case Success(kept) => Success(Padded(kept))
  }

  /** Copied options are never longer than a whole-word option area. */
  lemma CopiedOptionsFit(options: seq<byte>)
    requires |options| % 4 == 0 && CopiedOptions(options).Success?
    ensures |CopiedOptions(options).value| <= |options|
  {}

  lemma {:induction false} KeptOfKept(options: seq<byte>, tail: seq<byte>)
    requires Kept(options).Success? && (tail == [] || tail[0] == 0)
    ensures Kept(Kept(options).value + tail) == Kept(options)
    decreases |options|
  {
    if options == [] || options[0] == 0 {
      assert [] + tail == tail;
    } else if options[0] == 1 {
      KeptOfKept(options[1..], tail);
    } else {
      var size := options[1];
      var rest := Kept(options[size..]).value;
      KeptOfKept(options[size..], tail);
      if options[0] >= 0x80 {
        var all := options[..size] + rest + tail;
        assert all[size..] == rest + tail;
        assert all[..size] == options[..size];
        assert all[0] == options[0] && all[1] == options[1];
      } else {
        assert [] + rest == rest;
      }
    }
  }

  /** Copying what was copied changes nothing. */
  lemma CopyingIsIdempotent(options: seq<byte>)
    requires CopiedOptions(options).Success?
    ensures CopiedOptions(CopiedOptions(options).value) == CopiedOptions(options)
  {
    var kept := Kept(options).value;
    var zeros := seq((4 - |kept| % 4) % 4, _ => 0);
    KeptOfKept(options, zeros);
  }

  /** The first loop of `copied_options`, over the whole packet. */
  method CollectOptions(packet: seq<byte>, header: nat) returns (r: Result<seq<byte>>)
    requires 20 <= header <= |packet|
    ensures r == Kept(packet[20..header])
  {
    hide Kept, Prepended;
    var result: seq<byte> := [];
    var offset := 20;
    ghost var all := Kept(packet[20..header]);
    NothingPrepended(all);
    while offset < header
      invariant 20 <= offset <= header
      invariant all == Prepended(result, Kept(packet[offset..header]))
    {
      var here := packet[offset..header];
      var kind := packet[offset];
      KeptEnds(here);
      PrependedEnds(result);
      if kind == 0 { return Success(result); }
      if kind == 1 {
        assert here[1..] == packet[offset + 1..header];
        offset := offset + 1;
        continue;
      }
      if offset + 2 > header { return Failure; }
      var size := packet[offset + 1];
      if size < 2 || size > header - offset { return Failure; }
      KeptStep(here);
      assert here[size..] == packet[offset + size..header];
      assert here[..size] == packet[offset..offset + size];
      PrependedTwice(result, if kind >= 0x80 then here[..size] else [], Kept(here[size..]));
      if kind >= 0x80 {
        result := result + packet[offset..offset + size];
      } else {
        assert result + [] == result;
      }
      offset := offset + size;
    }
    PrependedEnds(result);
    KeptEnds(packet[offset..header]);
    r := Success(result);
  }

  function Prepended(front: seq<byte>, r: Result<seq<byte>>): (s: Result<seq<byte>>)
  {
    if r.Failure? then Failure else Success(front + r.value)
  }

  lemma PrependedTwice(a: seq<byte>, b: seq<byte>, r: Result<seq<byte>>)
    ensures Prepended(a, Prepended(b, r)) == Prepended(a + b, r)
  {
    if r.Success? {
      assert a + (b + r.value) == a + b + r.value;
    }
  }

  /** The ways the walk ends, and the one-octet option. */
  lemma KeptEnds(options: seq<byte>)
    ensures options == [] || options[0] == 0 ==> Kept(options) == Success([])
    ensures options != [] && options[0] == 1 ==> Kept(options) == Kept(options[1..])
    ensures options != [] && options[0] > 1 && (|options| < 2 || options[1] < 2 || options[1] > |options|) ==> Kept(options) == Failure
  {}

  lemma NothingPrepended(r: Result<seq<byte>>)
    ensures Prepended([], r) == r
  {
    assert r.Success? ==> [] + r.value == r.value;
  }

  lemma PrependedEnds(s: seq<byte>)
    ensures Prepended(s, Success([])) == Success(s) && Prepended(s, Failure) == Failure
  {
    assert s + [] == s;
  }

  lemma KeptStep(options: seq<byte>)
    requires |options| >= 2 && options[0] > 1 && 2 <= options[1] <= |options|
    ensures Kept(options) == Prepended(if options[0] >= 0x80 then options[..options[1]] else [], Kept(options[options[1]..]))
  {}

  method CopyOptions(packet: seq<byte>, header: nat) returns (r: Result<seq<byte>>)
    requires 20 <= header <= |packet|
    ensures r == CopiedOptions(packet[20..header])
  {
    hide Kept, Padded;
    r := CollectOptions(packet, header);
    if r.Success? {
      var result := r.value;
      while |result| % 4 != 0
        invariant Padded(r.value) == Padded(result)
        decreases (4 - |result| % 4) % 4
      {
        PaddedStep(result);
        result := result + [0];
      }
      PaddedStep(result);
      r := Success(result);
    }
  }

  lemma PaddedStep(s: seq<byte>)
    ensures |s| % 4 != 0 ==> Padded(s + [0]) == Padded(s) && (4 - |s + [0]| % 4) % 4 < (4 - |s| % 4) % 4
    ensures |s| % 4 == 0 ==> Padded(s) == s
  {
    if |s| % 4 != 0 {
      assert (s + [0]) + seq((4 - |s + [0]| % 4) % 4, _ => 0) == s + seq((4 - |s| % 4) % 4, _ => 0);
    }
  }

  // ---- What an option area says ----

  /** A no-operation octet, or an option with its data. */
  datatype Entry = NoOperation | Typed(kind: byte, data: seq<byte>)

  predicate Writable(o: Entry)
  {
    o.NoOperation? || (o.kind > 1 && |o.data| <= 253)
  }

  function Written(o: Entry): (s: seq<byte>)
    requires Writable(o)
  {
    if o.NoOperation? then [1] else [o.kind, |o.data| + 2] + o.data
  }

  function AllWritten(os: seq<Entry>): (s: seq<byte>)
    requires forall i :: 0 <= i < |os| ==> Writable(os[i])
  {
    if os == [] then [] else Written(os[0]) + AllWritten(os[1..])
  }

  /** The options whose type has its highest bit, the copied flag, set. */
  function Flagged(os: seq<Entry>): (r: seq<Entry>)
    requires forall i :: 0 <= i < |os| ==> Writable(os[i])
    ensures forall i :: 0 <= i < |r| ==> Writable(r[i])
  {
    if os == [] then []
    else (if os[0].Typed? && os[0].kind / 128 == 1 then [os[0]] else []) + Flagged(os[1..])
  }

  lemma KeptOfOne(o: Entry, rest: seq<byte>)
    requires Writable(o)
    ensures Kept(Written(o) + rest) ==
      match Kept(rest)
      case Failure => Failure
      case Success(kept) => Success((if o.Typed? && o.kind / 128 == 1 then Written(o) else []) + kept)
  {
    var s := Written(o) + rest;
    if o.NoOperation? {
      assert s[1..] == rest;
      if Kept(rest).Success? {
        assert [] + Kept(rest).value == Kept(rest).value;
      }
    } else {
      var n := |o.data| + 2;
      assert s[n..] == rest && s[..n] == Written(o);
    }
  }

  /** Of a well-formed area, which may end early, exactly the flagged options are kept, in order and whole. */
  lemma {:induction false} KeptExactly(os: seq<Entry>, tail: seq<byte>)
    requires (forall i :: 0 <= i < |os| ==> Writable(os[i])) && (tail == [] || tail[0] == 0)
    ensures Kept(AllWritten(os) + tail) == Success(AllWritten(Flagged(os)))
    decreases |os|
  {
    hide Written, Writable;
    if os == [] {
      assert AllWritten(os) + tail == tail;
    } else {
      var rest := os[1..];
      KeptExactly(rest, tail);
      assert AllWritten(os) + tail == Written(os[0]) + (AllWritten(rest) + tail);
      hide Kept;
      KeptOfOne(os[0], AllWritten(rest) + tail);
      if os[0].Typed? && os[0].kind / 128 == 1 {
        assert Flagged(os) == [os[0]] + Flagged(rest) && ([os[0]] + Flagged(rest))[1..] == Flagged(rest);
      } else {
        assert Flagged(os) == Flagged(rest);
        assert [] + AllWritten(Flagged(rest)) == AllWritten(Flagged(rest));
      }
    }
  }

  /** And an area that is not refused is well-formed. */
  lemma {:induction false} AcceptedIsWritten(s: seq<byte>) returns (os: seq<Entry>, tail: seq<byte>)
    requires Kept(s).Success?
    ensures (forall i :: 0 <= i < |os| ==> Writable(os[i])) && (tail == [] || tail[0] == 0) && s == AllWritten(os) + tail
    decreases |s|
  {
    if s == [] || s[0] == 0 {
      os, tail := [], s;
    } else {
      hide Written, Kept, Writable, AllWritten;
      AcceptedGoesOn(s);
      var n := if s[0] == 1 then 1 else s[1];
      var o := if s[0] == 1 then NoOperation else Typed(s[0], s[2..n]);
      WrittenBack(s, o, n);
      var rest;
      rest, tail := AcceptedIsWritten(s[n..]);
      os := [o] + rest;
      WrittenFirst(o, rest, tail);
    }
  }

  lemma AcceptedGoesOn(s: seq<byte>)
    requires Kept(s).Success? && s != [] && s[0] != 0
    ensures s[0] == 1 ==> Kept(s[1..]).Success?
    ensures s[0] > 1 ==> |s| >= 2 && 2 <= s[1] <= |s| && Kept(s[s[1]..]).Success?
  {
  }

  lemma WrittenFirst(o: Entry, rest: seq<Entry>, tail: seq<byte>)
    requires Writable(o) && forall i :: 0 <= i < |rest| ==> Writable(rest[i])
    ensures AllWritten([o] + rest) + tail == Written(o) + (AllWritten(rest) + tail)
  {
    hide Written, Writable;
    assert ([o] + rest)[1..] == rest;
  }

  lemma WrittenBack(s: seq<byte>, o: Entry, n: nat)
    requires s != [] && (if s[0] == 1 then n == 1 && o == NoOperation else |s| >= 2 && s[0] > 1 && 2 <= n == s[1] <= |s| && o == Typed(s[0], s[2..n]))
    ensures Writable(o) && s == Written(o) + s[n..]
  {
    if s[0] > 1 {
      assert s[..n] == [s[0], s[1]] + s[2..n];
      assert s == s[..n] + s[n..];
    }
  }
}
