/** Network names: shortest-form UTF-8 (section 4 of RFC 3629) without control characters. */
module NetworkName {
  import opened Bytes

  const MAX_SIZE: nat := 128

  // ---- The encoding ----

  predicate Scalar(c: nat)
  {
    c <= 0x10_ffff && !(0xd800 <= c <= 0xdfff)
  }

  /** Neither a C0 control, nor DEL, nor a C1 control. */
  predicate Printable(c: nat)
  {
    c >= 0x20 && !(0x7f <= c <= 0x9f)
  }

  predicate Good(c: nat)
  {
    Scalar(c) && Printable(c)
  }

  /** The code points a name may hold: no C0 control, DEL or C1 control, no surrogate, nothing above U+10FFFF. */
  lemma GoodExactly(c: nat)
    ensures Good(c) <==> 0x20 <= c <= 0x7e || 0xa0 <= c <= 0xd7ff || 0xe000 <= c <= 0x10_ffff
  {
  }

  type Code = c: nat | Good(c) witness 0x20

  function Encode(c: nat): (s: seq<byte>)
    requires Scalar(c)
    ensures s != []
  {
    if c < 0x80 then [c]
    else if c < 0x800 then [0xc0 + c / 0x40, 0x80 + c % 0x40]
    else if c < 0x1_0000 then [0xe0 + c / 0x1000, 0x80 + c / 0x40 % 0x40, 0x80 + c % 0x40]
    else [0xf0 + c / 0x4_0000, 0x80 + c / 0x1000 % 0x40, 0x80 + c / 0x40 % 0x40, 0x80 + c % 0x40]
  }

  function EncodeAll(cs: seq<Code>): (s: seq<byte>)
  {
    if cs == [] then [] else Encode(cs[0]) + EncodeAll(cs[1..])
  }

  ghost predicate IsEncoding(s: seq<byte>)
  {
    exists cs: seq<Code> :: EncodeAll(cs) == s
  }

  // ---- The automaton ----

  /** The bits of a first octet, and how many octets continue it. */
  datatype Start = Start(bits: nat, count: nat)

  function Lead(first: byte): (r: Option<Start>)
  {
    if first <= 0x7f then Some(Start(first, 0))
    else if 0xc2 <= first <= 0xdf then Some(Start(first % 0x20, 1))
    else if 0xe0 <= first <= 0xef then Some(Start(first % 0x10, 2))
    else if 0xf0 <= first <= 0xf4 then Some(Start(first % 8, 3))
    else None
  }

  function Continue(s: seq<byte>, bits: nat, i: nat, count: nat): (r: Option<nat>)
    requires count < |s|
    decreases count + 1 - i
  {
    if i > count then Some(bits)
    else if s[i] / 64 != 2 then None
    else Continue(s, bits * 64 + s[i] as int % 64, i + 1, count)
  }

  predicate Overlong(c: nat, count: nat)
  {
    (count == 1 && c < 0x80) || (count == 2 && c < 0x800) || (count == 3 && c < 0x1_0000)
  }

  datatype Taken = Taken(code: nat, size: nat)

  /** One round of the outer loop. */
  function Take(s: seq<byte>): (r: Option<Taken>)
    requires s != []
    ensures r.Some? ==> 0 < r.value.size <= |s|
  {
    var start := Lead(s[0]);
    if start.None? || start.value.count >= |s| then None
    else
      var c := Continue(s, start.value.bits, 1, start.value.count);
      if c.None? || Overlong(c.value, start.value.count) || !Good(c.value) then None
      else Some(Taken(c.value, start.value.count + 1))
  }

  lemma ContinueUnrolls(s: seq<byte>, bits: nat, count: nat)
    requires count < |s| && count <= 3
    ensures var ok := forall i :: 1 <= i <= count ==> s[i] / 64 == 2;
      Continue(s, bits, 1, count) ==
        if !ok then None
        else if count == 0 then Some(bits)
        else if count == 1 then Some(bits * 64 + s[1] as int % 64)
        else if count == 2 then Some((bits * 64 + s[1] as int % 64) * 64 + s[2] as int % 64)
        else Some(((bits * 64 + s[1] as int % 64) * 64 + s[2] as int % 64) * 64 + s[3] as int % 64)
  {
  }

  lemma TwoDigits(c: nat, a: nat, b: nat)
    requires b < 64
    ensures c == a * 64 + b <==> c / 64 == a && c % 64 == b
  {
  }

  lemma ThreeDigits(c: nat, a: nat, b: nat, d: nat)
    requires b < 64 && d < 64
    ensures c == (a * 64 + b) * 64 + d <==> c / 0x1000 == a && c / 0x40 % 0x40 == b && c % 0x40 == d
  {
    TwoDigits(c, a * 64 + b, d);
    TwoDigits(c / 64, a, b);
    assert c / 64 / 64 == c / 0x1000;
  }

  lemma FourDigits(c: nat, a: nat, b: nat, d: nat, e: nat)
    requires b < 64 && d < 64 && e < 64
    ensures c == ((a * 64 + b) * 64 + d) * 64 + e
       <==> c / 0x4_0000 == a && c / 0x1000 % 0x40 == b && c / 0x40 % 0x40 == d && c % 0x40 == e
  {
    TwoDigits(c, (a * 64 + b) * 64 + d, e);
    ThreeDigits(c / 64, a, b, d);
    assert c / 64 / 0x1000 == c / 0x4_0000 && c / 64 / 64 == c / 0x1000;
  }

  /** Octets that carry six bits each. */
  lemma Continuation(o: byte, v: nat)
    requires v < 64
    ensures o == 0x80 + v <==> o / 64 == 2 && o % 64 == v
  {
  }

  /** The first octet with `count` after it, and what `Take` then needs. */
  lemma TakeWith(s: seq<byte>, c: nat, count: nat)
    requires s != []
    ensures Take(s) == Some(Taken(c, count + 1)) <==>
      (Lead(s[0]).Some? && Lead(s[0]).value.count == count && count < |s| && Good(c) && !Overlong(c, count)
       && Continue(s, Lead(s[0]).value.bits, 1, count) == Some(c))
  {
    hide Lead, Continue, Overlong, Good;
  }

  lemma TakeOne(s: seq<byte>, c: nat)
    requires s != [] && Scalar(c)
    ensures Take(s) == Some(Taken(c, 1)) <==> Good(c) && c < 0x80 && s[0] == c
  {
    hide Take;
    TakeWith(s, c, 0);
  }

  lemma TakeTwo(s: seq<byte>, c: nat)
    requires s != [] && Scalar(c)
    ensures Take(s) == Some(Taken(c, 2)) <==> Good(c) && 0x80 <= c < 0x800 && 2 <= |s| && s[..2] == Encode(c)
  {
    hide Take, Continue, Good;
    TakeWith(s, c, 1);
    if |s| >= 2 {
      assert s[..2] == [s[0], s[1]];
      ContinueUnrolls(s, s[0] as int % 0x20, 1);
      Continuation(s[1], c % 0x40);
      TwoDigits(c, s[0] as int % 0x20, s[1] as int % 64);
    }
  }

  lemma TakeThree(s: seq<byte>, c: nat)
    requires s != [] && Scalar(c)
    ensures Take(s) == Some(Taken(c, 3)) <==> Good(c) && 0x800 <= c < 0x1_0000 && 3 <= |s| && s[..3] == Encode(c)
  {
    hide Take, Continue, Good;
    TakeWith(s, c, 2);
    if |s| >= 3 {
      assert s[..3] == [s[0], s[1], s[2]];
      ContinueUnrolls(s, s[0] as int % 0x10, 2);
      Continuation(s[1], c / 0x40 % 0x40);
      Continuation(s[2], c % 0x40);
      ThreeDigits(c, s[0] as int % 0x10, s[1] as int % 64, s[2] as int % 64);
    }
  }

  lemma TakeFour(s: seq<byte>, c: nat)
    requires s != [] && Scalar(c)
    ensures Take(s) == Some(Taken(c, 4)) <==> Good(c) && 0x1_0000 <= c && 4 <= |s| && s[..4] == Encode(c)
  {
    hide Take, Continue, Good;
    TakeWith(s, c, 3);
    if |s| >= 4 {
      assert s[..4] == [s[0], s[1], s[2], s[3]];
      ContinueUnrolls(s, s[0] as int % 8, 3);
      Continuation(s[1], c / 0x1000 % 0x40);
      Continuation(s[2], c / 0x40 % 0x40);
      Continuation(s[3], c % 0x40);
      FourDigits(c, s[0] as int % 8, s[1] as int % 64, s[2] as int % 64, s[3] as int % 64);
    }
  }

  /** A round takes a code point exactly when its shortest encoding comes next. */
  lemma TakesExactly(s: seq<byte>, c: nat, n: nat)
    requires s != [] && Scalar(c)
    ensures Take(s) == Some(Taken(c, n)) <==> Good(c) && n == |Encode(c)| && n <= |s| && s[..n] == Encode(c)
  {
    hide Take, Good;
    TakeOne(s, c);
    TakeTwo(s, c);
    TakeThree(s, c);
    TakeFour(s, c);
    assert s[..1] == [s[0]];
    if Take(s).Some? {
      TakenSize(s);
    }
  }

  lemma TakenSize(s: seq<byte>)
    requires s != [] && Take(s).Some?
    ensures 1 <= Take(s).value.size <= 4 && Good(Take(s).value.code)
  {
    hide Continue, Overlong;
  }

  // ---- Whole names ----

  lemma NothingTaken(s: seq<byte>)
    requires s != [] && Take(s).None?
    ensures !IsEncoding(s)
  {
    hide Take, Encode;
    if cs: seq<Code> :| EncodeAll(cs) == s {
      assert s[..|Encode(cs[0])|] == Encode(cs[0]);
      TakesExactly(s, cs[0], |Encode(cs[0])|);
    }
  }

  lemma SomeTaken(s: seq<byte>)
    requires s != [] && Take(s).Some?
    ensures IsEncoding(s) <==> IsEncoding(s[Take(s).value.size..])
  {
    hide Take, Encode;
    var c, n := Take(s).value.code, Take(s).value.size;
    TakenSize(s);
    TakesExactly(s, c, n);
    if IsEncoding(s) {
      var cs: seq<Code> :| EncodeAll(cs) == s;
      var k := |Encode(cs[0])|;
      assert s[..k] == Encode(cs[0]);
      TakesExactly(s, cs[0], k);
      assert s[k..] == EncodeAll(cs[1..]);
    }
    if IsEncoding(s[n..]) {
      var cs: seq<Code> :| EncodeAll(cs) == s[n..];
      var more: seq<Code> := [c] + cs;
      assert more[1..] == cs;
      assert EncodeAll(more) == s;
    }
  }

  /** `valid_network_name` accepts exactly the encodings of non-control scalar values of a permitted size. */
  method ValidNetworkName(name: seq<byte>) returns (ok: bool)
    ensures ok <==> 0 < |name| <= MAX_SIZE && IsEncoding(name)
  {
    hide Lead, Overlong, IsEncoding, Good;
    if name == [] || |name| > MAX_SIZE {
      return false;
    }
    var offset := 0;
    while offset < |name|
      invariant offset <= |name|
      invariant IsEncoding(name) <==> IsEncoding(name[offset..])
    {
      var s := name[offset..];
      if Take(s).None? {
        NothingTaken(s);
      } else {
        SomeTaken(s);
        assert name[offset..][Take(s).value.size..] == name[offset + Take(s).value.size..];
      }
      var lead := Lead(name[offset]);
      if lead.None? || lead.value.count > |name| - offset - 1 {
        return false;
      }
      var code: nat, count: nat := lead.value.bits, lead.value.count;
      for i := 1 to count + 1
        invariant Continue(s, lead.value.bits, 1, count) == Continue(s, code, i, count)
      {
        var next := name[offset + i];
        if next / 64 != 2 {
          return false;
        }
        code := code * 64 + next as int % 64;
      }
      if Overlong(code, count) || !Good(code) {
        return false;
      }
      offset := offset + count + 1;
    }
    EmptyName();
    assert name[offset..] == [];
    ok := true;
  }

  lemma EmptyName()
    ensures IsEncoding([])
  {
    var none: seq<Code> := [];
    assert EncodeAll(none) == [];
  }
}
