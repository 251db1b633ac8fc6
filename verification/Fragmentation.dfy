/**
  * What fragments owe to the datagram they came from, on datagrams as read from
  * the wire (section 3.2 of RFC 791). The relation composes: fragments of
  * fragments are fragments of the whole.
  */
module Fragmentation {
  import opened Bytes

  /**
    * `fixed`: service, identification, lifetime, protocol and addresses;
    * `copied`: the options to be repeated in every fragment but the first.
    */
  datatype Datagram = Datagram(fixed: seq<byte>, options: seq<byte>, copied: seq<byte>, offset: nat,
                               more: bool, dontFragment: bool, payload: seq<byte>)

  /** `f` is the part of `whole` that starts `at` octets into its payload. */
  ghost predicate IsSlice(f: Datagram, whole: Datagram, at: nat)
  {
    && at + |f.payload| <= |whole.payload|
    && f.payload == whole.payload[at..at + |f.payload|]
    && f.fixed == whole.fixed && f.dontFragment == whole.dontFragment
    && f.offset == whole.offset + at
    && (f.more <==> at + |f.payload| < |whole.payload| || whole.more)
    && f.copied == whole.copied
    && f.options == if at == 0 then whole.options else whole.copied
  }

  /** Where fragments that carry the payload of `whole` from `from` on, in order and without gaps, end. */
  ghost function CoveredTo(fragments: seq<Datagram>, whole: Datagram, from: nat): (to: Option<nat>)
  {
    if fragments == [] then Some(from)
    else if IsSlice(fragments[0], whole, from) then CoveredTo(fragments[1..], whole, from + |fragments[0].payload|)
    else None
  }

  ghost predicate NoneEmpty(fragments: seq<Datagram>)
  {
    forall i :: 0 <= i < |fragments| ==> fragments[i].payload != []
  }

  /** All fragments of one datagram; only a datagram that is not cut may be empty. */
  ghost predicate AreFragments(fragments: seq<Datagram>, whole: Datagram)
  {
    fragments != [] && CoveredTo(fragments, whole, 0) == Some(|whole.payload|) && (|fragments| > 1 ==> NoneEmpty(fragments))
  }

  function Payloads(fragments: seq<Datagram>): (p: seq<byte>)
  {
    if fragments == [] then [] else fragments[0].payload + Payloads(fragments[1..])
  }

  lemma {:induction false} CoversConcatenates(fragments: seq<Datagram>, whole: Datagram, from: nat, to: nat)
    requires CoveredTo(fragments, whole, from) == Some(to) && to <= |whole.payload|
    ensures from <= to && Payloads(fragments) == whole.payload[from..to]
    decreases |fragments|
  {
    if fragments != [] {
      var mid := from + |fragments[0].payload|;
      CoversConcatenates(fragments[1..], whole, mid, to);
      assert whole.payload[from..to] == whole.payload[from..mid] + whole.payload[mid..to];
    }
  }

  /** The payloads put together are the payload, and fragment `i` starts where those before it end. */
  lemma FragmentsReassemble(fragments: seq<Datagram>, whole: Datagram, i: nat)
    requires AreFragments(fragments, whole) && i < |fragments|
    ensures Payloads(fragments) == whole.payload
    ensures fragments[i].offset == whole.offset + |Payloads(fragments[..i])|
    ensures fragments[i].more <==> (|Payloads(fragments[..i + 1])| < |whole.payload| || whole.more)
    ensures fragments[i].options == if i == 0 then whole.options else whole.copied
  {
    if i > 0 {
      assert fragments[..i][0] == fragments[0] && fragments[0].payload != [];
    } else {
      assert fragments[..0] == [];
    }
    CoversConcatenates(fragments, whole, 0, |whole.payload|);
    assert whole.payload[0..|whole.payload|] == whole.payload;
    FragmentAt(fragments, whole, 0, |whole.payload|, i);
  }

  lemma SliceAt(fragments: seq<Datagram>, whole: Datagram, i: nat)
    requires AreFragments(fragments, whole) && i < |fragments|
    ensures IsSlice(fragments[i], whole, |Payloads(fragments[..i])|)
  {
    hide IsSlice;
    FragmentAt(fragments, whole, 0, |whole.payload|, i);
  }

  lemma {:induction false} FragmentAt(fragments: seq<Datagram>, whole: Datagram, from: nat, to: nat, i: nat)
    requires CoveredTo(fragments, whole, from) == Some(to) && i < |fragments|
    ensures IsSlice(fragments[i], whole, from + |Payloads(fragments[..i])|)
    ensures |Payloads(fragments[..i + 1])| == |Payloads(fragments[..i])| + |fragments[i].payload|
    decreases i
  {
    hide IsSlice;
    if i == 0 {
      assert fragments[..1][1..] == [];
    } else {
      FragmentAt(fragments[1..], whole, from + |fragments[0].payload|, to, i - 1);
      assert fragments[..i][1..] == fragments[1..][..i - 1];
      assert fragments[..i + 1][1..] == fragments[1..][..i];
    }
  }

  lemma {:induction false} CoversAppend(a: seq<Datagram>, b: seq<Datagram>, whole: Datagram, i: nat, j: nat, k: nat)
    requires CoveredTo(a, whole, i) == Some(j) && CoveredTo(b, whole, j) == Some(k)
    ensures CoveredTo(a + b, whole, i) == Some(k)
    decreases |a|
  {
    if a == [] {
      assert a + b == b;
    } else {
      assert (a + b)[0] == a[0] && (a + b)[1..] == a[1..] + b;
      CoversAppend(a[1..], b, whole, i + |a[0].payload|, j, k);
    }
  }

  lemma CoversSnoc(fragments: seq<Datagram>, f: Datagram, whole: Datagram, from: nat, to: nat, next: nat)
    requires CoveredTo(fragments, whole, from) == Some(to) && IsSlice(f, whole, to) && next == to + |f.payload|
    ensures CoveredTo(fragments + [f], whole, from) == Some(next)
  {
    assert [f][1..] == [];
    CoversAppend(fragments, [f], whole, from, to, next);
  }

  lemma WholeIsItsOwnFragment(whole: Datagram)
    ensures AreFragments([whole], whole)
  {
    assert whole.payload[0..|whole.payload|] == whole.payload;
    assert [whole][1..] == [];
  }

  /** A slice of a slice is a slice. */
  lemma SliceOfSlice(g: Datagram, f: Datagram, whole: Datagram, at: nat, k: nat)
    requires IsSlice(f, whole, at) && IsSlice(g, f, k)
    ensures IsSlice(g, whole, at + k)
  {
    PartOfPart(whole.payload, at, |f.payload|, k, |g.payload|);
  }

  lemma PartOfPart(p: seq<byte>, at: nat, n: nat, k: nat, m: nat)
    requires at + n <= |p| && k + m <= n
    ensures p[at..at + n][k..k + m] == p[at + k..at + k + m]
  {
    var part, whole := p[at..at + n][k..k + m], p[at + k..at + k + m];
    assert forall i :: 0 <= i < |whole| ==> part[i] == whole[i];
  }

  lemma {:induction false} CoversThrough(gs: seq<Datagram>, f: Datagram, whole: Datagram, at: nat, i: nat, j: nat)
    requires IsSlice(f, whole, at) && CoveredTo(gs, f, i) == Some(j)
    ensures CoveredTo(gs, whole, at + i) == Some(at + j)
    decreases |gs|
  {
    if gs != [] {
      SliceOfSlice(gs[0], f, whole, at, i);
      CoversThrough(gs[1..], f, whole, at, i + |gs[0].payload|, j);
    }
  }

  function Flatten(pieces: seq<seq<Datagram>>): (r: seq<Datagram>)
  {
    if pieces == [] then [] else pieces[0] + Flatten(pieces[1..])
  }

  lemma {:induction false} RefragmentingCovers(fs: seq<Datagram>, pieces: seq<seq<Datagram>>, whole: Datagram, i: nat, j: nat)
    requires CoveredTo(fs, whole, i) == Some(j) && |pieces| == |fs|
    requires forall n :: 0 <= n < |fs| ==> AreFragments(pieces[n], fs[n])
    ensures CoveredTo(Flatten(pieces), whole, i) == Some(j)
    decreases |fs|
  {
    if fs != [] {
      var n := |fs[0].payload|;
      CoversThrough(pieces[0], fs[0], whole, i, 0, n);
      RefragmentingCovers(fs[1..], pieces[1..], whole, i + n, j);
      CoversAppend(pieces[0], Flatten(pieces[1..]), whole, i, i + n, j);
    }
  }

  lemma PiecesAreNotEmpty(pieces: seq<Datagram>, f: Datagram)
    requires AreFragments(pieces, f) && f.payload != []
    ensures NoneEmpty(pieces)
  {
    hide IsSlice;
    if |pieces| == 1 {
      var n := |pieces[0].payload|;
      assert pieces[1..] == [];
      assert CoveredTo([], f, n) == Some(n);
      assert CoveredTo(pieces, f, 0) == Some(n);
    }
  }

  lemma {:induction false} FlattenIsNotEmpty(pieces: seq<seq<Datagram>>)
    requires forall n :: 0 <= n < |pieces| ==> NoneEmpty(pieces[n])
    ensures NoneEmpty(Flatten(pieces))
  {
    if pieces != [] {
      FlattenIsNotEmpty(pieces[1..]);
    }
  }

  /** Fragmenting every fragment again, each at its own size, yields fragments of the original datagram. */
  lemma RefragmentingIsFragmenting(fs: seq<Datagram>, pieces: seq<seq<Datagram>>, whole: Datagram)
    requires AreFragments(fs, whole) && |pieces| == |fs|
    requires forall n :: 0 <= n < |fs| ==> AreFragments(pieces[n], fs[n])
    ensures AreFragments(Flatten(pieces), whole)
  {
    RefragmentingCovers(fs, pieces, whole, 0, |whole.payload|);
    assert AreFragments(pieces[0], fs[0]);
    hide CoveredTo;
    if |fs| == 1 {
      assert pieces == [pieces[0]] && pieces[1..] == [];
      assert Flatten(pieces) == pieces[0];
    } else {
      forall n | 0 <= n < |pieces| ensures NoneEmpty(pieces[n]) {
        PiecesAreNotEmpty(pieces[n], fs[n]);
      }
      FlattenIsNotEmpty(pieces);
    }
  }

  lemma {:induction false} FlattenSnoc(pieces: seq<seq<Datagram>>, last: seq<Datagram>)
    ensures Flatten(pieces + [last]) == Flatten(pieces) + last
  {
    if pieces == [] {
      assert pieces + [last] == [last] && [last][1..] == [];
    } else {
      assert (pieces + [last])[1..] == pieces[1..] + [last];
      FlattenSnoc(pieces[1..], last);
    }
  }
}
