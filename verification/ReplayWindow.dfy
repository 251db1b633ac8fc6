/**
  * The anti-replay windows: a 64-bit map of recently accepted sequence numbers in
  * the packet cipher of a member and in the relay's fan-out path. A `uint64_t`
  * map is a natural number below 2^64, read and written bit by bit.
  */
module ReplayWindow {
  import opened Arithmetic
  import opened Bytes

  const WINDOW: nat := 64
  const MAX_SEQUENCE: nat := 0xffff_ffff

  predicate Bit(map_: nat, i: nat)
    decreases i
  {
    if i == 0 then map_ % 2 == 1 else Bit(map_ / 2, i - 1)
  }

  /** `map | (1 << i)` */
  function WithBit(map_: nat, i: nat): (r: nat)
    decreases i
  {
    if i == 0 then map_ - map_ % 2 + 1 else 2 * WithBit(map_ / 2, i - 1) + map_ % 2
  }

  /** `map << d` before truncation */
  function ShiftLeft(map_: nat, d: nat): (r: nat)
  {
    map_ * Pow2(d)
  }

  /** `(map << d) | 1` in 64 bits */
  function Advanced(map_: nat, d: nat): (r: nat)
  {
    WithBit(ShiftLeft(map_, d) % Pow2(WINDOW), 0)
  }

  lemma {:induction false} BitOfWithBit(map_: nat, i: nat, j: nat)
    ensures Bit(WithBit(map_, i), j) <==> i == j || Bit(map_, j)
    decreases i
  {
    if i == 0 {
      assert (map_ - map_ % 2 + 1) / 2 == map_ / 2;
    } else {
      assert WithBit(map_, i) / 2 == WithBit(map_ / 2, i - 1);
      if j > 0 {
        BitOfWithBit(map_ / 2, i - 1, j - 1);
      }
    }
  }

  lemma {:induction false} BitOfShift(map_: nat, d: nat, j: nat)
    ensures Bit(ShiftLeft(map_, d), j) <==> j >= d && Bit(map_, j - d)
    decreases d
  {
    if d > 0 {
      var half := ShiftLeft(map_, d - 1);
      assert ShiftLeft(map_, d) == 2 * half by {
        assert map_ * (2 * Pow2(d - 1)) == 2 * (map_ * Pow2(d - 1));
      }
      if j > 0 {
        assert 2 * half / 2 == half;
        BitOfShift(map_, d - 1, j - 1);
      }
    }
  }

  lemma HalfOfRemainder(x: nat, p: nat)
    requires p > 0
    ensures x % (2 * p) / 2 == (x / 2) % p
    ensures x % (2 * p) % 2 == x % 2
  {
    var q, r := x / (2 * p), x % (2 * p);
    assert x == 2 * (p * q) + r;
    assert x / 2 == p * q + r / 2;
    assert 0 <= r / 2 < p;
    assert x / 2 == q * p + r / 2;
    DivisionIsUnique(x / 2, p, q, r / 2);
  }

  lemma {:induction false} BitOfTruncation(map_: nat, n: nat, j: nat)
    requires j < n
    ensures Bit(map_ % Pow2(n), j) <==> Bit(map_, j)
    decreases n
  {
    HalfOfRemainder(map_, Pow2(n - 1));
    if j > 0 {
      BitOfTruncation(map_ / 2, n - 1, j - 1);
    }
  }

  lemma BitOfAdvanced(map_: nat, d: nat, j: nat)
    requires 0 < d && j < WINDOW
    ensures Bit(Advanced(map_, d), j) <==> j == 0 || (j >= d && Bit(map_, j - d))
  {
    BitOfWithBit(ShiftLeft(map_, d) % Pow2(WINDOW), 0, j);
    BitOfTruncation(ShiftLeft(map_, d), WINDOW, j);
    BitOfShift(map_, d, j);
  }

  lemma {:induction false} BitOfOne(j: nat)
    ensures Bit(1, j) <==> j == 0
    ensures !Bit(0, j)
  {
    if j > 0 {
      BitOfOne(j - 1);
    }
  }

  // ---- The member's receiver window ----

  datatype Window = Window(initialized: bool, prefix: seq<byte>, highest: nat, seen: nat)

  const EMPTY_WINDOW := Window(false, [], 0, 0)

  predicate AcceptSequence(sequence: nat, highest: nat, seen: nat)
  {
    sequence > highest || (highest - sequence < WINDOW && !Bit(seen, highest - sequence))
  }

  /** The window's verdict on a packet, before it is authenticated. */
  predicate Admits(w: Window, prefix: seq<byte>, sequence: nat)
  {
    w.initialized ==> w.prefix == prefix && AcceptSequence(sequence, w.highest, w.seen)
  }

  function Committed(w: Window, prefix: seq<byte>, sequence: nat): (r: Window)
  {
    if !w.initialized then Window(true, prefix, sequence, 1)
    else if sequence > w.highest then
      var distance := sequence - w.highest;
      w.(seen := if distance >= WINDOW then 1 else Advanced(w.seen, distance), highest := sequence)
    else w.(seen := WithBit(w.seen, w.highest - sequence))
  }

  /** The window is the set of accepted numbers: their maximum, and the last 64 bit by bit. */
  ghost predicate Tracks(w: Window, accepted: set<nat>)
  {
    && (w.initialized <==> accepted != {})
    && (w.initialized ==>
          && w.highest in accepted
          && (forall s :: s in accepted ==> s <= w.highest)
          && (forall i :: 0 <= i < WINDOW ==> (Bit(w.seen, i) <==> w.highest - i in accepted)))
  }

  /** The verdict of a tracking window, in terms of the accepted numbers alone. */
  lemma AdmitsExactlyNewAndRecent(w: Window, accepted: set<nat>, prefix: seq<byte>, sequence: nat)
    requires Tracks(w, accepted)
    ensures Admits(w, prefix, sequence) <==>
              (accepted != {} ==>
                 && prefix == w.prefix
                 && (sequence > w.highest || (w.highest - sequence < WINDOW && sequence !in accepted)))
  {
    if w.initialized && sequence <= w.highest && w.highest - sequence < WINDOW {
      assert w.highest - (w.highest - sequence) == sequence;
    }
  }

  lemma CommittedTracks(w: Window, accepted: set<nat>, prefix: seq<byte>, sequence: nat)
    requires Tracks(w, accepted) && Admits(w, prefix, sequence)
    ensures Tracks(Committed(w, prefix, sequence), accepted + {sequence})
  {
    var r, after := Committed(w, prefix, sequence), accepted + {sequence};
    forall i | 0 <= i < WINDOW
      ensures Bit(r.seen, i) <==> r.highest - i in after
    {
      BitOfOne(i);
      if w.initialized && sequence > w.highest {
        var distance := sequence - w.highest;
        if distance < WINDOW {
          BitOfAdvanced(w.seen, distance, i);
        }
        if i >= distance {
          assert r.highest - i == w.highest - (i - distance);
        }
      } else if w.initialized {
        BitOfWithBit(w.seen, w.highest - sequence, i);
      }
    }
  }

  /** An arrival: its nonce prefix, its number, and whether it authenticates. */
  datatype Arrival = Arrival(prefix: seq<byte>, sequence: nat, authentic: bool)

  predicate Delivers(w: Window, x: Arrival)
  {
    Admits(w, x.prefix, x.sequence) && x.authentic
  }

  function Handled(w: Window, x: Arrival): (r: Window)
  {
    if Delivers(w, x) then Committed(w, x.prefix, x.sequence) else w
  }

  function WindowAfter(w: Window, run: seq<Arrival>): (r: Window)
  {
    if run == [] then w else Handled(WindowAfter(w, run[..|run| - 1]), run[|run| - 1])
  }

  /** Whether arrival `i` of a run on an initially empty window is delivered. */
  predicate DeliveredAt(run: seq<Arrival>, i: nat)
    requires i < |run|
  {
    Delivers(WindowAfter(EMPTY_WINDOW, run[..i]), run[i])
  }

  ghost function DeliveredNumbers(run: seq<Arrival>): (s: set<nat>)
  {
    set i | 0 <= i < |run| && DeliveredAt(run, i) :: run[i].sequence
  }

  lemma DeliveredNumbersOfPrefix(run: seq<Arrival>)
    requires run != []
    ensures
      var n := |run| - 1;
      DeliveredNumbers(run) ==
      DeliveredNumbers(run[..n]) + (if DeliveredAt(run, n) then {run[n].sequence} else {})
  {
    var n := |run| - 1;
    var front := run[..n];
    forall i | 0 <= i < n ensures DeliveredAt(front, i) == DeliveredAt(run, i) && front[i] == run[i] {
      assert front[..i] == run[..i];
    }
    hide DeliveredAt;
    var last := if DeliveredAt(run, n) then {run[n].sequence} else {};
    forall s ensures s in DeliveredNumbers(run) <==> s in DeliveredNumbers(front) + last {
      if s in DeliveredNumbers(front) {
        var i :| 0 <= i < n && DeliveredAt(front, i) && front[i].sequence == s;
        assert DeliveredAt(run, i) && run[i].sequence == s;
      }
    }
  }

  lemma HandledTracks(w: Window, accepted: set<nat>, x: Arrival)
    requires Tracks(w, accepted)
    ensures Tracks(Handled(w, x), accepted + (if Delivers(w, x) then {x.sequence} else {}))
  {
    if Delivers(w, x) {
      CommittedTracks(w, accepted, x.prefix, x.sequence);
    } else {
      assert accepted + {} == accepted;
    }
  }

  /** Over every run, the window is exactly the numbers delivered so far. */
  lemma {:induction false} WindowTracksRun(run: seq<Arrival>)
    ensures Tracks(WindowAfter(EMPTY_WINDOW, run), DeliveredNumbers(run))
  {
    if run == [] {
      assert DeliveredNumbers(run) == {};
    } else {
      var n := |run| - 1;
      WindowTracksRun(run[..n]);
      DeliveredNumbersOfPrefix(run);
      HandledTracks(WindowAfter(EMPTY_WINDOW, run[..n]), DeliveredNumbers(run[..n]), run[n]);
    }
  }

  /** No number is delivered twice in a run. */
  lemma NoNumberTwice(run: seq<Arrival>, i: nat, j: nat)
    requires i < j < |run| && DeliveredAt(run, i) && DeliveredAt(run, j)
    ensures run[i].sequence != run[j].sequence
  {
    var front := run[..j];
    WindowTracksRun(front);
    assert front[..i] == run[..i];
    assert DeliveredAt(front, i) && front[i].sequence in DeliveredNumbers(front);
    AdmitsExactlyNewAndRecent(WindowAfter(EMPTY_WINDOW, front), DeliveredNumbers(front), run[j].prefix, run[j].sequence);
  }

  /** An authentic arrival with the run's prefix is delivered exactly when it is above all delivered numbers, or new and within 64 of the highest. */
  lemma DeliveredExactly(run: seq<Arrival>, i: nat)
    requires i < |run| && run[i].authentic
    ensures
      var before := DeliveredNumbers(run[..i]);
      var w := WindowAfter(EMPTY_WINDOW, run[..i]);
      && (before == {} ==> DeliveredAt(run, i))
      && (before != {} ==>
            && w.highest in before && (forall s :: s in before ==> s <= w.highest)
            && (DeliveredAt(run, i) <==>
                  && run[i].prefix == w.prefix
                  && run[i].sequence !in before
                  && run[i].sequence + WINDOW > w.highest))
  {
    WindowTracksRun(run[..i]);
    AdmitsExactlyNewAndRecent(WindowAfter(EMPTY_WINDOW, run[..i]), DeliveredNumbers(run[..i]), run[i].prefix, run[i].sequence);
  }

  // ---- The relay's fan-out window ----

  /** Fields of `FanoutReplay` for one session key and epoch; `highest` 0 means nothing accepted. */
  datatype FanoutReplay = FanoutReplay(prefix: seq<byte>, highest: nat, seen: nat)

  const EMPTY_FANOUT := FanoutReplay([], 0, 0)

  predicate FanoutAdmits(r: FanoutReplay, prefix: seq<byte>, sequence: nat)
  {
    !(r.highest != 0 &&
      (r.prefix != prefix ||
       (sequence <= r.highest && (r.highest - sequence >= WINDOW || Bit(r.seen, r.highest - sequence)))))
  }

  function FanoutCommitted(r: FanoutReplay, prefix: seq<byte>, sequence: nat): (s: FanoutReplay)
  {
    var p := if r.highest == 0 then prefix else r.prefix;
    if sequence > r.highest then
      var distance := sequence - r.highest;
      FanoutReplay(p, sequence, if distance >= WINDOW then 1 else Advanced(r.seen, distance))
    else FanoutReplay(p, r.highest, WithBit(r.seen, r.highest - sequence))
  }

  function FanoutAfter(history: seq<Arrival>): (r: FanoutReplay)
  {
    if history == [] then EMPTY_FANOUT
    else
      var x := history[|history| - 1];
      FanoutCommitted(FanoutAfter(history[..|history| - 1]), x.prefix, x.sequence)
  }

  function CommittedAfter(history: seq<Arrival>): (w: Window)
  {
    if history == [] then EMPTY_WINDOW
    else
      var x := history[|history| - 1];
      Committed(CommittedAfter(history[..|history| - 1]), x.prefix, x.sequence)
  }

  /** The two windows hold the same fields, and `highest` 0 is the relay's way of saying "not initialized". */
  ghost predicate Mirrors(r: FanoutReplay, w: Window)
  {
    && r.highest == w.highest && r.seen == w.seen && r.prefix == w.prefix
    && (w.initialized <==> r.highest != 0)
    && (!w.initialized ==> r.seen == 0)
  }

  lemma CommitKeepsMirror(r: FanoutReplay, w: Window, prefix: seq<byte>, sequence: nat)
    requires Mirrors(r, w) && sequence > 0
    ensures Mirrors(FanoutCommitted(r, prefix, sequence), Committed(w, prefix, sequence))
  {
    assert ShiftLeft(0, sequence) == 0;
    assert 0 % Pow2(WINDOW) == 0;
  }

  lemma {:induction false} FanoutMirrorsReceiver(history: seq<Arrival>)
    requires forall x :: x in history ==> x.sequence > 0
    ensures Mirrors(FanoutAfter(history), CommittedAfter(history))
  {
    if history != [] {
      var front, x := history[..|history| - 1], history[|history| - 1];
      FanoutMirrorsReceiver(front);
      CommitKeepsMirror(FanoutAfter(front), CommittedAfter(front), x.prefix, x.sequence);
    }
  }

  /** On the same committed history, from zero, both windows take the same decision on every packet. */
  lemma SameDecisions(history: seq<Arrival>, prefix: seq<byte>, sequence: nat)
    requires sequence > 0 && forall x :: x in history ==> x.sequence > 0
    ensures FanoutAdmits(FanoutAfter(history), prefix, sequence) <==> Admits(CommittedAfter(history), prefix, sequence)
  {
    FanoutMirrorsReceiver(history);
  }
}
