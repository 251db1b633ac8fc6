/**
  * The packet cipher of one member: the numbers it sends under, the receiver
  * entries it keeps per peer, and what keeping an entry is worth.
  */
module PacketCipher {
  import opened Bytes
  import opened ReplayWindow

  /** The peer's session key and overlay address; the window restarts when either changes. */
  datatype PeerKey = PeerKey(session: seq<byte>, address: nat)

  datatype Receiver = Receiver(key: PeerKey, window: Window)

  /**
    * A packet as it arrives: `sealed` is the session key and address it
    * authenticates under, if any, since both are in its key or its authenticated data.
    */
  datatype Packet = Packet(prefix: seq<byte>, sequence: nat, sealed: Option<PeerKey>)

  /** What a packet is to an entry with the given key. */
  function Seen(x: Packet, key: PeerKey): (a: Arrival)
  {
    Arrival(x.prefix, x.sequence, x.sealed == Some(key))
  }

  predicate Hears(e: Option<Receiver>, x: Packet)
  {
    e.Some? && Delivers(e.value.window, Seen(x, e.value.key))
  }

  function Heard(e: Receiver, x: Packet): (r: Receiver)
  {
    e.(window := Handled(e.window, Seen(x, e.key)))
  }

  /** One peer of an accepted peer state that may exchange traffic with this member. */
  datatype PeerEntry = PeerEntry(device: DeviceId, key: PeerKey)

  function Nonce(prefix: seq<byte>, sequence: nat): (n: seq<byte>)
    requires sequence <= MAX_SEQUENCE
  {
    prefix + Be32(sequence)
  }

  lemma NoncesDiffer(prefix: seq<byte>, s: nat, t: nat)
    requires s != t && s <= MAX_SEQUENCE && t <= MAX_SEQUENCE
    ensures Nonce(prefix, s) != Nonce(prefix, t)
  {
    var n := |prefix|;
    assert U32(Nonce(prefix, s), n) == s;
    assert U32(Nonce(prefix, t), n) == t;
  }

  /** The receiver after a peer state that lists the peer with `key`. */
  function Refreshed(old_: Option<Receiver>, key: PeerKey): (r: Receiver)
  {
    if old_.Some? && old_.value.key == key then old_.value else Receiver(key, EMPTY_WINDOW)
  }

  function Lookup(peers: map<DeviceId, Receiver>, d: DeviceId): (r: Option<Receiver>)
  {
    if d in peers then Some(peers[d]) else None
  }

  /** The first entry of a list for a device, as `emplace` keeps it. */
  function FirstFor(entries: seq<PeerEntry>, d: DeviceId): (r: Option<PeerKey>)
  {
    if entries == [] then None
    else if entries[0].device == d then Some(entries[0].key)
    else FirstFor(entries[1..], d)
  }

  lemma {:induction false} FirstForSnoc(entries: seq<PeerEntry>, e: PeerEntry, d: DeviceId)
    ensures FirstFor(entries + [e], d) ==
            if FirstFor(entries, d).Some? then FirstFor(entries, d)
            else if e.device == d then Some(e.key) else None
  {
    if entries == [] {
      assert (entries + [e])[1..] == [];
    } else {
      assert (entries + [e])[1..] == entries[1..] + [e];
      FirstForSnoc(entries[1..], e, d);
    }
  }

  /** The receiver of `d` after a state: dropped if not listed, kept if listed unchanged, else new. */
  function ReceiverAfter(old_: Option<Receiver>, listed: Option<PeerKey>): (r: Option<Receiver>)
  {
    if listed.None? then None else Some(Refreshed(old_, listed.value))
  }

  class NetworkPacketCipher {
    const prefix: seq<byte>
    var nextSequence: nat
    var peers: map<DeviceId, Receiver>

    ghost predicate Valid()
      reads this
    {
      nextSequence <= MAX_SEQUENCE
    }

    constructor (prefix: seq<byte>)
      ensures Valid() && this.prefix == prefix && nextSequence == 0 && peers == map[]
    {
      this.prefix := prefix;
      nextSequence := 0;
      peers := map[];
    }

    /** Takes the next number, and refuses when the numbers are used up. */
    method Encrypt() returns (nonce: Option<seq<byte>>)
      requires Valid()
      modifies this`nextSequence
      ensures Valid()
      ensures nonce.None? <==> old(nextSequence) == MAX_SEQUENCE
      ensures nonce.None? ==> nextSequence == old(nextSequence)
      ensures nonce.Some? ==> nextSequence == old(nextSequence) + 1 && nonce.value == Nonce(prefix, nextSequence)
    {
      if nextSequence == MAX_SEQUENCE { return None; }
      nextSequence := nextSequence + 1;
      nonce := Some(prefix + Be32(nextSequence));
    }

    /** Keeps the entries that are listed unchanged, starts new ones and drops the rest. */
    method UpdatePeers(entries: seq<PeerEntry>)
      modifies this`peers
      ensures forall d: DeviceId ::
                Lookup(peers, d) == ReceiverAfter(Lookup(old(peers), d), FirstFor(entries, d))
    {
      var updated: map<DeviceId, Receiver> := map[];
      for i := 0 to |entries|
        invariant forall d: DeviceId ::
            Lookup(updated, d) == ReceiverAfter(Lookup(peers, d), FirstFor(entries[..i], d))
      {
        var e := entries[i];
        assert entries[..i + 1] == entries[..i] + [e];
        forall d: DeviceId
          ensures FirstFor(entries[..i + 1], d) ==
                  if FirstFor(entries[..i], d).Some? then FirstFor(entries[..i], d)
                  else if e.device == d then Some(e.key) else None
        {
          FirstForSnoc(entries[..i], e, d);
        }
        if e.device !in updated {
          if e.device in peers && peers[e.device].key == e.key {
            updated := updated[e.device := peers[e.device]];
          } else {
            updated := updated[e.device := Receiver(e.key, EMPTY_WINDOW)];
          }
        }
      }
      assert entries[..|entries|] == entries;
      peers := updated;
    }

    /** Decryption under the entry's key and the address checks come before any change of state. */
    method Decrypt(sender: DeviceId, x: Packet) returns (delivered: bool)
      modifies this`peers
      ensures delivered <==> Hears(Lookup(old(peers), sender), x)
      ensures peers == if sender in old(peers) then old(peers)[sender := Heard(old(peers)[sender], x)] else old(peers)
    {
      if sender !in peers { return false; }
      var receiver := peers[sender];
      var w := receiver.window;
      if w.initialized && (w.prefix != x.prefix || !AcceptSequence(x.sequence, w.highest, w.seen)) {
        assert peers[sender := receiver] == peers;
        return false;
      }
      if x.sealed != Some(receiver.key) {
        assert peers[sender := receiver] == peers;
        return false;
      }
      if !w.initialized {
        w := Window(true, x.prefix, x.sequence, 1);
      } else if x.sequence > w.highest {
        var distance := x.sequence - w.highest;
        w := w.(seen := if distance >= WINDOW then 1 else Advanced(w.seen, distance));
        w := w.(highest := x.sequence);
      } else {
        w := w.(seen := WithBit(w.seen, w.highest - x.sequence));
      }
      peers := peers[sender := receiver.(window := w)];
      return true;
    }
  }

  // ---- One entry along a run of states and packets ----

  datatype Event = Arrives(packet: Packet) | State(listed: Option<PeerKey>)

  function EntryAfter(start: Option<Receiver>, run: seq<Event>): (r: Option<Receiver>)
  {
    if run == [] then start
    else
      var e := EntryAfter(start, run[..|run| - 1]);
      match run[|run| - 1]
      case State(listed) => ReceiverAfter(e, listed)
      case Arrives(x) => if e.None? then None else Some(Heard(e.value, x))
  }

  function Arrivals(run: seq<Event>, key: PeerKey): (a: seq<Arrival>)
  {
    if run == [] then []
    else
      Arrivals(run[..|run| - 1], key) +
      match run[|run| - 1]
      case State(_) => []
      case Arrives(x) => [Seen(x, key)]
  }

  /** While every state lists the peer unchanged, the window runs on as if there were no states. */
  lemma {:induction false} RetainedEntryIsOneWindow(key: PeerKey, run: seq<Event>)
    requires forall e :: e in run && e.State? ==> e.listed == Some(key)
    ensures EntryAfter(Some(Receiver(key, EMPTY_WINDOW)), run) ==
            Some(Receiver(key, WindowAfter(EMPTY_WINDOW, Arrivals(run, key))))
  {
    if run != [] {
      var front, last := run[..|run| - 1], run[|run| - 1];
      RetainedEntryIsOneWindow(key, front);
      if last.Arrives? {
        var a := Arrivals(front, key);
        assert Arrivals(run, key) == a + [Seen(last.packet, key)];
        assert (a + [Seen(last.packet, key)])[..|a|] == a;
      } else {
        assert Arrivals(run, key) == Arrivals(front, key);
      }
    }
  }

  // ---- When a packet is heard twice ----

  /** Whether event `i` of a run delivers a packet. */
  predicate HeardAt(start: Option<Receiver>, run: seq<Event>, i: nat)
    requires i < |run|
  {
    run[i].Arrives? && Hears(EntryAfter(start, run[..i]), run[i].packet)
  }

  ghost predicate Sound(e: Option<Receiver>)
  {
    e.Some? ==> exists accepted :: Tracks(e.value.window, accepted)
  }

  /** The entry is for `key` and has accepted the number. */
  ghost predicate Remembers(e: Option<Receiver>, key: PeerKey, sequence: nat)
  {
    e.Some? && e.value.key == key && exists accepted :: Tracks(e.value.window, accepted) && sequence in accepted
  }

  lemma HeardTracks(e: Receiver, x: Packet, accepted: set<nat>)
    requires Tracks(e.window, accepted)
    ensures Tracks(Heard(e, x).window, accepted + (if Hears(Some(e), x) then {x.sequence} else {}))
  {
    HandledTracks(e.window, accepted, Seen(x, e.key));
  }

  lemma {:induction false} EntryIsSound(start: Option<Receiver>, run: seq<Event>)
    requires Sound(start)
    ensures Sound(EntryAfter(start, run))
  {
    if run != [] {
      var front, last := run[..|run| - 1], run[|run| - 1];
      EntryIsSound(start, front);
      var e := EntryAfter(start, front);
      if last.Arrives? && e.Some? {
        var accepted :| Tracks(e.value.window, accepted);
        HeardTracks(e.value, last.packet, accepted);
      }
      assert Tracks(EMPTY_WINDOW, {});
    }
  }

  lemma RemembersStep(e: Option<Receiver>, key: PeerKey, sequence: nat, x: Packet)
    requires Remembers(e, key, sequence)
    ensures Remembers(Some(Heard(e.value, x)), key, sequence)
    ensures x.sequence == sequence ==> !Hears(e, x)
  {
    var accepted :| Tracks(e.value.window, accepted) && sequence in accepted;
    HeardTracks(e.value, x, accepted);
    AdmitsExactlyNewAndRecent(e.value.window, accepted, x.prefix, x.sequence);
  }

  /** From a delivery at `i` on, an entry that every state keeps remembers the number. */
  lemma {:induction false} KeptEntryRemembers(start: Option<Receiver>, run: seq<Event>, i: nat, key: PeerKey)
    requires Sound(start) && i < |run| && HeardAt(start, run, i) && run[i].packet.sealed == Some(key)
    requires forall m :: i < m < |run| && run[m].State? ==> run[m].listed == Some(key)
    ensures Remembers(EntryAfter(start, run), key, run[i].packet.sequence)
    decreases |run|
  {
    var front, last := run[..|run| - 1], run[|run| - 1];
    var sequence := run[i].packet.sequence;
    if i == |run| - 1 {
      EntryIsSound(start, front);
      var e := EntryAfter(start, front).value;
      var accepted :| Tracks(e.window, accepted);
      HeardTracks(e, last.packet, accepted);
    } else {
      assert front[..i] == run[..i];
      KeptEntryRemembers(start, front, i, key);
      if last.Arrives? {
        RemembersStep(EntryAfter(start, front), key, sequence, last.packet);
      }
    }
  }

  /** Over every run: a number is delivered again under one key only across a state that did not list that key. */
  lemma RedeliveryNeedsADrop(start: Option<Receiver>, run: seq<Event>, i: nat, j: nat)
    requires Sound(start) && i < j < |run| && HeardAt(start, run, i) && HeardAt(start, run, j)
    requires run[i].packet.sealed == run[j].packet.sealed && run[i].packet.sequence == run[j].packet.sequence
    ensures exists m :: i < m < j && run[m].State? && run[m].listed != run[i].packet.sealed
  {
    var key := run[i].packet.sealed.value;
    if forall m :: i < m < j && run[m].State? ==> run[m].listed == Some(key) {
      var front := run[..j];
      assert front[..i] == run[..i];
      KeptEntryRemembers(start, front, i, key);
      RemembersStep(EntryAfter(start, front), key, run[i].packet.sequence, run[j].packet);
      assert false;
    }
  }

  /** The events of peer states alone. */
  function States(listings: seq<Option<PeerKey>>): (run: seq<Event>)
  {
    seq(|listings|, i requires 0 <= i < |listings| => State(listings[i]))
  }

  /** Some state did not list the peer under the key, and the last one does. */
  predicate DroppedAndRelisted(listings: seq<Option<PeerKey>>, key: PeerKey)
  {
    listings != [] && listings[|listings| - 1] == Some(key) && exists i :: 0 <= i < |listings| && listings[i] != Some(key)
  }

  lemma {:induction false} EntryAfterStates(e: Receiver, listings: seq<Option<PeerKey>>)
    ensures (forall i :: 0 <= i < |listings| ==> listings[i] == Some(e.key)) ==> EntryAfter(Some(e), States(listings)) == Some(e)
    ensures DroppedAndRelisted(listings, e.key) ==> EntryAfter(Some(e), States(listings)) == Some(Receiver(e.key, EMPTY_WINDOW))
    ensures listings != [] ==>
      var r := EntryAfter(Some(e), States(listings)); listings[|listings| - 1] == if r.None? then None else Some(r.value.key)
  {
    if listings != [] {
      var front, last := listings[..|listings| - 1], listings[|listings| - 1];
      EntryAfterStates(e, front);
      assert States(listings)[..|listings| - 1] == States(front);
      assert States(listings) == States(front) + [State(last)];
      if (exists i :: 0 <= i < |front| && front[i] != Some(e.key)) && last == Some(e.key) {
        var i :| 0 <= i < |front| && front[i] != Some(e.key);
        assert listings[i] != Some(e.key);
      }
    }
  }

  /**
    * A delivered packet is delivered again after a series of peer states exactly
    * when one of them did not list the sender under the packet's own key and
    * address and the last one does.
    */
  lemma RedeliveredExactly(e: Receiver, x: Packet, listings: seq<Option<PeerKey>>)
    requires Sound(Some(e)) && Hears(Some(e), x)
    ensures Hears(EntryAfter(Some(Heard(e, x)), States(listings)), x) <==> DroppedAndRelisted(listings, e.key)
  {
    var kept := Heard(e, x);
    EntryAfterStates(kept, listings);
    var accepted :| Tracks(e.window, accepted);
    HeardTracks(e, x, accepted);
    RemembersStep(Some(kept), e.key, x.sequence, x);
  }

  /** A number delivered twice: the peer is left out of one state and listed again as before. */
  lemma RelistedPeerIsHeardTwice(key: PeerKey, prefix: seq<byte>, sequence: nat)
    ensures var x := Arrives(Packet(prefix, sequence, Some(key)));
      var run := [State(Some(key)), x, State(None), State(Some(key)), x];
      HeardAt(None, run, 1) && HeardAt(None, run, 4)
  {
    var x := Arrives(Packet(prefix, sequence, Some(key)));
    var run := [State(Some(key)), x, State(None), State(Some(key)), x];
    assert run[..1][..0] == [] && run[..1] == [State(Some(key))];
    assert EntryAfter(None, run[..1]) == Some(Receiver(key, EMPTY_WINDOW));
    assert run[..4][..3] == run[..3] && run[..3][..2] == run[..2];
    assert EntryAfter(None, run[..3]) == None;
  }
}
