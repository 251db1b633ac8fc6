/**
  * The candidate offer/answer exchange of a peer path: one process numbers the
  * attempts of all its peer entries with a single counter, offers its candidates
  * under the current number, and answers an offer by naming the offer's number.
  */
module Negotiation {
  import opened Bytes

  /** The negotiation fields of one `Peer` entry. */
  datatype Link = Link(
    local: nat,         // binding.local_generation
    peer: nat,          // binding.peer_generation, 0 until the peer is known
    responseTo: nat,    // response_to_generation, 0 for an offer
    published: bool,
    waiting: bool,      // waiting_for_answer
    reachable: bool)    // at least one local candidate

  /** What one process knows about one peer: its counter and its entry. */
  datatype Side = Side(generation: nat, link: Option<Link>)

  datatype Message = Message(generation: nat, responseTo: nat)

  /** A new attempt: the next number, no peer number, no answer owed. */
  function Prepared(s: Side, reachable: bool): (r: Side)
  {
    Side(s.generation + 1, Some(Link(s.generation + 1, 0, 0, false, true, reachable)))
  }

  /** Another entry of the same process took the next number. */
  function Bumped(s: Side): (r: Side)
  {
    s.(generation := s.generation + 1)
  }

  /** An offer accepted: a new attempt whose first message will answer `m`. */
  function Answering(s: Side, m: Message, reachable: bool): (r: Side)
  {
    var n := s.generation + 1;
    Side(n, Some(Link(n, m.generation, m.generation, false, false, reachable)))
  }

  /**
    * One candidate message handled by the entry. `first` says that the local
    * device identifier precedes the peer's, which decides crossed offers;
    * `reachable` is the outcome of gathering candidates if a new attempt starts.
    */
  function Received(s: Side, m: Message, first: bool, reachable: bool): (r: Side)
  {
    if s.link.None? || m.generation <= s.link.value.peer || !s.link.value.reachable then s
    else
      var l := s.link.value;
      if m.responseTo == 0 then
        if l.waiting && first then
          if l.published
          then Side(s.generation + 1, Some(l.(local := s.generation + 1, published := false)))
          else s
        else Answering(s, m, reachable)
      else if !l.waiting || m.responseTo != l.local then s
      else s.(link := Some(l.(waiting := false, peer := m.generation)))
  }

  /** The entry may send its current message when it has candidates and has not sent it yet. */
  predicate CanPublish(s: Side)
  {
    s.link.Some? && s.link.value.reachable && !s.link.value.published
  }

  function Current(l: Link): (m: Message)
  {
    Message(l.local, l.responseTo)
  }

  /** The identity of an attempt as both ends must see it (the network, the key epoch and the sessions are fixed). */
  datatype PeerBinding = PeerBinding(localDevice: DeviceId, peerDevice: DeviceId,
                                     localGeneration: nat, peerGeneration: nat)
  {
    function Reversed(): (r: PeerBinding)
      ensures r.Swaps(this) && this.Swaps(r)
    {
      PeerBinding(peerDevice, localDevice, peerGeneration, localGeneration)
    }

    predicate Swaps(other: PeerBinding) {
      && localDevice == other.peerDevice && peerDevice == other.localDevice
      && localGeneration == other.peerGeneration && peerGeneration == other.localGeneration
    }
  }

  /**
    * The process: a counter shared by all entries and the entries by peer.
    * Every operation moves the entry it names by the function above it and is
    * seen by every other entry at most as one taken number.
    */
  class PeerPacketPath {
    const identity: DeviceId
    var generation: nat
    var peers: map<DeviceId, Link>

    constructor (identity: DeviceId)
      ensures this.identity == identity && generation == 0 && peers == map[]
    {
      this.identity := identity;
      generation := 0;
      peers := map[];
    }

    ghost function SideOf(peer: DeviceId): (s: Side)
      reads this
    {
      Side(generation, if peer in peers then Some(peers[peer]) else None)
    }

    twostate predicate OthersSeeAtMostABump(peer: DeviceId)
      reads this
    {
      forall other: DeviceId :: other != peer ==>
        SideOf(other) == old(SideOf(other)) || SideOf(other) == Bumped(old(SideOf(other)))
    }

    /** `create` and `prepare`: both start a new attempt for the entry. */
    method Prepare(peer: DeviceId, reachable: bool)
      modifies this
      ensures SideOf(peer) == Prepared(old(SideOf(peer)), reachable)
      ensures OthersSeeAtMostABump(peer)
    {
      generation := generation + 1;
      peers := peers[peer := Link(generation, 0, 0, false, true, reachable)];
    }

    method Erase(peer: DeviceId)
      modifies this
      ensures SideOf(peer) == old(SideOf(peer)).(link := None)
      ensures OthersSeeAtMostABump(peer)
    {
      peers := peers - {peer};
    }

    /** One turn of the candidate loop of `update`. */
    method HandleCandidate(peer: DeviceId, x: Message, reachable: bool)
      modifies this
      ensures SideOf(peer) == Received(old(SideOf(peer)), x, Before(identity, peer), reachable)
      ensures OthersSeeAtMostABump(peer)
    {
      if peer !in peers { return; }
      var p := peers[peer];
      if x.generation <= p.peer || !p.reachable { return; }
      if x.responseTo == 0 {
        if p.waiting && Before(identity, peer) {
          if p.published {
            generation := generation + 1;
            peers := peers[peer := p.(local := generation, published := false)];
          }
          return;
        }
        Prepare(peer, reachable);
        p := peers[peer].(responseTo := x.generation, waiting := false);
      } else {
        if !p.waiting || x.responseTo != p.local { return; }
        p := p.(waiting := false);
      }
      peers := peers[peer := p.(peer := x.generation)];
    }

    /** The publish step of `update`: `sent` is what the relay client reported. */
    method Publish(peer: DeviceId, sent: bool) returns (message: Option<Message>)
      modifies this
      ensures message.Some? <==> CanPublish(old(SideOf(peer)))
      ensures message.Some? ==>
                && message.value == Current(old(peers)[peer])
                && SideOf(peer) == old(SideOf(peer)).(link := Some(old(peers)[peer].(published := sent)))
      ensures message.None? ==> SideOf(peer) == old(SideOf(peer))
      ensures OthersSeeAtMostABump(peer)
    {
      message := None;
      if peer in peers && peers[peer].reachable && !peers[peer].published {
        message := Some(Message(peers[peer].local, peers[peer].responseTo));
        peers := peers[peer := peers[peer].(published := sent)];
      }
    }
  }
}
