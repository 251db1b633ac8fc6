# LanLink in Dafny

LanLink is a virtual LAN: clients, a relay that owns membership and key epochs,
and direct paths between members negotiated through the relay. This project
models the parts of it whose correctness is not visible in any one function and
proves what they promise, for every input and every run.

- **Negotiation, NegotiationRuns, NegotiationConvergence, NegotiationProgress**: the
  candidate offer/answer exchange as two processes and a relay over a network that
  loses and reorders. Safety (the two bindings are exact reverses) holds over every
  run; over a reliable relay every run that comes to rest has connected, and a run
  without new attempts comes to rest.
- **ReplayWindow, PacketCipher**: both anti-replay windows refine the unbounded
  set of accepted sequence numbers.
- **Checksum, Ipv4Options, Ipv4, Fragmentation, IcmpReply**: RFC 1071 and RFC 791
  on octets. Fragments are proved through an algebra of datagrams: what
  `fragment_ipv4` writes is read back as slices of what it was given.
- **Ipv4Fanout, Tunnels**: the Ethernet and routed IPv4 encapsulations.
- **FrameCodec, StreamDecoder**: frames, and a decoder that must not notice how
  its input was cut.
- **ForwardingQuota**: three levels of token buckets, with `double` as `real`.
- **Policy, PolicyCodec**: who may talk to whom, routed subnets, and the stored
  form of a policy.
- **Relay, RelayPolicies, RelayRuns, RelaySafety, RelayAnswers, RelayRevisions,
  RelayScenarios, RelayService**: the relay's control plane as a state machine over all
  its networks. `Relay` holds the steps, `RelayRuns` the invariant, `RelaySafety` what
  follows over runs, `RelayAnswers` exactly when each request is granted,
  `RelayRevisions` that no change of what members are told goes unnumbered,
  `RelayScenarios` runs that reach what the theorems are about, `RelayService` the
  object whose methods take the steps.
- **Connectivity, Multicast, NetworkName**: the ICE-style checklist, IGMP
  membership and the UTF-8 name check.
- **Bytes, Arithmetic**: octets, big-endian integers, powers of two.

Objects whose methods update fields are classes; each method's postcondition
equates the new state with a function of the old one, and the theorems are about
those functions. Thrown exceptions are `Failure` or a refusing code. Clocks,
randomness, cryptography and admission decisions of other components are
parameters of the step that uses them.

`dafny verify dfyconfig.toml` checks the whole project.

## Findings

- The first `advance_key_epoch` of a network gives 1, which is also what
  `key_epoch_for` returns without an entry (src/relay/network_service.cpp:1100-1111).
  An epoch therefore moves exactly when it has an entry (`EpochMovesExactly`,
  `FirstChangeIsInvisible`); the
  promise that old envelopes die holds because a publication needs a connected
  owner and a connected owner's networks have entries.
- An IGMP ALLOW or BLOCK for a group that is received by default and has no live
  entry starts from "nothing" and not from "everything"
  (src/network/multicast.cpp:62-67), so it stops sources it does not mention.
  `RecordsAreFollowedExactly` gives the exact condition.
- A sequence number can be delivered twice to a member. `update_peers` keeps a
  window only while every state lists the peer (src/auth/packet_crypto.cpp:253-275),
  and the relay leaves out the key of a peer that stops being management-capable
  (src/relay/network_service.cpp:1126-1129). Left out of one state and listed again
  under the same key in the same epoch, the peer gets an empty window
  (`RelistedPeerIsHeardTwice`). `RedeliveredExactly` gives the exact condition.
- Roles change without the owner in exactly one way: an administrator who leaves or
  is revoked is a plain member afterwards (src/storage/relay_store.cpp:733;
  `OnlyTheOwnerChangesRoles`, `AdministratorLeaves`).
- Pair priorities overflow 64 bits for exactly one pair of 32-bit priorities,
  which gathered candidates never have.

## Model

| member | source | states |
|---|---|---|
| `Negotiation.PeerPacketPath.Prepare` | src/session/peer_packet_path.cpp:83-98 | a new attempt takes the next number for its entry; every other entry sees at most one taken number |
| `Negotiation.PeerPacketPath.Erase` | src/session/peer_packet_path.cpp:102-110 | dropping an entry leaves the counter and all other entries alone |
| `Negotiation.PeerPacketPath.HandleCandidate` | src/session/peer_packet_path.cpp:131-148 | one candidate message moves the entry exactly by the offer/answer/glare rules, other entries at most lose a number |
| `Negotiation.PeerPacketPath.Publish` | src/session/peer_packet_path.cpp:167-172 | the message sent carries the entry's current numbers, and the entry remembers what the client reported |
| `NegotiationRuns.StepKeepsGood` | src/session/peer_packet_path.cpp:83-172 | every step of either process, of the relay and of a lossy, reordering network keeps the joint invariant |
| `NegotiationRuns.RunIsGood` | src/session/peer_packet_path.cpp:83-172 | the invariant holds after every run, from two processes that start at zero |
| `NegotiationRuns.BindingsAreReversed` | src/session/peer_packet_path.cpp:131-148 | in every run, if A holds B's current number and B holds any number for A, the two bindings are exact reverses, after glare, repeated offers and new attempts alike |
| `NegotiationRuns.RepeatedOfferBreaksAgreement` | src/relay/network_control_channel.cpp:260-266 | without the relay's rule that a number is forwarded at most once the agreement fails: a concrete repeated offer breaks it |
| `NegotiationConvergence.RelayKeepsOrder` | src/relay/network_control_channel.cpp:260-266 | when nothing is lost the generation filter stops no message, and the queues stay in order |
| `NegotiationConvergence.ReliableRunIsOrdered` | src/session/peer_packet_path.cpp:131-172 | over a reliable first-in-first-out relay every run keeps the ordering and progress invariant |
| `NegotiationConvergence.QuietIsConnected` | src/session/peer_packet_path.cpp:131-172 | a reliable run that comes to rest with both messages sent has connected both ends to each other's current numbers |
| `NegotiationProgress.DeliveryLowers` | src/session/peer_packet_path.cpp:131-172 | sending, forwarding or handling a message lowers a potential that counts what each message can still cause, glare included |
| `NegotiationProgress.DeliveryIsBounded` | src/session/peer_packet_path.cpp:131-172 | without new attempts no run delivers more often than the potential it starts with |
| `NegotiationProgress.DeliveryConnects` | src/session/peer_packet_path.cpp:131-172 | from every state of a reliable run with candidates at both ends, delivering without new attempts stops after boundedly many actions, and where it stops both ends are connected |
| `NegotiationProgress.ConnectionIsReached` | src/session/peer_packet_path.cpp:131-172 | such a run exists from every such state |
| `NegotiationProgress.CrossedOffersConnect` | src/session/peer_packet_path.cpp:131-140 | two ends whose first offers cross connect within eighteen actions |
| `ReplayWindow.AdmitsExactlyNewAndRecent` | src/auth/packet_crypto.cpp:206-214 | with a window that tracks a set, a number is accepted exactly when it is above the highest or is new and within 64 of it, under the same nonce prefix |
| `ReplayWindow.CommittedTracks` | src/auth/packet_crypto.cpp:366-380 | moving the window by the source's shift and mask keeps bit i set exactly when highest - i was accepted, for every i below 64 |
| `ReplayWindow.WindowTracksRun` | src/auth/packet_crypto.cpp:340-380 | after every run of arrivals, authentic or not, the 64-bit map is exactly the set of delivered numbers near the highest |
| `ReplayWindow.NoNumberTwice` | src/auth/packet_crypto.cpp:340-380 | no number is delivered twice in a run |
| `ReplayWindow.DeliveredExactly` | src/auth/packet_crypto.cpp:340-380 | which arrivals of a run are delivered, in terms of the numbers delivered before and not of the bitmap |
| `ReplayWindow.FanoutMirrorsReceiver` | src/relay/network_service.cpp:548-597 | the relay's fan-out window, whose zero means empty, holds the same fields as a member's window on the same history |
| `ReplayWindow.SameDecisions` | src/relay/network_service.cpp:551-553 | both windows take the same decision on every packet after the same committed history |
| `PacketCipher.NoncesDiffer` | src/auth/packet_crypto.cpp:298-311 | two different sequence numbers never give the same nonce under one prefix |
| `PacketCipher.NetworkPacketCipher.Encrypt` | src/auth/packet_crypto.cpp:298-311 | numbers are handed out one after another, each in its nonce, and the last one is refused rather than wrapped |
| `PacketCipher.NetworkPacketCipher.UpdatePeers` | src/auth/packet_crypto.cpp:244-275 | a peer listed unchanged keeps its window, a changed or new one starts empty, an unlisted one is dropped |
| `PacketCipher.NetworkPacketCipher.Decrypt` | src/auth/packet_crypto.cpp:333-380 | a packet is delivered exactly when its sender is known, the window admits it and it authenticates under the entry's own session key and address; nothing else changes the window |
| `PacketCipher.RetainedEntryIsOneWindow` | src/auth/packet_crypto.cpp:244-275 | while every state lists a peer unchanged its window runs on as if there had been no states |
| `PacketCipher.RedeliveryNeedsADrop` | src/auth/packet_crypto.cpp:253-275 | over every run of packets and peer states, a number is delivered twice under one key only if a state in between did not list the sender under that key and address |
| `PacketCipher.RedeliveredExactly` | src/auth/packet_crypto.cpp:253-275 | a delivered packet is delivered again after a series of peer states if and only if one of them did not list the sender under the packet's own key and address and the last one does |
| `PacketCipher.RelistedPeerIsHeardTwice` | src/auth/packet_crypto.cpp:262-272 | the concrete run: a peer left out of one state and listed again as before takes the same packet twice |
| `Checksum.FoldIsRemainder` | src/protocol/ipv4.cpp:42 | folding carries is the remainder modulo 65535, with 65535 for a non-zero multiple |
| `Checksum.ChecksumIsZeroExactly` | src/protocol/ipv4.cpp:36-44 | a checksum is zero exactly when the 16-bit words add up to a non-zero multiple of 65535 |
| `Checksum.ComputeChecksum` | src/protocol/ipv4.cpp:36-44 | the two loops in a 32-bit accumulator compute the internet checksum of up to 131072 octets |
| `Checksum.WrittenChecksumVerifies` | src/protocol/ipv4.cpp:112 | a checksum written into its zeroed field makes any octets verify |
| `Checksum.UpdatedHeaderVerifies` | src/protocol/ipv4.cpp:45-51 | after the update the header's checksum is zero, for every header content |
| `Checksum.UpdateChecksum` | src/protocol/ipv4.cpp:45-51 | the in-place update changes the two checksum octets and nothing else, and refuses a buffer without a whole header |
| `Ipv4Options.CopiedOptionsFit` | src/protocol/ipv4.cpp:19-33 | copied options are never longer than the option area they come from |
| `Ipv4Options.KeptExactly` | src/protocol/ipv4.cpp:19-33 | written as a list of options, an area up to its end marker is read back, and of that list exactly the options with the copied flag are kept, in order |
| `Ipv4Options.AcceptedIsWritten` | src/protocol/ipv4.cpp:20-30 | every accepted option area is such a list of options and an optional end marker |
| `Ipv4Options.CopyingIsIdempotent` | src/protocol/ipv4.cpp:19-33 | copying the padded output again gives the same octets |
| `Ipv4Options.CollectOptions` | src/protocol/ipv4.cpp:20-30 | the option walk keeps exactly the options with the copied bit, in order, and fails on exactly the malformed areas |
| `Ipv4Options.CopyOptions` | src/protocol/ipv4.cpp:19-33 | the walk and the padding loop give the copied options of the header |
| `Ipv4.InspectIpv4` | src/protocol/ipv4.cpp:52-68 | a packet is accepted exactly when it meets every header, option and fragment bound, with the fields read from it |
| `Ipv4.InspectedExactly` | src/protocol/ipv4.cpp:52-68 | acceptance and every field read, as conditions on octet positions: version, lengths, time to live, checksum, options, reserved and don't-fragment flags, empty and unaligned fragments, and the end of the datagram |
| `Ipv4.BuildFragment` | src/protocol/ipv4.cpp:82-91 | each fragment built is accepted by inspection and is the slice of the packet at its offset |
| `Ipv4.BuildFragments` | src/protocol/ipv4.cpp:76-93 | the loop ends, never reaches its error, and yields fragments within the MTU that cover the payload; every piece but the last is as large as the MTU lets it be, and their number is the least that is enough |
| `Ipv4.FragmentIpv4` | src/protocol/ipv4.cpp:70-94 | for every accepted packet and every MTU from 68: the exact error cases, and otherwise pieces within the MTU, all accepted, that are together the fragments of the packet; a packet that fits stays as it is, of another every piece but the last could not take 8 octets more, and the number of pieces follows from the payload, the MTU and the two header sizes |
| `Fragmentation.FragmentsReassemble` | src/protocol/ipv4.cpp:77-92 | payloads concatenate to the original, offsets are where the pieces before end, only the last piece has the original's more-fragments bit, the first piece has all options and every later one exactly the copied ones |
| `Fragmentation.SliceOfSlice` | src/protocol/ipv4.cpp:70-94 | a fragment of a fragment is a fragment of the original |
| `Fragmentation.RefragmentingIsFragmenting` | src/protocol/ipv4.cpp:70-94 | cutting every piece again, at any other sizes, still gives fragments of the original: same payload, same offsets, same copied options |
| `Ipv4.FragmentTwice` | src/protocol/ipv4.cpp:70-94 | on octets: fragmenting at one MTU and every piece again at another fails in exactly the expected cases, and otherwise yields fragments of the original packet within the second MTU |
| `IcmpReply.ReplyIsValid` | src/protocol/ipv4.cpp:96-115 | an answer is accepted by inspection, goes from the router to the sender, carries the MTU and the quote under a checksum that verifies, and is never answered itself |
| `IcmpReply.AnsweredExactly` | src/protocol/ipv4.cpp:96-104 | an accepted packet is answered if and only if it must not be fragmented, is a first fragment, all three addresses are unicast, and it is not an ICMP error itself |
| `IcmpReply.BuildReply` | src/protocol/ipv4.cpp:96-115 | the reply built octet by octet is that answer; invalid packets fail, others that may not be answered get none |
| `Ipv4Fanout.HostIsInside` | include/lanlink/protocol/ipv4_fanout.hpp:13-20 | a host address lies strictly between the first and the last address of its subnet and below 224.0.0.0 |
| `Tunnels.TunnelledIsAccepted` | src/network/ethernet.cpp:92-103 | every tunnelled frame is a packet inspection accepts |
| `Tunnels.FrameIsFromSender` | src/network/ethernet.cpp:29-77 | an accepted frame carries the sender's hardware address and, in its IPv4 header or its ARP fields, the sender's own address; it is for everyone exactly with a broadcast or a matching multicast hardware address, and otherwise for the host that both layers name |
| `Tunnels.FrameAcceptedExactly` | src/network/ethernet.cpp:29-77 | a frame is accepted if and only if its size, source, type, ARP or IPv4 fields and destination meet the listed conditions |
| `Tunnels.EthernetRoundTrip` | src/network/ethernet.cpp:88-121 | every frame an adapter accepts comes out unchanged at its target, or at every host of the subnet if it is for everyone, and is refused anywhere else |
| `Tunnels.DecapsulatedWasValid` | src/network/ethernet.cpp:105-121 | a frame that comes out was valid for the sender and target its packet names, carries that sender's hardware address, and survives another trip |
| `Tunnels.EncapsulateFrame` | src/network/ethernet.cpp:88-103 | filling the buffer field by field gives the tunnelled packet, or the same refusal |
| `Tunnels.RoutedRoundTrip` | src/network/routed_network.cpp:38-50 | an inner packet goes in exactly when it is valid and at most 65515 octets, and then comes out unchanged |
| `Tunnels.RoutedWasValid` | src/network/routed_network.cpp:46-50 | what comes out of a routed tunnel could have gone in |
| `Tunnels.EncapsulateRoutedIpv4` | src/network/routed_network.cpp:38-45 | the header filled in place with the packet behind it is the encapsulation, or the same refusal |
| `FrameCodec.AppendInteger` | src/protocol/codec.cpp:13-20 | appends the big-endian octets of a value |
| `FrameCodec.EncodeFrame` | src/protocol/codec.cpp:148-167 | a frame of known type and permitted size becomes its wire form, any other is refused |
| `FrameCodec.BadExactly` | src/protocol/codec.cpp:169-196 | the four errors of decoding, each as a condition on octet positions, in the order in which they are found |
| `FrameCodec.DecodeOfWire` | src/protocol/codec.cpp:169-211 | whatever follows, an encoded frame is decoded to itself and exactly its octets are consumed |
| `FrameCodec.WireOfDecoded` | src/protocol/codec.cpp:169-211 | octets that decode are the encoding of the frame they decode to |
| `FrameCodec.PrefixNeedsMore` | src/protocol/codec.cpp:170-202 | every proper prefix of an encoding asks for more data |
| `FrameCodec.VerdictIsStable` | src/protocol/codec.cpp:169-211 | more input never changes a verdict that was reached |
| `StreamDecoder.ScanResumes` | src/protocol/stream_decoder.cpp:30-46 | scanning may stop anywhere and resume from what it left unread |
| `StreamDecoder.FrameStreamDecoder.TakeFrames` | src/protocol/stream_decoder.cpp:30-46 | the inner loop returns the frames a whole scan of the unread octets finds and leaves its rest |
| `StreamDecoder.FrameStreamDecoder.Compact` | src/protocol/stream_decoder.cpp:48-55 | compaction does not change the unread octets |
| `StreamDecoder.FrameStreamDecoder.Push` | src/protocol/stream_decoder.cpp:12-59 | before an error a push returns the frames of unread and new octets and keeps less than one maximum frame, so the size error is unreachable; after an error every non-empty push fails |
| `StreamDecoder.FrameStreamDecoder.Reset` | src/protocol/stream_decoder.cpp:61-64 | a reset decoder has nothing unread and works again |
| `StreamDecoder.FrameStreamDecoder.BufferedSize` | src/protocol/stream_decoder.cpp:66-68 | the number of unread octets |
| `StreamDecoder.ChunksDoNotMatter` | src/protocol/stream_decoder.cpp:12-59 | pushing chunks is scanning their concatenation |
| `StreamDecoder.EveryChunkingReturnsTheFrames` | src/protocol/stream_decoder.cpp:12-59 | however the octets of frames and a proper prefix are cut, the chunks return exactly the frames in order and leave the prefix unread |
| `StreamDecoder.PushChunks` | src/protocol/stream_decoder.cpp:12-59 | the object, fed chunk by chunk, does what the specification of whole streams says |
| `ForwardingQuota.RefillReachesLevel` | src/relay/forwarding_quota.cpp:17-28 | a refill brings a bucket to the level it has by then earned, never above two seconds' worth |
| `ForwardingQuota.ExpiredIsFull` | src/relay/forwarding_quota.cpp:31 | a bucket idle for over five minutes is as full as a new one |
| `ForwardingQuota.PruneKeepsLevels` | src/relay/forwarding_quota.cpp:29-33 | pruning changes no account's level |
| `ForwardingQuota.AcceptedExactly` | src/relay/forwarding_quota.cpp:34-57 | a request is accepted exactly when it is well formed, the maps have room and every account it charges can pay |
| `ForwardingQuota.DeliveryExactly` | src/relay/forwarding_quota.cpp:40-57 | a delivery is accepted if and only if it has an octet, 1 to 4096 recipients and a product within 64 bits, both maps have room or an entry, and device, network and authority each hold size times recipients octets and one delivery a recipient |
| `ForwardingQuota.ControlExactly` | src/relay/forwarding_quota.cpp:34-39 | a control request is accepted if and only if the device has an entry or room and one request left |
| `ForwardingQuota.ChargeMeans` | src/relay/forwarding_quota.cpp:34-57 | what an accepted request costs each account in each of the three resources |
| `ForwardingQuota.WaitingEarns` | src/relay/forwarding_quota.cpp:17-28 | waiting earns the rate for the time waited, up to two seconds' worth; a fresh account is full |
| `ForwardingQuota.PrunedExactly` | src/relay/forwarding_quota.cpp:29-33 | which entries a pruning drops and when the next one is due |
| `ForwardingQuota.ChargedExactly` | src/relay/forwarding_quota.cpp:34-57 | an accepted request takes its cost from its device, its network and the authority, a refused one takes nothing, and no other account moves |
| `ForwardingQuota.RunBalance` | src/relay/forwarding_quota.cpp:17-57 | over a run, what was admitted plus what is left is at most what was there plus what was earned |
| `ForwardingQuota.IntervalIsBounded` | src/relay/forwarding_quota.cpp:17-57 | after any history, an interval of length T admits at most 2R + R*T, for every device, every network and the authority, in octets, deliveries and control requests at once |
| `ForwardingQuota.PruningIsInvisible` | src/relay/forwarding_quota.cpp:29-33 | a whole run is answered as by a quota that never forgets a bucket, as long as that one's maps never fill up |
| `ForwardingQuota.ForwardingQuota.Prune` | src/relay/forwarding_quota.cpp:29-33 | drops exactly the expired buckets, at most every thirty seconds |
| `ForwardingQuota.ForwardingQuota.Control` | src/relay/forwarding_quota.cpp:34-39 | answers and moves the state as one control request, and counts the refusals |
| `ForwardingQuota.ForwardingQuota.Admit` | src/relay/forwarding_quota.cpp:40-57 | answers and moves the state as one delivery request, and the metrics follow the answer |
| `Policy.ContainsIsRange` | src/protocol/network_policy.cpp:29-31 | a canonical subnet contains the addresses from its own up to the next block |
| `Policy.OverlapIsSharing` | src/protocol/network_policy.cpp:32-35 | two canonical subnets overlap exactly when some address is in both |
| `Policy.RoutedIsPrivate` | src/protocol/network_policy.cpp:36-40 | every address of a subnet that may be routed is private, and the subnet is canonical with 8 to 30 bits |
| `Policy.PrivateIsRouted` | src/protocol/network_policy.cpp:36-40 | conversely every canonical subnet of such a size with only private addresses may be routed |
| `Policy.PolicyAllows` | src/protocol/network_policy.cpp:57-72 | the loop with its early return decides exactly: distinct real devices, permitted by the topology, some rule applies and every applying rule allows |
| `Policy.GroupMeans` | src/protocol/network_policy.cpp:45-48 | the group of a device is the one of its first entry, and the default one without an entry |
| `Policy.GroupRule` | src/protocol/network_policy.cpp:25-27 | a rule between two named groups applies to a pair if and only if one device belongs to each |
| `Policy.DeviceRule` | src/protocol/network_policy.cpp:25-27 | a rule between two devices applies to that pair alone, in either order, and a rule that names nobody to every pair |
| `Policy.RulesDecide` | src/protocol/network_policy.cpp:57-72 | the four outcomes: unmanaged, two spokes, no rule or a denial, and only allowing rules |
| `Policy.RouteOpenExactly` | src/protocol/network_policy.cpp:52-56 | a member may use a route if and only if it is unrestricted, in the route's group, may talk to the gateway, and the gateway is approved |
| `Policy.AllowedAsASet` | src/protocol/network_policy.cpp:49-72 | permission is symmetric and does not depend on the order or repetition of rules and hubs |
| `Policy.DenyTakesAway` | src/protocol/network_policy.cpp:64-70 | a deny rule put anywhere removes exactly the pairs it applies to |
| `Policy.AllowAdds` | src/protocol/network_policy.cpp:64-70 | an allow rule put anywhere removes no pair |
| `Policy.PermissionsNest` | src/protocol/network_policy.cpp:49-62 | two spokes never talk, and fan-out or route permission implies pair permission |
| `PolicyCodec.CheckPolicy` | src/protocol/network_policy.cpp:74-96 | the encoder's checks, loop by loop, accept exactly the acceptable policies |
| `PolicyCodec.AcceptableExactly` | src/protocol/network_policy.cpp:74-96 | a policy is acceptable if and only if every list has its size and distinct real entries, every group named exists, every route is private with an approved gateway, no two routes overlap, and an unmanaged policy is empty |
| `PolicyCodec.EncodeNetworkPolicy` | src/protocol/network_policy.cpp:73-98 | an acceptable policy becomes its stored form, any other is refused |
| `PolicyCodec.DecodeNetworkPolicy` | src/protocol/network_policy.cpp:99-110 | the reader's loops return the decoded policy or fail, as the specification of decoding says |
| `PolicyCodec.DecodeOfWire` | src/protocol/network_policy.cpp:73-110 | every policy the encoder accepts takes at most 29486 octets and is decoded to itself |
| `PolicyCodec.WireOfDecoded` | src/protocol/network_policy.cpp:99-110 | accepted octets are the encoding of the policy they decode to, which the encoder accepts |
| `RelayPolicies.WithoutIsAcceptable` | src/storage/relay_store.cpp:731-742 | taking a device out of a stored policy leaves one the encoder accepts, so removing a member never fails for it |
| `RelayPolicies.RolesKeptForAll` | src/relay/network_service.cpp:280-285 | the two loops over listed members are enough to keep the role of every possible device |
| `RelayPolicies.RoleAfterLeaving` | src/storage/relay_store.cpp:733 | leaving resets a role to the plain one unless it is a restriction, and touches nobody else's |
| `RelayPolicies.RemovedExactly` | src/storage/relay_store.cpp:731-742 | a departure changes the policy exactly when the policy relies on the device, after which it does not, and is refused exactly when the revision cannot move |
| `RelayPolicies.OthersKeepAccess` | src/storage/relay_store.cpp:731-742 | taking a device out of a policy changes nothing between the others: the same pairs talk, fan out and use the remaining routes |
| `RelayPolicies.SavedPassed` | src/relay/network_service.cpp:234-296 | what a request has passed when its policy is saved |
| `RelayRuns.StepFollows` | src/relay/network_service.cpp:347-1086 | every event does to every network exactly one of: nothing, creation, one member more, one member less, a policy replaced; and advances the epoch in all but the first |
| `RelayRuns.RevokedForever` | src/relay/network_service.cpp:324-347 | a revoked device stays revoked under every event, because each way back is behind the guard that turns it away |
| `RelayRuns.StepKeepsKeys` | src/relay/network_service.cpp:463-476 | no revoked device ever holds an active key |
| `RelayRuns.RevokeRevokes` | src/relay/network_service.cpp:347-369 | a successful revocation does revoke: the store's exception for owners of accounts never applies, and the device is in no network and has no key afterwards |
| `RelayRuns.StepKeepsEpochs` | src/relay/network_service.cpp:463-489 | while an owner is connected every network it owns has an epoch entry |
| `RelayRuns.StepKeepsApart` | src/relay/network_service.cpp:287-295 | no event makes routed subnets of two networks overlap, or two virtual subnets coincide |
| `RelayRuns.StepKeepsKnown` | src/storage/relay_store.cpp:690-715 | every device that holds a lease has been recorded |
| `RelayRuns.StepKeepsInv` | src/relay/network_service.cpp:225-1086 | every event keeps the relay's whole invariant: members, all of them real and recorded, addresses, acceptable policies without dangling devices, routes, accounts, keys and epochs |
| `RelaySafety.RestartKeepsInv` | src/relay/network_service.cpp:179-187 | a restart, which forgets keys, epochs and revisions, lands in a state of the invariant |
| `RelaySafety.RunKeepsInv` | src/relay/network_service.cpp:225-1086 | the invariant holds after every run |
| `RelaySafety.RoutesNeverOverlap` | src/relay/network_service.cpp:287-295 | in every reachable state routed subnets are pairwise disjoint, over all networks and at different places of one policy, and outside 10.64.0.0/10 |
| `RelaySafety.LeasesNeverCollide` | src/storage/relay_store.cpp:1186-1244 | no virtual address is leased twice, in one network or across networks |
| `RelaySafety.AcceptedIsCurrent` | src/relay/network_service.cpp:1151-1197 | every envelope of an accepted publication is for one network at its current epoch, and that epoch has an entry |
| `RelaySafety.EpochMovesExactly` | src/relay/network_service.cpp:1100-1111 | a change of a network raises its epoch if and only if the epoch already has an entry |
| `RelayScenarios.FirstChangeIsInvisible` | src/relay/network_service.cpp:1100-1111 | a run from an empty store in which two devices pair up, the relay restarts, the member leaves, and the epoch stays at one |
| `RelaySafety.RetiredEpochIsDead` | src/relay/network_service.cpp:519-532 | once a publication was accepted, any later join, approval, leave, kick, revocation or policy change retires its epoch for good: nothing stamped with it is routed and no envelope of it accepted, however the run goes on |
| `RelayScenarios.PublicationThenLeave` | src/relay/network_service.cpp:1151-1197 | a run from an empty store to an accepted publication and a change that retires it |
| `RelaySafety.RevisionIsUsedOnce` | src/relay/network_service.cpp:296-299 | an accepted change was built on the stored revision and raises it by one, so of two accepted requests the later one names a higher revision |
| `RelaySafety.OnlyTheOwnerChangesRoles` | src/relay/network_service.cpp:254-303 | an event of anyone but the owner changes the role of a device if and only if the device is an administrator that leaves or is revoked, and it is plain then |
| `RelayScenarios.AdministratorLeaves` | src/storage/relay_store.cpp:733 | a run from an empty store in which the owner appoints an administrator, who leaves and is plain |
| `RelaySafety.AdministratorsAreAppointed` | src/relay/network_service.cpp:280-285 | in every run a new administrator comes from a policy the owner itself saved for that network |
| `RelaySafety.GatewayEntersByRequest` | src/relay/network_service.cpp:255-275 | a gateway enters a policy only unapproved and only by the request of that very device |
| `RelaySafety.GatewaysAskedThemselves` | src/relay/network_service.cpp:255-275 | over a run, every gateway that is new at the end entered unapproved at some step, by its own accepted request |
| `RelaySafety.RoutedIsAllowed` | src/relay/network_service.cpp:519-610 | a routed packet joins two different, connected, unrevoked members that the policy lets talk, at the current epoch |
| `RelaySafety.UnicastReachesOne` | src/relay/network_service.cpp:599-610 | a packet for one address reaches at most one device |
| `RelaySafety.RevokedIsCutOff` | src/relay/network_service.cpp:347-369 | from a revocation on no run routes anything from or to the device |
| `RelaySafety.RemovedIsCutOff` | src/relay/network_service.cpp:1046-1079 | after leaving or being kicked a device sends and gets nothing in that network until it is added again |
| `RelayAnswers.AuthorityIsListed` | src/relay/network_service.cpp:214-220 | who may manage a network: its owner, or in a managed network a capable member that the policy lists with role 1 |
| `RelayAnswers.KickedExactly` | src/relay/network_service.cpp:1006-1085 | a kick succeeds if and only if someone in authority asks for a known member that is not the owner, and not an administrator unless the owner asks; permission is denied exactly for lack of authority or for such a target |
| `RelayAnswers.ApprovedExactly` | src/relay/network_service.cpp:926-1004 | an approval succeeds if and only if someone in authority approves a pending device and there is room in the network and for the device; permission is denied exactly for lack of authority |
| `RelayAnswers.InvitedExactly` | src/relay/network_service.cpp:853-924 | an invitation succeeds if and only if someone in authority invites a known device that is neither a member nor invited nor waiting; permission is denied exactly for lack of authority |
| `RelayAnswers.PasswordChangedExactly` | src/relay/network_service.cpp:411-419 | a password is changed by exactly those in authority |
| `RelayAnswers.LeftExactly` | src/relay/network_service.cpp:797-851 | a member leaves if and only if it is not the owner and the policy's revision can move |
| `RelayAnswers.RoomFor254` | src/storage/relay_store.cpp:1211-1244 | an address is found if and only if fewer than 254 are leased |
| `RelayAnswers.NewMemberGets` | src/storage/relay_store.cpp:1211-1244 | a new member gets the lowest free host address, keeps everyone else's, and uses up its invitation and request |
| `RelayAnswers.JoinedExactly` | src/relay/network_service.cpp:716-795 | a plain join succeeds if and only if the device is invited and there is room, waits for approval if and only if it is not and there is no password, and is told to bring an invitation if and only if there is one |
| `RelayAnswers.PasswordJoinedExactly` | src/relay/network_service.cpp:420-428 | a matching password admits if and only if it needs no approval or the device is invited, and otherwise leaves a request |
| `RelayAnswers.RedeemedExactly` | src/relay/network_service.cpp:379-409 | a valid link admits every device that is not a member while there is room, and never leaves it waiting |
| `RelayAnswers.AdmittedIsPermitted` | src/relay/network_service.cpp:716-1004 | every admission was permitted: an invited device joined, a password matched that needs no approval or came with an invitation, a link was valid, or someone in authority approved the device's own request |
| `RelayAnswers.MembersWereLetIn` | src/relay/network_service.cpp:716-1004 | over every run, a device that becomes a member and is not the owner entered at a step that was permitted in that way |
| `RelayAnswers.OffersComeFrom` | src/relay/network_service.cpp:745-924 | a new invitation was given by someone in authority, and a new request was made by the device itself |
| `RelayAnswers.StepKeepsOffersApart` | src/storage/relay_store.cpp:1389-1423 | no device is at once a member, invited or waiting: every event keeps it so |
| `RelayAnswers.CreatedExactly` | src/relay/network_service.cpp:629-675 | a network is created if and only if its identifier is new, the owner is below its limit and one of the 16384 subnets is free |
| `RelayAnswers.CreatedHolds` | src/storage/relay_store.cpp:1186-1209 | a new network has its owner at the first address, no policy, invitation or request, and a subnet of its own |
| `RelayAnswers.SavedExactly` | src/relay/network_service.cpp:234-303 | a policy is stored if and only if it is acceptable, someone in authority replaces it or an unrestricted member asks to be a gateway, every device it names is a member or a known restricted one, gateways and routes fit, an administrator leaves roles alone, and it builds on the stored revision |
| `RelayAnswers.SavedIsStored` | src/relay/network_service.cpp:296-303 | what is stored: the policy asked for, or the old one with the asking device as an unapproved gateway, one revision later |
| `RelayAnswers.AccessChangesBy` | src/relay/network_service.cpp:221-303 | whether two devices may talk or fan out changes only by a step in which one of them leaves, or in which someone in authority replaces the policy |
| `RelayAnswers.AccessIsStable` | src/relay/network_service.cpp:221-303 | the same over every run without such a step |
| `RelayAnswers.FanoutMeans` | include/lanlink/protocol/ipv4_fanout.hpp:26-40 | the addresses that mean everyone in a network: broadcast, the last of its subnet, 239.0.0.0/8, 224.0.0.251 and 224.0.0.252 |
| `RelayAnswers.RoutedExactly` | src/relay/network_service.cpp:519-610 | a device gets an admitted packet if and only if sender and device are different connected members, capable in a managed network, the epoch is current, the packet is not for the sender, and it is either for everyone with at most 1400 octets and fan-out allowed, or for the device's address with the pair allowed |
| `RelayAnswers.PublishedExactly` | src/relay/network_service.cpp:1151-1197 | a publication is accepted if and only if the connected owner sends 1 to 253 envelopes of one network, each signed, from the owner's current key to a distinct connected member's current key, at the current epoch, and changes nothing |
| `RelayAnswers.AuthenticatedExactly` | src/relay/network_service.cpp:463-489 | authenticating makes the key active if it is valid and the device not revoked, and takes the capability in any case |
| `RelayAnswers.DisconnectedExactly` | src/relay/network_service.cpp:491-517 | the end of a session takes the key and the capability that came with that session; a newer session's key stays |
| `RelayAnswers.NegotiatedExactly` | src/relay/network_service.cpp:225-233 | negotiating sets the capability of that device alone, unless it is revoked |
| `RelayAnswers.RevokedExactly` | src/relay/network_service.cpp:347-369 | a device is revoked if and only if the owner of its account asks, it is another one, enrolled, and owns no network |
| `RelayAnswers.EnrolledExactly` | src/relay/network_service.cpp:430-447 | a device enrols if and only if the code is valid and it is in no account yet, with at most 64 devices an account; an account is opened if and only if the device is in none |
| `RelayRevisions.StepIsNumbered` | src/relay/network_service.cpp:1087-1150 | every event that changes what the members of a network are told (members, addresses, owner, epoch, shown keys, policy) raises the network's revision, and none lowers it |
| `RelayRevisions.OneRevisionOneState` | src/relay/network_service.cpp:1087-1150 | at any two moments of a run with the same revision of a network its members are told the same |
| `RelayRevisions.RoutingFollowsPeerState` | src/relay/network_service.cpp:519-610 | what the relay routes in a network is settled by what its members are told: equal peer states route every packet alike |
| `RelayRevisions.RoutingIsAnnounced` | src/relay/network_service.cpp:519-1150 | over every run, while a network's revision stays, so does everything the relay routes in it |
| `RelayService.NetworkService.Announce` | src/relay/network_service.cpp:477-489 | the loop over a device's networks advances each revision once and the epoch of exactly the owned ones |
| `RelayService.NetworkService.PublishKey` | src/relay/network_service.cpp:463-489 | the step of a key becoming active, refused for a revoked device |
| `RelayService.NetworkService.RemoveKey` | src/relay/network_service.cpp:491-517 | the step of a session ending; a key of another session stays |
| `RelayService.NetworkService.Join` | src/relay/network_service.cpp:716-795 | the step of joining; RelayAnswers says when it admits, leaves a request or refuses |
| `RelayService.NetworkService.Leave` | src/relay/network_service.cpp:797-851 | the step of leaving |
| `RelayService.NetworkService.Approve` | src/relay/network_service.cpp:926-1004 | the step of approving a pending device; `ApprovedExactly` says when it is taken |
| `RelayService.NetworkService.Kick` | src/relay/network_service.cpp:1006-1085 | the step of removing a member; `KickedExactly` says when it is taken |
| `RelayService.NetworkService.CheckGateways` | src/relay/network_service.cpp:269-275 | the first unacceptable gateway decides the answer |
| `RelayService.NetworkService.CheckRoutes` | src/relay/network_service.cpp:287-295 | the first unacceptable route decides the answer |
| `RelayService.NetworkService.IsTaken` | src/relay/network_service.cpp:292-294 | the loops over all other networks and their routes find an overlap exactly when there is one |
| `RelayService.NetworkService.CheckSubjects` | src/relay/network_service.cpp:266-268 | every hub and every device named by a rule is a member |
| `RelayService.NetworkService.CheckAssignments` | src/relay/network_service.cpp:276-279 | every assignment is for a member or a known restricted device, and the owner's is plain |
| `RelayService.NetworkService.CheckRoles` | src/relay/network_service.cpp:283-284 | the two loops over listed members find a changed role exactly when there is one |
| `RelayService.NetworkService.Manage` | src/relay/network_service.cpp:234-303 | the step of a management request, with every answer in the order of the checks; `SavedExactly` says when it stores a policy |
| `RelayService.NetworkService.RevokeTarget` | src/relay/network_service.cpp:347-369 | the step of revoking a device, leaving all its networks |
| `RelayService.NetworkService.PublishKeys` | src/relay/network_service.cpp:1151-1197 | the answer to a publication, the first bad envelope deciding; `PublishedExactly` says when it is accepted |
| `RelayService.NetworkService.Route` | src/relay/network_service.cpp:519-610 | the set of devices a packet is forwarded to; `RoutedExactly` says which they are |
| `Connectivity.PrioritiesAgree` | src/p2p/connectivity.cpp:12-13 | both devices give the same pair the same priority |
| `Connectivity.PriorityFormula` | src/p2p/connectivity.cpp:12-13 | the priority of a pair, without the overflow, in terms of the smaller and the larger of the two and of the role |
| `Connectivity.OverflowsExactly` | src/p2p/connectivity.cpp:13 | among 32-bit priorities only the pair of two largest ones overflows 64 bits |
| `Connectivity.GatheredNeverOverflow` | src/p2p/local_candidates.cpp:59-63 | with a priority gathered here on one side no pair overflows, whatever the other side claims |
| `Connectivity.HostPriorityLayout` | src/p2p/local_candidates.cpp:59-63 | the three fields of a gathered priority: type, falling index, component |
| `Connectivity.UsableExactly` | src/p2p/candidates.cpp:7-12 | usable endpoints have a port and a unicast address outside 0.0.0.0/8 and 169.254.0.0/16 |
| `Connectivity.PairsAreAll` | src/p2p/connectivity.cpp:10-15 | every local candidate is paired with every remote one, in that order, and with nothing else |
| `Connectivity.SortedIsStable` | src/p2p/connectivity.cpp:16 | the checklist is a stable sort of the pairs by falling priority |
| `Connectivity.BuildChecklist` | src/p2p/connectivity.cpp:5-17 | the nested loops build all pairs, sorted, or refuse exactly the invalid lists |
| `Connectivity.StepContinues` | src/p2p/connectivity.cpp:21-45 | calls never change candidates or priorities, never lower attempts, and a pair that waits has attempts left |
| `Connectivity.StartsSound` | src/p2p/connectivity.cpp:5-17 | the checklist the constructor leaves is in order and every pair has all its attempts |
| `Connectivity.RunKeepsInv` | src/p2p/connectivity.cpp:21-45 | every run of calls keeps the order, and a pair that waits has attempts left |
| `Connectivity.AtMostThreeAttempts` | src/p2p/connectivity.cpp:21-37 | from the constructor on, whatever is called, no pair is handed out more than three times |
| `Connectivity.PairMoves` | src/p2p/connectivity.cpp:21-37 | what one call does to one pair's state, attempts and round-trip time, as equivalences |
| `Connectivity.SucceededExactly` | src/p2p/connectivity.cpp:32-37 | over every run from the constructor, a pair is a success if and only if a successful report named its endpoints while it was in progress and the list was checking, and a failure if and only if an unsuccessful report did after three attempts or the deadline passed first |
| `Connectivity.NominatedWasReported` | src/p2p/connectivity.cpp:32-45 | every pair ever nominated had such a successful report |
| `Connectivity.AttemptsAreCounted` | src/p2p/connectivity.cpp:21-31 | the attempts of a pair are the times a run handed it out or noted a probe on it |
| `Connectivity.HandedOutExactly` | src/p2p/connectivity.cpp:21-27 | a pair is handed out if and only if the list is checking, the pace and the deadline allow, and it is the first that waits or has attempts left |
| `Connectivity.HandedOutAtAPace` | src/p2p/connectivity.cpp:21-27 | whatever is called in between, two pairs are handed out at least 100 ms apart |
| `Connectivity.SearchFinds` | src/p2p/connectivity.cpp:38-45 | the search returns the first success with everything before it failed, or with time up |
| `Connectivity.NominatedIsBest` | src/p2p/connectivity.cpp:38-45 | after any run from the constructor, a pair nominated before the deadline is the best success and every better pair has failed |
| `Connectivity.NominatingSettles` | src/p2p/connectivity.cpp:38-45 | a nomination connects the checklist to that pair |
| `Connectivity.RunSettles` | src/p2p/connectivity.cpp:21-45 | in every run whose time does not go back a connected checklist, however it connected, has a pair to show for it |
| `Connectivity.NominationIsFinal` | src/p2p/connectivity.cpp:21-45 | in every run from the constructor whose time does not go back, once the checklist is connected, by a nomination or through `next`, one pair is returned by every later nomination |
| `Connectivity.ConnectivityChecks.AskNext` | src/p2p/connectivity.cpp:21-27 | hands out the first due pair at most every 100 ms, or settles the list when none is due or time is up |
| `Connectivity.ConnectivityChecks.NoteProbe` | src/p2p/connectivity.cpp:28-31 | counts a probe on every open pair between the two endpoints |
| `Connectivity.ConnectivityChecks.NoteResult` | src/p2p/connectivity.cpp:32-37 | closes or reopens every pair in progress between the two endpoints; `SucceededExactly` says how over runs |
| `Connectivity.ConnectivityChecks.AskNominee` | src/p2p/connectivity.cpp:38-45 | the search down the list, and the state it leads to |
| `Multicast.FilteredIsWanted` | src/network/multicast.cpp:62-67 | in include and exclude mode alike a record does to an entry what section 4.2.12 of RFC 3376 says |
| `Multicast.RecordsAreFollowedExactly` | src/network/multicast.cpp:62-71 | an accepted report changes what is received as its records say, for every address a packet can come from, if and only if the group is not on by default without a live entry and only allowed or blocked sources |
| `Multicast.AllowSilencesOthers` | src/network/multicast.cpp:62-67 | a concrete report for a group that is on by default that stops a source it does not mention |
| `Multicast.ReportsAreFollowed` | src/network/multicast.cpp:25-77 | every packet: an accepted report follows its records as above, anything else changes nothing, and there are at most 64 groups of at most 64 sources |
| `Multicast.RecordsOfOctets` | src/network/multicast.cpp:49-61 | records written out, with auxiliary data of any length, are read back as the same records |
| `Multicast.ReportIsRead` | src/network/multicast.cpp:46-72 | a version 3 report of up to 64 well-formed records is read as those records |
| `Multicast.OlderReports` | src/network/multicast.cpp:38-45 | an accepted version 1 or 2 report turns its group on for every source, a leave turns it off, and no other group changes |
| `Multicast.OlderReportsLast` | src/network/multicast.cpp:79-87 | such a report holds for 260 seconds, after which only 224.0.0.251 and 239.255.255.250 are received |
| `Multicast.ObservedExactly` | src/network/multicast.cpp:25-77 | which packets are not IGMP and which are accepted, on octet positions: header, length, fragment bits, time to live, checksum, records and table sizes |
| `Multicast.TablesStaySmall` | src/network/multicast.cpp:68-75 | after any run of packets at most 64 groups of at most 64 sources are held |
| `Multicast.MulticastMembership.Observe` | src/network/multicast.cpp:25-77 | parsing with an advancing offset and swapping in the edited copy does exactly that |
| `Multicast.MulticastMembership.ReadReport` | src/network/multicast.cpp:46-72 | the record loop accepts exactly reports whose records are well formed and fill them |
| `Multicast.MulticastMembership.Synchronize` | src/network/multicast.cpp:89-95 | the host's list keeps scoped groups only, at most 256, and all of them if there are fewer |
| `NetworkName.TakesExactly` | src/protocol/network_messages.cpp:117-163 | one round of the loop takes a code point exactly when its shortest encoding comes next and it is a scalar value and no control |
| `NetworkName.GoodExactly` | src/protocol/network_messages.cpp:151-161 | the scalar values a name may hold, as three ranges |
| `NetworkName.ValidNetworkName` | src/protocol/network_messages.cpp:110-167 | a name is accepted if and only if it has 1 to 128 octets and is the shortest-form UTF-8 encoding of scalar values without C0, DEL or C1 controls |

## Left out

- Signatures, key agreement, packet encryption, password hashing and random codes: whether something verifies, matches or is valid is a parameter.
- QUIC, UDP, TUN/TAP, TLS, pipes and sockets, user interface, command line, configuration, logging, installers and scripts: input and output.
- Storage exceptions, audit records and migrations of the database: the store is a set of total maps, and a refused transaction changes nothing.
- Counters at 2^64: key epochs and peer-state revisions are unbounded; a policy revision at its limit refuses the step, and a revocation that meets one is refused as a whole, where the source would stop half way.
- Rounding of `double` in the quota: levels are exact reals; `configure` and its limits are not modelled, a quota starts with positive rates.
- Changes of session or key epoch during a negotiation: both are fixed for an exchange, since messages that name others are skipped (src/session/peer_packet_path.cpp:133-134) and such entries are erased (src/session/peer_packet_path.cpp:102-110).
- The limit of 128 remembered peers per session in the relay's generation filter and the capability checks before it: a refused message is a lost one, which the runs allow.
- Rate limits, token buckets and the replay window inside `route_encrypted_packet` and the access requests: one parameter of the step says whether they admit; the window itself is in ReplayWindow.
- Order of recipients, notifications and peer-state messages to members: a step gives the set of recipients and the new state only.
- Requests with a zero network identifier: they are refused while decoding and reach no step.
- Invitation links, enrolment codes and their expiry: whether one is valid is a parameter of the step that redeems it.
- RelayService.NetworkService: has no methods for creating a network, inviting, accounts, passwords, links and capabilities: those steps are functions of Relay, and every theorem about runs covers them.
- Updates in place of store rows: the service holds networks as values in a map and replaces them.
- Relay restarts inside a run: epochs restart at one and revisions at zero, so what is said about retired epochs and about revisions is about one life of the service.
- ForwardingQuota.PruningIsInvisible: says nothing once the unpruned maps hold 4096 entries, because then forgetting makes room.
- NegotiationProgress.DeliveryConnects: is about runs without new attempts; an end that keeps preparing new ones may postpone rest for ever.
- NegotiationRuns has one pair of processes; other entries of the same process appear as numbers they take.
- `resolve_role_conflict` and the socket work around the checklist: the role after construction is not used by any modelled call.
- Checksum.ComputeChecksum: for inputs above 131072 octets the 32-bit accumulator may wrap and only the range of the result is stated; no caller passes more than 65535.
- `routing_configuration` and `safe_routed_ipv4`: plain filters over the policy predicates and header fields.
