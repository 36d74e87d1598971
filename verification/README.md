# Olympus swarm: what its algorithms guarantee

This project models the algorithmic core of the Olympus drone swarm and proves what that core
promises. Nothing in it runs the original programs: each part of them is restated in Dafny with the
same branches, constants and error cases, and the claims are theorems about that restatement.

| files | what they model |
|---|---|
| `Consensus`, `Election`, `Liveness` | comms-denied leader election and autonomous approval: one drone's state machine, and swarms of them over a network that may lose, duplicate, delay and reorder messages; what no run can do, and what every run can still do |
| `Bits`, `Crc`, `CheckValue`, `Cobs`, `Framing`, `SerialLink` | the serial wire: CRC-16/CCITT-FALSE, consistent overhead byte stuffing, the host's stream reader, and the firmware's fixed-buffer versions of both directions |
| `Struct`, `Codec`, `Text`, `HeaderWriter`, `NodeMessages`, `NodeReceiver` | the ten message formats, text cut in the middle of UTF-8, the messages the firmware writes field by field, and what it reads at which offset |
| `Matrix`, `Covariance`, `TwoRow`, `Flooring`, `Sharper`, `FlatMatrix`, `JetsonEkf`, `NodeEkf`, `Corrections`, `NodeCorrections`, `Prediction`, `Optimality`, `PositionFix`, `AnchorReset` | the two Kalman filters over exact reals: propagation, scalar and joint updates, flooring, in-place loops on flat arrays; where every measurement pulls the estimate and why no other weight would do better; when one position fix means the same to both, and what the firmware's anchor reset leaves |
| `Graph`, `Adjacency`, `Parents`, `Loops`, `Histories`, `Router` | the overlay router: link graph, lazy-deletion Dijkstra, parent hysteresis, secondaries, histories of ticks, what changes and what is pushed |
| `Bundles`, `Auction`, `Allocator` | task allocation: the greedy bundle, conflict resolution, the rounds |
| `DetectionStore` | the detection archive with eviction, and its syncer |
| `Localization`, `Objective` | multilateration by damped Gauss-Newton, and the sum of squared residuals it goes down |
| `Arithmetic`, `Sequences`, `Wrappers` | products and powers; distinctness and laws of concatenation; option and result types |

Objects whose methods update fields are classes here, each method tied by its `ensures` to a
function of the old state; the theorems are about those functions and about runs of them.

## Findings

Where the code does less than its names or comments suggest, the model follows the code.

* **Routing loops.** The hysteresis may keep a parent that is farther from the gateway than its child.
  `Histories.LoopFreeIff`: after some history of ticks from no parents, over reports the wire can carry, a tick leaves a
  loop if and only if its graph has an edge between two nodes that the margin can keep although it leads no closer.
  Where it has none, packets that mix primaries and secondaries are delivered too, and where it has one they can stray
  (`Histories.MixedHopsIff`). `Histories.UphillLoops` gives the history for every such edge, with identifiers of eight
  bytes for every margin from 2^-60 on (its lines of modules grow with the inverse of the margin);
  `Histories.TwoTicksLoop` is one with the default margin and ordinary reports.
* **The firmware's anchor reset.** `ekf_set_anchor` overwrites two variances and leaves their cross terms.
  `AnchorReset.AnchorResetIff` says for every sound covariance exactly when a covariance is left: a two-by-two test once
  velocities and heading are taken out. For a filter at rest since it started `AnchorReset.StillResetIff` turns that
  into a condition on the time elapsed, `(25t + t^2/2)^2 <= 25(25 + t)`, and `AnchorReset.AnchorResetBreaks` shows one
  second to be too long. The Jetson's filter does not have the problem, because it stays diagonal until it is anchored.
* **Position fixes.** The firmware takes a fix in one joint update with the variance `std^2`, the Jetson in two scalar
  ones with the variance `max(0.25, std^2)`. From half a metre on the firmware's singularity guard never fires, and the two
  agree exactly when the first correction leaves the second variance above the floor, or nothing is left to correct and
  the second state is tied to no other (`PositionFix.PositionFixIff`); `PositionFix.CoarseFixDiffers` is a covariance for
  which they differ at four metres, the value the firmware's own caller gives, whatever is measured. Under half a metre
  the variances themselves differ, and above the guard, unless the Jetson floors in between, the two agree only where
  nothing shows (`PositionFix.PreciseFixIff`, `PositionFix.PreciseFixDiffers`). Where the guard
  fires the firmware skips the fix, and the Jetson does not unless both variances are at the floor, nothing is tied to
  them, and there is nothing to correct (`PositionFix.SkippedFixIff`, `PositionFix.SkippedFixDiffers`).
* **Serial overruns.** After 517 bytes without a delimiter the firmware drops its buffer but not the rest of the
  frame, so it may take a frame the host's reader would have refused (`SerialLink.OverrunDiverges`). The two deliver the same
  over a stream if and only if no piece of more than 516 bytes between delimiters ends, after dropping 517 bytes as often
  as possible, in something the firmware accepts (`SerialLink.ReceiverAgreesIff`).
* **Telemetry trailers.** A telemetry message sent without the optional trailer reads any nine or more
  appended bytes as one (`Codec.DecodeEncode` states exactly which messages ignore appended bytes).
* **Equal claims.** Two executors with equal scores and equal time stamps both keep a task
  (`Auction.EqualClaimsStay`); over a whole phase a task ends with at most one holder exactly when its best claim was not
  tied at its turn (`Auction.PhaseSettledIff`), and it does so for all scores exactly when no two executors that hold
  one task have snapshots of the same time (`Auction.SettlesAnyhowIff`). This is about `_consensus_phase` with the
  bundles of several drones: `run_allocation` starts all bundles empty and fills only its own, so it never meets a
  conflict (`Allocator.CBBAAllocator.Round`).
* **`multilaterate`** promises `None` for a search that does not converge; it returns `None` only for fewer than three anchors or
  a mismatch of lengths, and otherwise the point reached after the last iteration. `Localization.SearchRunsOut`: for every
  number of iterations there are a guess and exact ranges from which the last step is still fifteen kilometres long.
  Its anchors coincide, its ranges are zero and the guess is far off: the function takes such an input, its caller
  `localize` drops ranges of zero and never passes it. The singularity guard never fires.
* **Cut names.** A name longer than its field is cut at a byte, not at a character; what is read back is the characters
  that fit and, if the cut went through one, a replacement character (`Text.CutArrives`).
* **Autonomous approvals.** The allowed task types and the resource commitment are not checked, and the approval
  counter is never reset, so the limit is one for the life of the process (`Election.LifetimeLimit`).
* **Terms.** A leader's heartbeat may raise a node's term and leave the vote and the tally of an older one in place.
  Election safety holds all the same, and so does that any majority can still elect (`Liveness.AnyMajorityCanElect`).

## Model

| member | source | states |
|---|---|---|
| Election.ElectionSafety | olympus/brain/olympus_brain/swarm_consensus.py:160-224 | in no run are two different drones ever leader of one term, at the same moment or at different ones, whatever the network loses, repeats or reorders |
| Election.OneAuthorityPerTerm | olympus/brain/olympus_brain/swarm_consensus.py:226-281 | all decisions recorded anywhere for one term come from one drone |
| Election.ApprovalsBounded | olympus/brain/olympus_brain/swarm_consensus.py:235-263 | with one rule set, a term sees at most `max_tasks_autonomous` approvals in the whole swarm |
| Election.LifetimeLimit | olympus/brain/olympus_brain/swarm_consensus.py:235-263 | over every run a drone's approval counter never falls, is the number of approvals in its whole log, and never passes the limit, whatever elections it wins or loses |
| Election.LogsGrow | olympus/brain/olympus_brain/swarm_consensus.py:226-269 | a decision once logged stays in its place |
| Election.DecisionsWithinRules | olympus/brain/olympus_brain/swarm_consensus.py:226-281 | every logged decision was made while that drone had its base link marked lost, answers the request it names, and approves no emergency |
| Election.AuthorityOnlyWhenCutOff | olympus/brain/olympus_brain/swarm_consensus.py:111-140 | candidates and leaders have lost their base link: contact with the base ends authority at once |
| Election.StepKeepsInv | olympus/brain/olympus_brain/swarm_consensus.py:160-224 | every step keeps the invariant behind these: one vote per drone and term, tallies backed by votes actually given, leaders backed by a majority, logs matching history |
| Election.RunKeepsInv | olympus/brain/olympus_brain/swarm_consensus.py:111-281 | the invariant holds in every state of every run |
| Election.HistoryGrows | olympus/brain/olympus_brain/swarm_consensus.py:199-211 | a vote once given is never taken back, and nobody joins or leaves |
| Election.QuorumsAgree | olympus/brain/olympus_brain/swarm_consensus.py:171-172 | two majorities of one membership for one term name the same candidate |
| Liveness.AnyMajorityCanElect | olympus/brain/olympus_brain/swarm_consensus.py:128-216 | after every run, any running drone that is cut off, and whose peer list has exactly the others, can become leader of a term above any given one, in a continuation in which only the drones of any majority it belongs to take a step |
| Liveness.GrantIff | olympus/brain/olympus_brain/swarm_consensus.py:199-211 | a vote is granted exactly to a higher term, or in the same term where no vote was given or one to the same candidate; term and vote afterwards |
| Consensus.SwarmConsensus.constructor | olympus/brain/olympus_brain/swarm_consensus.py:74-97 | a fresh drone: follower of term 0, linked to the base, no votes, no decisions |
| Consensus.SwarmConsensus.OnBaseHeartbeat | olympus/brain/olympus_brain/swarm_consensus.py:111-119 | the whole new state after hearing the base |
| Consensus.SwarmConsensus.Poll | olympus/brain/olympus_brain/swarm_consensus.py:128-150 | the whole new state after one turn of the loop: when the base counts as lost, what a tick changes, and when the drone gives up to return to launch |
| Consensus.SwarmConsensus.ConsensusTick | olympus/brain/olympus_brain/swarm_consensus.py:160-187 | the whole new state after a tick: a follower out of patience stands in the next term, a candidate with more than half of all votes leads, and one whose doubled patience is over follows again, elected or not |
| Consensus.SwarmConsensus.StartElection | olympus/brain/olympus_brain/swarm_consensus.py:189-197 | the next term, candidate, the own vote and only that |
| Consensus.SwarmConsensus.OnVoteRequest | olympus/brain/olympus_brain/swarm_consensus.py:199-211 | field by field: the vote is granted exactly to a higher term, or in the same term where none was given or one to the same candidate; a granted vote is recorded, a higher term adopted and followed, and a refusal in the same term changes nothing |
| Consensus.SwarmConsensus.OnVoteResponse | olympus/brain/olympus_brain/swarm_consensus.py:213-216 | exactly the granted votes of the current term are added, whatever the role, and nothing else changes |
| Consensus.SwarmConsensus.OnLeaderHeartbeat | olympus/brain/olympus_brain/swarm_consensus.py:218-224 | the term rises and the role falls, and nothing clears the old vote or tally |
| Consensus.SwarmConsensus.DecideEscalation | olympus/brain/olympus_brain/swarm_consensus.py:226-269 | who decides, what is decided, what is logged and counted |
| Crc.BurstDetected | proto/swarm_proto.py:224-233 | payloads of one length that differ, all differences within sixteen consecutive bits, never share a CRC, at any length and position |
| Crc.CrcIsFeed | proto/swarm_proto.py:224-233 | the byte-wise register update is the bit-serial one over the bits in order |
| Crc.FeedLinear | proto/swarm_proto.py:224-233 | the register is linear over exclusive or: state and input may be split |
| Crc.CrcDifference | proto/swarm_proto.py:224-233 | the difference of two CRCs is what the register makes of the difference of the bits |
| Crc.Crc16 | proto/swarm_proto.py:224-233 | the loop computes the CRC defined by polynomial and initial value |
| CheckValue.CheckValue | proto/test_proto.py:27-29 | the CRC of the text 123456789 is 0x29B1, the published check value of CRC-16/CCITT-FALSE |
| Cobs.RoundTrip | proto/swarm_proto.py:239-278 | decoding what was encoded gives the data back, for every byte string |
| Cobs.ZeroFree | proto/swarm_proto.py:236-259 | encoded data holds no delimiter |
| Cobs.Overhead | proto/swarm_proto.py:239-259 | encoding adds at least one byte and at most one more for every 254 |
| Cobs.DecodeOverhead | proto/swarm_proto.py:262-278 | anything that decodes is no longer than the encoding of its result could be |
| Cobs.CobsEncode | proto/swarm_proto.py:239-259 | the loop with its placeholder code byte computes the block-wise encoding |
| Cobs.CobsDecode | proto/swarm_proto.py:262-278 | the loop computes the block-wise decoding and raises on exactly the same inputs |
| Framing.FrameRoundTrip | proto/swarm_proto.py:281-296 | a frame is a delimiter-free body and one delimiter, and yields its payload back |
| Framing.DeframeChecks | proto/swarm_proto.py:288-296 | a payload is let through exactly when the frame decodes to it followed by its own CRC |
| Framing.BurstRejected | proto/swarm_proto.py:281-296 | a payload damaged by one burst of at most sixteen bits is refused under the CRC of the original |
| Framing.FrameSerial | proto/swarm_proto.py:281-285 | the framing of a payload |
| Framing.DeframeSerial | proto/swarm_proto.py:288-296 | the payload of a frame, or an error exactly where the source raises |
| Framing.SerialReader.Feed | proto/swarm_proto.py:306-326 | one feed delivers what a scan of the buffered and the new bytes yields, and keeps the undelimited rest |
| Framing.ScanResume | proto/swarm_proto.py:309-326 | scanning may stop anywhere: the rest carries all that is needed to go on |
| Framing.ChunkingIrrelevant | proto/swarm_proto.py:299-326 | how a stream is cut into chunks makes no difference to payloads or rest |
| Framing.FramesDelivered | proto/swarm_proto.py:281-326 | frames sent one after another come out as the payloads that went in, in order |
| Framing.DamageIsContained | proto/swarm_proto.py:299-326 | arbitrary bytes in place of one frame change nothing of what the frames before and after it deliver |
| SerialLink.SwarmCrc16 | proto/swarm_protocol.h:231-246 | the firmware CRC is the host CRC |
| SerialLink.CobsDecode | swarm_node/src/serial_link.c:47-71 | -1 exactly when the host decoder raises or the result exceeds the buffer, and otherwise the same bytes |
| SerialLink.CrcMatches | swarm_node/src/serial_link.c:80-86 | the trailer check of a decoded frame |
| SerialLink.DispatchFrame | swarm_node/src/serial_link.c:73-96 | what one delimited frame hands on: a payload of 16 to 256 bytes that the host would deliver too, or nothing |
| SerialLink.Receiver.Receive | swarm_node/src/serial_link.c:108-121 | the receive half of the interrupt handler, byte by byte, with its overrun rule |
| SerialLink.ReceiverAgreesIff | swarm_node/src/serial_link.c:73-121 | over every stream: the firmware delivers exactly the host reader's payloads of acceptable size if and only if no piece of more than 516 bytes has a tail it accepts; what it keeps is the tail of the host's undelimited rest |
| SerialLink.ReceiverRefinesReader | swarm_node/src/serial_link.c:73-121 | so without overruns the two deliver the same and keep the same undelimited bytes |
| SerialLink.OverrunDiverges | swarm_node/src/serial_link.c:114-120 | behind 517 bytes of noise the two differ: the firmware takes a frame the host refuses |
| SerialLink.SerialLinkSend | swarm_node/src/serial_link.c:147-190 | for payloads up to 256 bytes exactly the host's frame, in at most 261 of 264 bytes; longer ones are dropped |
| SerialLink.MakeBody | swarm_node/src/serial_link.c:156-161 | payload and little-endian CRC |
| SerialLink.EncodeInto | swarm_node/src/serial_link.c:163-184 | the stuffing loop writes the encoding into the buffer and never past its end |
| Codec.RoundTrip | proto/swarm_proto.py:331-746 | for all ten message types in range, decoding the encoding gives the message back |
| Codec.DecodeEncode | proto/swarm_proto.py:331-746 | with any bytes appended, the message comes back in normal form exactly when its type ignores appended bytes |
| Codec.NormalIsIdentity | proto/swarm_proto.py:368-672 | the normal form loses nothing exactly when the fields were in range |
| Codec.HeaderTrip | proto/swarm_proto.py:332-353 | the header comes back, its id padded to eight bytes |
| Codec.HelloTrip | proto/swarm_proto.py:356-405 | HELLO comes back with the bytes of its names cut to length, whatever follows |
| Text.TextTrip | proto/swarm_proto.py:356-365 | text that is not cut decodes to itself, for every sequence of scalar values |
| Text.CutArrives | proto/swarm_proto.py:356-365 | text cut at any number of bytes decodes to the characters that fit, and a replacement character if the cut went through one |
| Text.CutUnchangedIff | proto/swarm_proto.py:356-365 | it comes back unchanged exactly when it fits, or the cut went through a final replacement character |
| Text.HelloNames | proto/swarm_proto.py:383-405 | the two names of a HELLO are read as texts cut at 24 and at 32 bytes |
| Text.Rfc3629 | proto/swarm_proto.py:356-358 | two examples of section 7 of RFC 3629 |
| Codec.TelemetryTrip | proto/swarm_proto.py:419-483 | TELEMETRY comes back; its optional trailer is whatever can be read behind the readings |
| Codec.NoTrailer | proto/swarm_proto.py:462-483 | without a trailer of its own a message takes nine appended bytes for one |
| Codec.ReadingsTrip | proto/swarm_proto.py:440-476 | the variable-length list of readings comes back |
| Codec.NeighborsTrip | proto/swarm_proto.py:495-517 | NEIGHBORS comes back, with its list, whatever follows |
| Codec.RangeReqTrip | proto/swarm_proto.py:521-536 | RANGE_REQ comes back |
| Codec.RangeRespTrip | proto/swarm_proto.py:540-558 | RANGE_RESP comes back |
| Codec.RouteTrip | proto/swarm_proto.py:562-588 | ROUTE comes back, with its subscriptions, whatever follows |
| Codec.CommandTrip | proto/swarm_proto.py:592-629 | CMD and BROADCAST come back, whatever follows |
| Codec.PoseTrip | proto/swarm_proto.py:633-669 | POSE_INJECT comes back with its kinematics forced into their fields |
| Struct.TakePack | proto/swarm_proto.py:331-746 | unpacking what was packed gives the values back and leaves the rest |
| Struct.TakeFails | proto/swarm_proto.py:331-746 | unpacking fails exactly when the data is shorter than the format |
| HeaderWriter.HdrWrite | proto/swarm_protocol.h:271-287 | the firmware writes exactly the bytes the host packs for the header, and nothing else |
| HeaderWriter.PutU32 | proto/swarm_protocol.h:256-263 | four little-endian bytes in place, the rest of the buffer untouched |
| HeaderWriter.PutU16 | proto/swarm_protocol.h:249-254 | two little-endian bytes in place, the rest of the buffer untouched |
| HeaderWriter.PutI32 | proto/swarm_protocol.h:265-268 | a signed value by its two's complement |
| NodeMessages.BuildTelemetry | swarm_node/src/swarm_coap.c:164-192 | telemetry as the firmware writes it, byte by byte, is at most 84 bytes and decodes at the host to the snapshot, with its readings and its optional trailer |
| NodeMessages.BuildHello | swarm_node/src/swarm_coap.c:137-156 | the same of the greeting: at most 87 bytes, decoded to what the node says of itself |
| NodeMessages.BuildNeighbors | swarm_node/src/swarm_coap.c:213-241 | the same of the neighbor table: at most 245 bytes, decoded to its first nineteen entries, with a count patched in afterwards |
| NodeMessages.SendTelemetry | swarm_node/src/swarm_coap.c:206-210 | a snapshot sent up the serial link: the host's reader delivers one payload and keeps nothing, and the payload decodes to the snapshot |
| NodeMessages.PutField | proto/swarm_protocol.h:249-268 | one writer call adds exactly the next field of the host's record |
| NodeReceiver.PoseAdopted | swarm_node/src/swarm_coap.c:398-414 | the pose the host packs is the pose the node reads at its offsets, each quantity forced into its field |
| NodeReceiver.PoseArrives | swarm_node/src/swarm_coap.c:398-475 | from the host's frame on the wire to the pose adopted: the receiver hands on one payload, and that pose is in it |
| NodeReceiver.RouteTaken | swarm_node/src/swarm_coap.c:281-313 | the node takes the parent and the role the host assigns: none for all ones, the old one for a parent it has not heard of |
| NodeReceiver.PositionLearned | swarm_node/src/swarm_coap.c:432-439 | a peer's position is learned exactly from telemetry that has one, and it is the one reported |
| NodeReceiver.TimesHeard | swarm_node/src/ranging.c:106-114 | a ranging answer: whose question it answers and the three times |
| NodeReceiver.CommandHeard | swarm_node/src/swarm_coap.c:315-322 | a command or broadcast: opcode, length and parameters |
| NodeReceiver.FieldAt | proto/swarm_protocol.h:190-211 | a packed record holds each value where the widths before it say |
| JetsonEkf.EveryRunIsSound | jetson_agent/ekf.py:56-190 | from the constructor, over every sequence of predictions and updates (camera covariance not negative), P is symmetric and positive semidefinite with every variance at least 1e-6 |
| JetsonEkf.StepSound | jetson_agent/ekf.py:56-190 | every call keeps that, keeps P diagonal until anchored, and no measurement raises any variance |
| JetsonEkf.ResetSound | jetson_agent/ekf.py:56-61 | overwriting two variances of a diagonal covariance leaves a covariance |
| JetsonEkf.WrapPi | jetson_agent/ekf.py:33-34 | the representative of an angle in [-pi, pi), whole turns away from it |
| JetsonEkf.JetsonEKF.constructor | jetson_agent/ekf.py:38-48 | the initial filter |
| JetsonEkf.JetsonEKF.SetAnchor | jetson_agent/ekf.py:56-61 | the whole new state after anchoring: origin and metres per degree, estimate and covariance entry by entry |
| JetsonEkf.JetsonEKF.Advance | jetson_agent/ekf.py:71-93 | the whole new state after a prediction, guards included |
| JetsonEkf.JetsonEKF.UpdateScalar | jetson_agent/ekf.py:97-112 | the whole new state after a scalar update: gain, state, wrapped heading, corrected and conditioned covariance |
| JetsonEkf.JetsonEKF.UpdateNrf | jetson_agent/ekf.py:121-137 | anchoring on the first pose, five scalar updates on each later one |
| JetsonEkf.JetsonEKF.UpdateVio | jetson_agent/ekf.py:139-149 | two rate updates and, for a turn above the threshold, a heading update |
| JetsonEkf.JetsonEKF.UpdateRange | jetson_agent/ekf.py:151-165 | which ranges are used: anchored, up to 50 metres, half a metre or more from the peer; the whole new state; a range not used changes nothing |
| JetsonEkf.MotionIsTransition | jetson_agent/ekf.py:74-81 | the state moves by the very matrix its covariance is propagated with |
| JetsonEkf.ResidualShrinks | jetson_agent/ekf.py:97-106 | a scalar update leaves of the innovation exactly the share r / S |
| Corrections.NrfCorrects | jetson_agent/ekf.py:121-137 | a pose report, field by field in latitude, longitude, velocities and compass heading: of the difference between what is measured and the estimate before each of the five updates, the share r / S is left after it |
| Corrections.VioCorrects | jetson_agent/ekf.py:139-149 | a camera motion: displacement over time measures the velocity, the turn the heading, and of each difference the share r / S is left |
| Corrections.RangeCorrects | jetson_agent/ekf.py:151-165 | a range: along the unit vector from the peer the estimate takes up all but std^2 / S of range minus distance, so a longer range pushes it away and a shorter one pulls it closer |
| Corrections.FieldCorrects | jetson_agent/ekf.py:97-112 | a state measured as z: of z minus the estimate the share r / S is left |
| Corrections.HeadingCorrects | jetson_agent/ekf.py:97-112 | the same of the heading, the short way round |
| Corrections.ShrinksTowards | jetson_agent/ekf.py:97-112 | what shrinks by such a share keeps its sign and does not grow: no estimate is moved past its measurement |
| Corrections.PredictMoves | jetson_agent/ekf.py:71-75 | between readings the estimate covers the ground its velocity covers |
| Prediction.PredictSplits | jetson_agent/ekf.py:71-93 | predicting over two stretches of time is predicting over both at once, estimate and covariance, unless a variance had to be floored in between |
| Prediction.GrowthSplits | jetson_agent/ekf.py:76-92 | before conditioning, for any matrix: propagation and process noise over parts of a stretch are those over the whole |
| Optimality.LeastVariance | jetson_agent/ekf.py:100-111 | the covariance after a scalar update has in each direction the least variance that any weight on the measurement could leave, and only one weight leaves it |
| Optimality.MovesBest | jetson_agent/ekf.py:100-106 | and the estimate moves by that weight, in every direction |
| Matrix.Discriminant | jetson_agent/ekf.py:97-112 | Cauchy-Schwarz for a covariance |
| Matrix.CorrectedPSD | jetson_agent/ekf.py:100-111 | a scalar correction keeps a covariance positive semidefinite and only ever lowers the form |
| Matrix.CorrectedSymmetric | jetson_agent/ekf.py:109-111 | and keeps it symmetric |
| Covariance.PropagatedSound | jetson_agent/ekf.py:76-83 | F P F^T is symmetric and positive semidefinite with P |
| Covariance.NoiseSound | jetson_agent/ekf.py:85-92 | the process noise is symmetric and positive semidefinite |
| Covariance.ConditionSound | jetson_agent/ekf.py:183-190 | conditioning a symmetric positive semidefinite matrix only raises variances, and floors them all |
| Covariance.PredictedSound | jetson_agent/ekf.py:76-93 | the time update keeps a sound covariance sound, for every transition matrix |
| Covariance.UpdatedSound | jetson_agent/ekf.py:97-112 | the scalar update keeps a sound covariance sound |
| Covariance.UpdateNeverInflates | jetson_agent/ekf.py:97-112 | a measurement raises no variance |
| FlatMatrix.ConditionInPlace | swarm_node/src/ekf.c:50-64 | the in-place loop over a flat array symmetrises and floors |
| FlatMatrix.MulInto | swarm_node/src/ekf.c:67-78 | the three nested loops compute the product |
| FlatMatrix.MulAbtInto | swarm_node/src/ekf.c:81-92 | the three nested loops compute the product with the transpose |
| FlatMatrix.AddNoise | swarm_node/src/ekf.c:253-266 | the nine additions are the process-noise matrix |
| FlatMatrix.DowndateInPlace | jetson_agent/ekf.py:109-111 | the double loop subtracts the outer product |
| TwoRow.BatchIsSequential | swarm_node/src/ekf.c:129-172 | before flooring, the joint update with two states gives the covariance and the state of the two single updates in sequence |
| TwoRow.Updated2Sound | swarm_node/src/ekf.c:129-172 | the joint update keeps a sound covariance sound |
| TwoRow.DetBound | swarm_node/src/ekf.c:137-145 | the innovation determinant is never below the product of the two variances of measurement |
| TwoRow.JointResidual | swarm_node/src/ekf.c:129-172 | of the two innovations y a joint update with variance r leaves e, with S e = r y |
| Flooring.JointMatchesScalars | swarm_node/src/ekf.c:129-172 | as coded, flooring included, the joint covariance update is the two scalar updates whenever the first leaves the second variance above the floor and the innovation is not close to singular |
| Flooring.JointMatchesScalarsIff | swarm_node/src/ekf.c:129-172 | for any positive second variance of measurement they agree in exactly these cases: above the guard, when the first leaves the second variance above the floor or the second state tied to no other; below it, when both states are exhausted. Variances of measurement whose product is not tiny are always above it |
| Flooring.TwoIdleIff | jetson_agent/ekf.py:97-112 | two scalar updates in sequence leave the covariance as it was exactly when both variances are at the floor and nothing is tied to them |
| Sharper.SharperIff | swarm_node/src/ekf.c:129-172 | a joint update with a smaller variance of measurement than the two scalar ones agrees with them exactly where both states stand alone and even the larger variance takes both to the floor |
| Sharper.Coincides | jetson_agent/ekf.py:183-190 | not so where the scalar ones floor in between: with 0.25 and a slightly smaller variance two states at the floor, tied to each other, come out the same |
| PositionFix.PositionFixIff | swarm_node/src/ekf.c:271-287 | one position fix of half a metre or more, as `ekf_update_gps_pos` and `update_nrf` take it: the two filters end in the same state and covariance exactly when the first correction leaves the second variance above the floor, or nothing is left to correct and the second state is tied to no other |
| PositionFix.CoarseFixDiffers | swarm_node/src/sensors.c:209-221 | a covariance for which they differ at four metres, from every state and for every measurement |
| PositionFix.PreciseFixIff | jetson_agent/ekf.py:128-131 | under half a metre, where the Jetson keeps to a variance of a quarter: above the guard and unless the Jetson floors in between, they agree exactly where both states stand alone, a quarter takes both variances to the floor, and there is nothing to correct |
| PositionFix.PreciseFixDiffers | jetson_agent/ekf.py:128-131 | a covariance for which they differ at a decimetre, from every state and for every measurement |
| PositionFix.SkippedFixIff | swarm_node/src/ekf.c:129-145 | below the guard, which only a fix under half a metre reaches, the firmware skips the fix; the Jetson's two updates never cancel out, so they agree exactly when both states are exhausted and there is nothing to correct |
| PositionFix.SkippedFixDiffers | swarm_node/src/ekf.c:129-145 | at a millimetre, with both variances at the floor, the firmware ignores a fix the Jetson takes |
| NodeEkf.SingleIsScalar | swarm_node/src/ekf.c:94-127 | the column form of the single update is the general scalar update |
| NodeEkf.RangeIsScalar | swarm_node/src/ekf.c:316-342 | the one-vector form of the range update is the general scalar update |
| NodeEkf.StepSound | swarm_node/src/ekf.c:94-342 | every predict and update step keeps a sound covariance sound |
| NodeEkf.EveryRunIsSound | swarm_node/src/ekf.c:94-342 | so does every run between anchor resets |
| AnchorReset.OverwrittenIff | swarm_node/src/ekf.c:192-215 | overwriting the two position variances of any sound covariance with a value leaves a covariance if and only if, with velocities and heading taken out, the two variances moved as far are not negative and carry their cross term |
| AnchorReset.AnchorResetIff | swarm_node/src/ekf.c:192-204 | the same of the anchor reset, for every sound covariance |
| AnchorReset.EliminatedPSD | swarm_node/src/ekf.c:192-204 | taking a state out, as a perfect measurement of it would, does not decide whether a symmetric matrix is positive semidefinite |
| AnchorReset.BlockPSD | swarm_node/src/ekf.c:192-204 | two states: positive semidefinite exactly when the diagonal is not negative and the cross term squared is at most its product |
| AnchorReset.StillFrom | swarm_node/src/ekf.c:217-269 | the covariance after any readings at rest, as a function of the time they cover |
| AnchorReset.StillResetIff | swarm_node/src/ekf.c:178-204 | of a filter that has only been at rest since it started, the anchor reset leaves a covariance exactly when (25t + t^2/2)^2 is at most 25(25 + t), t being the time elapsed |
| AnchorReset.AnchorResetBreaks | swarm_node/src/ekf.c:178-204 | one second at rest before the first fix is too long |
| AnchorReset.StillSoundIff | swarm_node/src/ekf.c:192-204 | positions tied to their velocities alone: sound exactly when each cross term fits its two variances |
| NodeEkf.WrapPi | swarm_node/src/ekf.c:38-47 | the two loops end within half a turn of zero |
| NodeEkf.Down | swarm_node/src/ekf.c:40-42 | whole turns are taken off until the angle is at most pi |
| NodeEkf.Up | swarm_node/src/ekf.c:43-45 | whole turns are added until the angle is at least -pi |
| NodeEkf.EkfState.Advance | swarm_node/src/ekf.c:217-269 | the whole new state after a prediction, guards included |
| NodeEkf.EkfState.Correct1 | swarm_node/src/ekf.c:95-127 | the whole new state after a single update |
| NodeEkf.EkfState.Correct2 | swarm_node/src/ekf.c:130-172 | the whole new state after a joint update |
| NodeEkf.EkfState.CorrectRange | swarm_node/src/ekf.c:316-342 | the whole new state after a range update |
| NodeEkf.EkfState.SetAnchor | swarm_node/src/ekf.c:192-204 | the whole new state after anchoring: estimate, covariance, origin and flags |
| NodeEkf.EkfState.SetAnchorProvisional | swarm_node/src/ekf.c:206-215 | the same for a placeholder anchor, trusted to a kilometre |
| NodeEkf.EkfState.UpdateGpsPos | swarm_node/src/ekf.c:271-291 | the first real fix anchors; of every later one, in metres from the anchor beyond the estimate, the joint update leaves e with S e = std^2 y above the guard, and convergence is decided |
| NodeCorrections.FixTowards | swarm_node/src/ekf.c:271-287 | so a fix moves an estimate whose coordinates are not tied to each other towards itself in each of them, and not past it |
| NodeEkf.FixLeaves | swarm_node/src/ekf.c:271-287 | the same share for any position in metres, for every covariance above the guard |
| NodeEkf.SingleLeaves | swarm_node/src/ekf.c:94-127 | a single update leaves of the difference the share r / S |
| NodeEkf.RangeLeaves | swarm_node/src/ekf.c:316-342 | a range update leaves along its direction the share r / S |
| NodeEkf.EkfState.UpdateGpsVel | swarm_node/src/ekf.c:293-304 | the whole new state after a GPS velocity |
| NodeCorrections.SpeedTaken | swarm_node/src/ekf.c:293-298 | speed times cosine and sine of the course are the velocities measured; of what they say beyond the estimate the share r S^-1 is left, and the guard never skips it |
| NodeCorrections.CourseTaken | swarm_node/src/ekf.c:293-304 | above 0.7 m/s the heading is corrected too, towards where the velocity points |
| NodeEkf.EkfState.UpdateHeading | swarm_node/src/ekf.c:306-311 | the whole new state after a compass heading |
| NodeCorrections.CompassTaken | swarm_node/src/ekf.c:306-311 | a compass heading is a yaw counted from east the other way round; of the difference, the short way round, the share r / S is left |
| NodeEkf.EkfState.UpdatePeerRange | swarm_node/src/ekf.c:344-362 | the whole new state after a peer's range, the peer's place in metres from the anchor |
| NodeCorrections.RangeMeansTheSame | swarm_node/src/ekf.c:344-362 | from one estimate and covariance the firmware and the Jetson end alike after a range to one peer, wherever the Jetson takes the range at all |
| NodeEkf.EkfState.UpdateZupt | swarm_node/src/ekf.c:364-367 | the whole new state after a reading at rest |
| NodeCorrections.RestTaken | swarm_node/src/ekf.c:364-367 | at rest both velocities shrink by r S^-1 |
| NodeEkf.CallersSound | swarm_node/src/ekf.c:293-367 | these keep a sound covariance sound |
| NodeCorrections.HeadingLeaves | swarm_node/src/ekf.c:94-127 | a heading measurement leaves the share r / S of the difference, the short way round |
| NodeCorrections.PredictMoves | swarm_node/src/ekf.c:217-248 | between readings the estimate covers the ground its mean velocity covers, and the velocity changes by the acceleration in the local frame |
| NodeCorrections.TurnIs | swarm_node/src/ekf.c:222-224 | the heading turns by what the gyroscope says, whole turns aside |
| NodeCorrections.BodyToLocal | swarm_node/src/ekf.c:223-230 | which way the body's acceleration points in the local frame, and that turning loses nothing |
| NodeCorrections.MotionTilts | swarm_node/src/ekf.c:217-251 | the matrix the covariance is propagated with is the derivative of the motion: off by d and by an angle, the motion ends off by the matrix times d, up to second order in the angle |
| Graph.Dijkstra | olympus_link/autorouter.py:64-81 | exact least walk costs, infinite exactly for unreachable nodes, a shortest-path tree, and no node's edges gone through twice, however ties are broken |
| Graph.Lowered | olympus_link/autorouter.py:76-80 | shortening one distance keeps the search invariant |
| Graph.WalksAreLonger | olympus_link/autorouter.py:71-81 | once the queue is empty no walk is shorter than the distance of its end |
| Adjacency.BuildGraph | olympus_link/autorouter.py:47-62 | the nested loops compute the graph |
| Adjacency.LinkCost | olympus_link/autorouter.py:31-37 | a link costs at least a tenth, and at least one for anything the wire can carry |
| Adjacency.CostsAddUp | olympus_link/autorouter.py:31-37 | one for the best link, one more for every ten decibels below -50, every fifty metres and every 64 points of quality, each on its own |
| Adjacency.EdgeMeaning | olympus_link/autorouter.py:53-61 | an edge costs the mean of what its two ends report, or the word of the only one; without a report there is none |
| Adjacency.GraphSound | olympus_link/autorouter.py:47-62 | the graph is symmetric and positive, over the online modules and the gateway |
| Adjacency.OrderIrrelevant | olympus_link/autorouter.py:47-62 | the order in which modules are gone through does not show in the graph |
| Parents.PrimaryFacts | olympus_link/autorouter.py:114-127 | a module has a primary exactly when it can reach the gateway, and the primary is at most the margin worse than the best next hop |
| Parents.OrphanIff | olympus_link/autorouter.py:114-127 | no primary is chosen exactly for the modules no walk connects to the gateway |
| Parents.ChoiceIsFixed | olympus_link/autorouter.py:114-127 | choosing again changes nothing, even under other tie-breaking |
| Parents.DistancesUnique | olympus_link/autorouter.py:64-81 | distances do not depend on tie-breaking |
| Parents.PickSecondary | olympus_link/autorouter.py:129-142 | the loop computes the first best eligible neighbour, ties in the order of the neighbours |
| Parents.BestOf | olympus_link/autorouter.py:133-142 | whatever it picks is a neighbour other than the primary and strictly closer to the root |
| Parents.SecondaryBest | olympus_link/autorouter.py:129-142 | no eligible neighbour is cheaper, and there is a secondary whenever one is eligible |
| Parents.SecondaryIff | olympus_link/autorouter.py:129-142 | in terms of walks: there is a secondary exactly when some neighbour other than the primary has a walk to the gateway cheaper than every walk of the node itself; it is such a neighbour, and no way over another such is shorter than the one over it |
| Parents.PrimaryIff | olympus_link/autorouter.py:114-127 | in terms of walks: the current parent stays exactly when the way over it, less the margin, is no longer than any walk; otherwise the primary is a neighbour over which a shortest walk leads, or none where there is no walk |
| Loops.StretchBound | olympus_link/autorouter.py:114-127 | a chain of k primaries that reaches the gateway costs at most dist / (1 - margin)^k, however stale the kept parents |
| Loops.MixedHopsDeliver | olympus_link/autorouter.py:114-142 | where every primary is strictly closer, any mixture of primary and secondary hops never repeats a node and can go on until it is at the gateway |
| Loops.NearHopsDeliver | olympus_link/autorouter.py:114-142 | so under the distance bound |
| Loops.HopDescends | olympus_link/autorouter.py:129-142 | where every primary is strictly closer every hop is |
| Loops.NearIsDown | olympus_link/autorouter.py:114-127 | under the distance bound every primary is strictly closer |
| Loops.CloseNetworksAreNear | olympus_link/autorouter.py:31-37 | where every edge costs at least one, being close to the gateway is enough for the bound |
| Histories.LoopFreeIff | olympus_link/autorouter.py:114-127 | some history of ticks from no parents, over reports the wire can carry, makes the tick leave a loop if and only if some edge between two nodes breaks the bound: the margin can keep it although it leads no closer; where the tick's identifiers fit eight bytes and its margin is none or at least 2^-60, so do those of the history |
| Histories.MixedHopsIff | olympus_link/autorouter.py:114-142 | after some history hops that mix primaries and secondaries can repeat a node if and only if some edge breaks the bound |
| Histories.HistoryDelivers | olympus_link/autorouter.py:114-142 | where none does, after any history any mixture of hops never repeats a node and can go on until it is at the gateway |
| Histories.UphillLoops | olympus_link/autorouter.py:119-127 | for every such edge two ticks from no parents after which its two ends hang on each other, and stay so |
| Histories.MeetUp | olympus_link/autorouter.py:114-127 | any two modules can be brought, in two ticks from no parents, to hang on each other, for every positive margin; with identifiers of eight bytes for every margin of at least 2^-60 |
| Histories.HistoryNoneOwn | olympus_link/autorouter.py:114-127 | no history makes a module its own parent, even if it reports itself |
| Histories.TwoTicksLoop | olympus_link/autorouter.py:31-127 | with the default margin two ticks over ordinary neighbour reports end in a loop |
| Router.Autorouter.Compute | olympus_link/autorouter.py:85-112 | every online module gets the assignment of this tick over exact distances; exactly those whose assignment differs from what they were last told are returned, once each; a second call over an unchanged registry returns nothing and changes nothing; the parents held afterwards are the ones the theorems on loops, hops and histories are about |
| Router.Autorouter.OrphanIff | olympus_link/autorouter.py:181-183 | orphans, as the stored routes have them after a tick, are exactly the online modules that no walk connects to the gateway |
| Router.Autorouter.SecondaryIff | olympus_link/autorouter.py:93-111 | the same of the secondaries in the stored routes after a tick |
| Router.Autorouter.ToldIs | olympus_link/autorouter.py:96-111 | what an online module was last told is what its stored route says, after every tick |
| Router.Autorouter.ParentsChosen | olympus_link/autorouter.py:93-111 | the stored primaries and secondaries after a tick are what the theorems on loops and hops require |
| Router.ModuleState.Reassign | olympus_link/autorouter.py:96-111 | one module's new route, and whether it has to be pushed |
| Router.SecondTickIdle | olympus_link/autorouter.py:85-112 | a route that came from a tick is what any tick over the same reports makes of it, even if the search breaks its ties differently |
| Router.AssignedPicked | olympus_link/autorouter.py:96-111 | the assignments of a tick are the ones the theorems on parents and loops are about |
| Bundles.GreedyOptimal | olympus/brain/olympus_brain/cbba.py:255-286 | no sequence of at most `max_bundle_size` different tasks is worth more than the greedy bundle |
| Bundles.BestToFront | olympus/brain/olympus_brain/cbba.py:244-244 | moving the best task to the front never costs anything |
| Bundles.ValueIsTotal | olympus/brain/olympus_brain/cbba.py:244-253 | the value maximised is the sum of the scores the auction gives to the positions |
| Bundles.FillGreedy | olympus/brain/olympus_brain/cbba.py:265-286 | what the bundle phase builds is greedy |
| Bundles.FillIdle | olympus/brain/olympus_brain/cbba.py:265-286 | a greedy bundle is not filled any further |
| Bundles.Keys | olympus/brain/olympus_brain/cbba.py:121-122 | the keys of a dictionary built from the task list |
| Allocator.CBBAAllocator.RunAllocation | olympus/brain/olympus_brain/cbba.py:112-164 | at most three rounds, and the returned bundle is greedy and optimal |
| Allocator.CBBAAllocator.Round | olympus/brain/olympus_brain/cbba.py:131-157 | one round: the own bundle becomes greedy or stays what it was, and the consensus phase changes nothing |
| Allocator.CBBAAllocator.BundlePhase | olympus/brain/olympus_brain/cbba.py:255-286 | the own bundle after the loop; every task it took stands at the score of its place, under the own name and the current time; every other task stands as it did |
| Allocator.CBBAAllocator.BestTask | olympus/brain/olympus_brain/cbba.py:266-278 | the inner loop finds the best open task |
| Allocator.CBBAAllocator.ConsensusPhase | olympus/brain/olympus_brain/cbba.py:288-334 | the whole new state after the loop over tasks, and whether anything changed |
| Allocator.CBBAAllocator.ResolveTask | olympus/brain/olympus_brain/cbba.py:300-332 | the whole new state after one task's turn |
| Auction.PhaseSettles | olympus/brain/olympus_brain/cbba.py:288-334 | with distinct time stamps one phase leaves every task with at most one holder, and with exactly one if anyone held it |
| Auction.PhaseThins | olympus/brain/olympus_brain/cbba.py:325-326 | bundles only shrink, and what is left keeps its order |
| Auction.SettledIff | olympus/brain/olympus_brain/cbba.py:300-332 | after its turn a task has at most one holder exactly when its best claim was not tied; held tasks stay held |
| Auction.PhaseSettledIff | olympus/brain/olympus_brain/cbba.py:288-334 | over the whole phase, whatever the stamps: a task ends with at most one holder exactly when its best claim was not tied at its turn |
| Auction.SettlesAnyhowIff | olympus/brain/olympus_brain/cbba.py:288-334 | one phase leaves every task with at most one holder, whatever the scores, exactly when no two executors that hold one task have snapshots of the same time |
| Auction.SharedStampsStay | olympus/brain/olympus_brain/cbba.py:320-326 | two holders of one task with the same time both keep it under some scores, none of them negative |
| Auction.ResolveOthers | olympus/brain/olympus_brain/cbba.py:300-332 | the other tasks stay where they are |
| Auction.KeeperIff | olympus/brain/olympus_brain/cbba.py:300-326 | a holder keeps the task exactly when no holder's base score times 0.7 to the power of its place exceeds its own, and none that equals it has a later snapshot |
| Auction.EqualClaimsStay | olympus/brain/olympus_brain/cbba.py:320-326 | two equal claims both survive |
| DetectionStore.EveryRunAccounts | olympus/brain/olympus_brain/detection_buffer.py:72-187 | over every interleaving of buffering and sync cycles, complete or cut short: the table stays within its limit, a row is synced only if its present contents were published, and every detection is stored, published, replaced under its id, or dropped as eviction allows |
| DetectionStore.UnsyncedLeaves | olympus/brain/olympus_brain/detection_buffer.py:72-187 | in no run does an unsynced row leave, or change, except that a later detection took its id, a cycle published it and marked it, or it was evicted from a full table that keeps no synced row and no older one |
| DetectionStore.NewcomerLeaves | olympus/brain/olympus_brain/detection_buffer.py:72-137 | a detection is evicted by its own insertion only from a full table that keeps no synced row and no older one |
| DetectionStore.DetectionBuffer.Buffer | olympus/brain/olympus_brain/detection_buffer.py:72-137 | the row goes in; rows leave only to get down to the limit, synced ones first, unsynced ones only when no synced one is left, oldest first |
| DetectionStore.DetectionBuffer.EnforceLimit | olympus/brain/olympus_brain/detection_buffer.py:99-132 | the same for the eviction alone |
| DetectionStore.SelectOldest | olympus/brain/olympus_brain/detection_buffer.py:109-123 | `ORDER BY timestamp ASC LIMIT n` over a set of rows |
| DetectionStore.DetectionBuffer.GetUnsynced | olympus/brain/olympus_brain/detection_buffer.py:139-159 | the oldest unsynced rows, in order |
| DetectionStore.DetectionBuffer.MarkSynced | olympus/brain/olympus_brain/detection_buffer.py:161-174 | exactly the named rows become synced |
| DetectionStore.DetectionBuffer.PurgeSynced | olympus/brain/olympus_brain/detection_buffer.py:176-187 | exactly the synced rows go, and their number is returned |
| DetectionStore.DetectionSyncer.Cycle | olympus/brain/olympus_brain/detection_buffer.py:311-332 | what one cycle publishes, up to the first failure, and what it leaves in the table |
| DetectionStore.CycleDrains | olympus/brain/olympus_brain/detection_buffer.py:311-332 | a complete cycle leaves exactly the unsynced rows it did not send |
| Localization.DetBound | olympus_link/localization.py:61-84 | for any number of anchors the determinant is at least lambda^2 + lambda * trace, so the singularity guard never fires |
| Localization.StepSolves | olympus_link/localization.py:77-86 | the step solves the damped normal equations exactly |
| Localization.StepDescends | olympus_link/localization.py:61-88 | every step goes downhill, strictly unless the gradient is zero |
| Objective.GradientIs | olympus_link/localization.py:61-76 | away from the anchors g is half the gradient of the sum of squared residuals: the change of that sum differs from 2 g times the move by at most a constant times the square of the move |
| Objective.StepLowers | olympus_link/localization.py:61-88 | so any part of the step short enough for that constant lowers the sum of squared residuals |
| Localization.FitStays | olympus_link/localization.py:57-90 | where every range fits the search stays |
| Localization.SearchPath | olympus_link/localization.py:57-90 | the search goes step by step and ends after the last iteration or with the first step shorter than a millimetre |
| Localization.StartBalanced | olympus_link/localization.py:51-56 | without a guess it starts where the offsets to the anchors balance |
| Localization.FormNonneg | olympus_link/localization.py:63-76 | J^T J is a sum of squares |
| Localization.Multilaterate | olympus_link/localization.py:41-97 | a fix for any three or more anchors with matching ranges, none otherwise; which point and residual it is; and from a guess at which every range fits, that guess without error |
| Localization.SearchRunsOut | olympus_link/localization.py:57-97 | for every number of iterations there are anchors, exact ranges and a guess for which the last step is still fifteen kilometres long and the point returned is off by five metres at every anchor |
| Localization.BuildNormal | olympus_link/localization.py:63-76 | the loop builds the normal equations |

## Left out

- JetsonEkf: `get_fix` and the conversion back to latitude and longitude; cosines and hypotenuses are parameters.
- CloseNetworksAreNear: a sufficient bound, not a necessary one.
- SharperIff: leaves aside the case that the scalar updates floor the second variance in between; there the condition is another one, as `Coincides` shows.
- PreciseFixIff: the same, for fixes under half a metre; the firmware's callers give four and five metres.
- Text: lone surrogates, which a Python string can hold and on which encoding raises.
- Floating point: all filter, cost, score and localization arithmetic is over exact reals; `round(x, 6)` is dropped, and quantised wire fields appear as the integers they are rounded to.
- Time: clocks, timeouts and random election delays are parameters, free in every step.
- Consensus: transport is not part of the source; vote responses reach the candidate that asked, heartbeats are sent only by leaders for their current term, and every drone's peer list is at least as long as the number of the others.
- Consensus: crash and restart of a drone; the source keeps its term and vote in memory only, so a restarted drone could vote twice in a term.
- Liveness of elections: that a leader can always be elected is proved, not that one will be; delays and losses may go on for ever, and the leader branch sends nothing.
- Serial and USB transport, ring buffers, interrupts, CoAP and the transmit half of the interrupt handler.
- Firmware filter: reading the position back.
- Firmware messages: the node's record is a value here and not updated in place; the ranging table, permissions and the effects of commands are left out.
- Router: the ranking of subscription providers is a parameter; the route hash is taken as injective; the module's own route message and the dashboard topology are left out.
- Registry: ingest, expiry and draining of new modules.
- Auction: rules of engagement, deadlines and comms factors are folded into each task's base score, fixed during one allocation.
- Detections: columns that only queries read, parse failures of stored rows, database errors (which the source logs and swallows), and the text form of timestamps, which are numbers here.
- Localization: `localize`, range gathering and the quality score; convergence of the iteration, which the source does not guarantee.
- Executor, missions, coverage, collision avoidance, comms modes, drift detection, belief map, TDMA and LoRa.
