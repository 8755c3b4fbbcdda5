# JetKVM client: verification model

A Dafny model of the JetKVM plugin's device client (`candy/plugin-jetkvm/internal/kvmclient`),
with proofs of what its protocols promise. `dafny verify dfyconfig.toml` checks the project.

## What is modelled

**The HID control protocol** (`HidProto`, `HidCore`, `HidProtocol`, `HidInvariant`, `HidSteps`,
`HidTheorems`, `HidTurns`, `HidWriter`, `HidOrder`, `HidReserve`, `HidProgress`, `HidLiveness`,
`HidSuccess`, `HidRecovery`, `HidGreeting`, `HidWitness`).
One control lease at a time may type and point at a live machine. The safety story is that a lease
starts from a machine with nothing held down, and that ending a lease is only called clean when the
device acknowledged neutral reports. The difficulty is that the single writer validates a frame inside
`stateMu` but calls `Send` outside it, so a frame can be validated, its lease revoked, and only then sent.

- `HidCore.Core` is what `stateMu` guards; every critical section is a function on it, and class
  `HidCore.HidClient` is the same sections updating fields in place, each method proved equal to its
  function.
- `HidProtocol.Do` is the step relation: one step per critical section, enqueue, dequeue, level read,
  `Send` (accepted, failed with the frame delivered, failed with the frame lost), acknowledgement of
  a prefix, buffered-low callback, context expiry and `closeWith`. A `select` is a choice among its
  enabled arms. The transport is an ordered log of frames with a delivered and an acknowledged prefix;
  `BufferedAmount` is the byte sum of the unacknowledged rest. The device reads the frames on three
  independent interfaces.
- `HidInvariant.Inv` is kept by every step (`HidSteps.StepKeepsInv`). The guarantees are stated for every
  run, that is for every interleaving: neutrality and exclusion (`HidTheorems`, `HidTurns`), what the
  single writer sends, refuses and reports (`HidWriter`, `HidOrder`), the buffer (`HidReserve`), progress
  (`HidProgress`, `HidLiveness`), what a release and the next lease can count on (`HidSuccess`,
  `HidRecovery`), and the handshake (`HidGreeting`).

**RTP receive statistics** (`Words`, `RtpSequence`, `RtpFrames`, `RtpPayload`): the sequence tracker
against unbounded sequence numbers, the frame tracker against the grouping of all packets into
maximal equal-timestamp runs, and the STAP-A and FU-A parsers against the format of RFC 6184.

**Annex B and freshness** (`AnnexB`, `FrameCapture`): the byte stream splitter and builder, frame
assembly, and the generation-numbered broadcast screenshots wait on, with the track reader,
failures, seeds and any number of waiters interleaved.

**JSON-RPC correlation** (`Rpc`, `RpcHistory`, `RpcProgress`, `RpcPending`): numbered calls, the pending
map, one-value channels, the outbound buffer and the ambiguous-delivery marker, with callers, the read
pump and the failure callbacks interleaved; class `RpcPending.RpcClient` is the pending map updated in place.

**Scrolling** (`ScrollSession`): the two protocols side by side, coupled by Client.Scroll, whose wheel
request travels over the RPC channel under a lease of the HID channel.

**Trickle ICE** (`Signaling`), **drag gestures** (`PointerDrag`) and **typed text** (`TypeText`).

Loops and field updates of the source are methods and classes here, each proved equal to a
specification or to a stated property; the lemmas are about those specifications.

## Where the code does less than its description

- *Once the channel is closed no frame may be written* (`hid.go:53-55`), *so a queued frame authorized
  before the drop can never be written afterwards* (`session.go:185-188`). Not always:
  a holder's frame that passed its last validation before the connection failed is still sent after the
  close, even when `releaseAllAndClose` then took the gate and returned nil (`HidWitness.CloseCanTrail`). It
  holds if and only if the writer is not between its last validation and `Send` when the channel closes
  (`HidTheorems.CloseStopsOffers`), which a nil return from the ready state guarantees
  (`ConfirmedCloseStopsOffers`). Neutrality after a nil return holds regardless (`NilCloseStaysNeutral`).
- *The reserve keeps the complete neutral set enqueueable when input has reached its lower limit*
  (`hid.go:118-121`). Not always: a neutral frame of an earlier release that timed out can still be
  between its last validation and `Send`, and takes the room (`HidWitness.ReserveCanFallShort`). The exact
  condition is `HidReserve.ReserveSuffices`; without such a frame the reserve is enough (`ReserveIsEnough`).

One bound is worth knowing: `lost()` follows any number of 16-bit wraps, but `cycles` is a `uint32`, so the
extended number is cut to 48 bits. The result is exact if and only if the highest number is below 2^48 or
nothing is missing (`RtpSequence.LostIsExact`); it is never overstated (`LostNeverOverstated`), and
`LossCanBeCutOff` names about 2^33 arrivals, all inside the window, for which it is too small.

## Model

| member | source | states |
|---|---|---|
| `HidTheorems.LeaseStartsNeutral` | candy/plugin-jetkvm/internal/kvmclient/hid.go:659-685 | whenever a lease generation is issued, in every run, the frames offered so far leave no key and no button down, however many were delivered and however each failed Send ended; nor would a frame the writer is about to send |
| `HidTurns.HandoverIsNeutral` | candy/plugin-jetkvm/internal/kvmclient/owner.go:92-223 | control changes hands only through a neutral device: between two ordinary frames of different generations, anywhere in the transport's order, there is a point at which every key and button is up |
| `HidTurns.HoldersTakeTurns` | candy/plugin-jetkvm/internal/kvmclient/hid.go:486-509 | every ordinary frame ever offered carries an issued generation, and frames enter the transport in the order their generations were issued: holders never interleave |
| `HidTurns.NeutralNeverCutsIn` | candy/plugin-jetkvm/internal/kvmclient/hid.go:719-829 | no neutral report, not even one of a release that timed out, ever follows an ordinary frame of a generation issued after that release |
| `HidTurns.LiveLeaseIsAlone` | candy/plugin-jetkvm/internal/kvmclient/hid.go:486-509 | while a lease stays live, starting with no frame past its last validation, nothing but its own holder's frames enters the transport |
| `HidTheorems.ReleaseConfirms` | candy/plugin-jetkvm/internal/kvmclient/hid.go:758-829 | a release transaction that held the gate, started ready and returned nil: every byte offered is acknowledged, the held model is empty, the device is neutral, nothing is in flight |
| `HidTheorems.RevokedNeverFollows` | candy/plugin-jetkvm/internal/kvmclient/hid.go:709-829 | no ordinary frame of a generation revoked by a transaction, or of an earlier one, ever follows a neutral report of that transaction, even one validated just before the revocation |
| `HidTheorems.HeldOverApproximates` | candy/plugin-jetkvm/internal/kvmclient/hid.go:150-172 | at every step the held model accounts for the device, now and after any delivery of what was offered, ambiguous Sends included |
| `HidTheorems.AnyNeutralStart` | candy/plugin-jetkvm/internal/fakedevice/fakedevice.go:171-189 | from any neutral initial device, not only a fresh one, the device is neutral after exactly the same prefixes of the log |
| `HidTheorems.PlanNeverFails` | candy/plugin-jetkvm/internal/kvmclient/hid.go:838-869 | at any revocation the plan can be built: an absolute button recorded as held always has in-range coordinates |
| `HidTheorems.NeutralizationKeepsPointer` | candy/plugin-jetkvm/internal/kvmclient/hid.go:838-869 | without Send errors, neutral reports never move the absolute pointer: it stays where the last ordinary absolute report put it |
| `HidWriter.BarrierHolds` | candy/plugin-jetkvm/internal/kvmclient/hid.go:443-470 | the drain barrier holds: while the writer stands at the barrier of a live generation whose context has not ended and something is unacknowledged, no continuation has put another frame into the transport |
| `HidWriter.AbandonedNeverSent` | candy/plugin-jetkvm/internal/kvmclient/hid.go:372-391 | a frame whose context has ended before its last validation is never handed to Send, in any continuation |
| `HidWriter.AdmissibleIsSent` | candy/plugin-jetkvm/internal/kvmclient/hid.go:363-411 | a request the code admits (live context, right state and token, room in the buffer) is validated and offered by the writer's own steps |
| `HidWriter.LastCheckIsExact` | candy/plugin-jetkvm/internal/kvmclient/hid.go:375-391 | the last validation passes if and only if state and token admit the frame and its context has not ended |
| `HidWriter.RefusalHasReason` | candy/plugin-jetkvm/internal/kvmclient/hid.go:363-391 | a request refused before Send was refused for its context, state, token or the buffer |
| `HidWriter.SuccessIsTrue` | candy/plugin-jetkvm/internal/kvmclient/hid.go:392-412 | success is reported only for a frame that is in the transport, and for a drain request only after everything offered was acknowledged |
| `HidWriter.SendIsReported` | candy/plugin-jetkvm/internal/kvmclient/hid.go:392-412 | an accepted Send is reported as success at once or starts the barrier, a failed one as a failure |
| `HidWriter.BarrierEndsForCause` | candy/plugin-jetkvm/internal/kvmclient/hid.go:457-484 | a drain request leaves its barrier with success exactly when a look at the level finds everything acknowledged, and without it only because its context or its generation has ended |
| `HidOrder.EveryRequestIsAnsweredOnce` | candy/plugin-jetkvm/internal/kvmclient/hid.go:314-361 | at every step the requests answered, the one in the writer's hands and those queued are exactly the requests handed over, in order: each is answered once, none is lost |
| `HidOrder.LogKeepsInputOrder` | candy/plugin-jetkvm/internal/kvmclient/hid.go:314-336 | ordinary frames enter the transport in the order they were handed over |
| `HidOrder.PriorityFirst` | candy/plugin-jetkvm/internal/kvmclient/hid.go:314-336 | from Poll, a queued privileged request is the one taken |
| `HidOrder.AtMostOneOvertakes` | candy/plugin-jetkvm/internal/kvmclient/hid.go:314-336 | a queued privileged request is overtaken by at most one ordinary request, whatever the schedule |
| `HidOrder.QueuesStayBounded` | candy/plugin-jetkvm/internal/kvmclient/hid.go:100-109 | at most 16 ordinary and 4 privileged requests are ever queued |
| `HidOrder.RoomIsUsed` | candy/plugin-jetkvm/internal/kvmclient/hid.go:514-555 | and nothing is turned away below those limits |
| `HidOrder.UnusedIsNotHeld` | candy/plugin-jetkvm/internal/kvmclient/hid.go:914-972 | the held model is not pessimistic: an interface nobody asked to press anything on is never recorded as held |
| `HidTheorems.GenerationsAreBurned` | candy/plugin-jetkvm/internal/kvmclient/hid.go:674-717 | activeGen is 0 or genCounter, activeDone exists exactly while it is live, issued tokens strictly increase, ready implies the device's echo |
| `HidTheorems.BufferIsBounded` | candy/plugin-jetkvm/internal/kvmclient/hid.go:424-441 | outbound bytes never exceed 4096, in any reachable state |
| `HidTheorems.OrdinaryLeavesReserve` | candy/plugin-jetkvm/internal/kvmclient/hid.go:424-441 | no outcome of sending an ordinary frame takes outbound bytes above 4074 |
| `HidReserve.ReserveSuffices` | candy/plugin-jetkvm/internal/kvmclient/hid.go:118-122 | a release from ready, in every run: no plan frame of its first attempt is refused for the buffer in any continuation, however little is acknowledged, if and only if the bytes buffered at the revocation, the frame then past its last validation and the whole plan come to at most 4096 (the only-if for a live context) |
| `HidReserve.ReserveIsEnough` | candy/plugin-jetkvm/internal/kvmclient/hid.go:118-122 | so from at most 4074 buffered bytes, with no privileged frame past its last validation, the whole plan passes in every continuation |
| `HidWitness.ReserveCanFallShort` | candy/plugin-jetkvm/internal/kvmclient/hid.go:394-411 | a run in which a release starts from ready with 4074 bytes buffered and a live context, and a neutral frame of it is refused for the buffer because one of a release that timed out was still on its way |
| `HidTheorems.DrainHasOneWaiter` | candy/plugin-jetkvm/internal/kvmclient/hid.go:443-484 | bufferedAmountLow never has two consumers |
| `HidTheorems.DrainWakes` | candy/plugin-jetkvm/internal/kvmclient/hid.go:443-484 | no lost wakeup: a drain blocked on an empty buffer has the edge, or a callback that produces it, and the edge lets it go on |
| `HidTheorems.BarrierIsReleased` | candy/plugin-jetkvm/internal/kvmclient/hid.go:457-470 | a writer blocked on a drain barrier can always leave it once its generation is no longer live |
| `HidTheorems.CloseStopsOffers` | candy/plugin-jetkvm/internal/kvmclient/hid.go:871-883 | after closeWith no generation is ever issued; no frame is ever offered if and only if the writer is not past its last validation |
| `HidTheorems.ConfirmedCloseStopsOffers` | candy/plugin-jetkvm/internal/kvmclient/hid.go:742-756 | releaseAllAndClose that started ready and returned nil: no continuation offers any frame |
| `HidTheorems.NilCloseStaysNeutral` | candy/plugin-jetkvm/internal/kvmclient/hid.go:742-756 | releaseAllAndClose that returned nil from any state: the device is neutral in every continuation, after any delivery |
| `HidWitness.CloseCanTrail` | candy/plugin-jetkvm/internal/kvmclient/hid.go:742-756 | a run through handshake, lease and a holder's report in which the connection fails, releaseAllAndClose takes the gate and returns nil, and that report is offered afterwards |
| `HidTheorems.NoLeaseAfterAmbiguousScroll` | candy/plugin-jetkvm/internal/kvmclient/client.go:284-312 | once a scroll's delivery is ambiguous, no continuation issues a lease generation, and the channel is closed before the scroll's slot changes hands |
| `ScrollSession.WheelNeverOutlivesItsLease` | candy/plugin-jetkvm/internal/kvmclient/client.go:284-312 | with both channels running: a wheel request that reached SendText and whose response was not consumed never coexists with a lease generation later than its own, during the call or in any state after it |
| `ScrollSession.SessionEndsOnlyWhenAmbiguous` | candy/plugin-jetkvm/internal/kvmclient/client.go:288-313 | a scroll ends the session only if one of its wheel calls returned ambiguous |
| `ScrollSession.AnsweredScrollReleases` | candy/plugin-jetkvm/internal/kvmclient/client.go:288-313 | a wheel call that consumed its response leaves the session open and its lease can be released |
| `ScrollSession.ScrollCanBegin` | candy/plugin-jetkvm/internal/kvmclient/client.go:270-300 | a holder that is not scrolling can, under the generation it holds |
| `ScrollSession.EveryScrollEnds` | candy/plugin-jetkvm/internal/kvmclient/client.go:284-313 | every wheel call that returns ends its scroll; an ambiguous one closes the channel and then frees its slot too |
| `ScrollSession.StepKeepsInv` | candy/plugin-jetkvm/internal/kvmclient/client.go:284-312 | every step of either protocol, and the start and end of a wheel call decided by its marker, keeps the coupling |
| `HidTheorems.RunClosed` | candy/plugin-jetkvm/internal/kvmclient/hid.go:871-883 | from a closed channel every continuation stays closed, issues nothing, holds nothing new, and adds at most the one frame already validated |
| `HidWitness.LeaseCanBeIssued` | candy/plugin-jetkvm/internal/kvmclient/hid.go:567-685 | a run from the initial state through handshake and acquisition to a held lease: the guarantees are about a non-empty set of runs |
| `HidRecovery.IssueIsExact` | candy/plugin-jetkvm/internal/kvmclient/hid.go:659-685 | a generation is issued if and only if the channel is ready, nothing is held and the context is live, and then it is a new one |
| `HidRecovery.LeaseAgain` | candy/plugin-jetkvm/internal/kvmclient/owner.go:92-223 | after a release that returned nil, in any run, the next caller can be issued a further lease |
| `HidRecovery.SlotComesFree` | candy/plugin-jetkvm/internal/kvmclient/owner.go:92-223 | from every reachable state the lease slot, being acquired, held or released, can be freed by the lease's own steps with writer, transaction and peer, whatever a release results in, unless a scroll still has a claim on it |
| `HidRecovery.FailureHasCause` | candy/plugin-jetkvm/internal/kvmclient/hid.go:784-829 | a release from ready ends in an error only if its context has ended or its second attempt failed too |
| `HidRecovery.PauseIsRetried` | candy/plugin-jetkvm/internal/kvmclient/hid.go:784-793 | a failed first attempt is followed by a second |
| `HidRecovery.AttemptFailsForCause` | candy/plugin-jetkvm/internal/kvmclient/hid.go:784-829 | an attempt fails only because its context ended, the writer is gone, a frame of it was refused or the last look found bytes unacknowledged; whether another follows depends on context and attempt alone |
| `HidRecovery.AttemptGoesOnForCause` | candy/plugin-jetkvm/internal/kvmclient/hid.go:794-805 | and goes on only past frames accepted under a live context, to a confirmation only with nothing unacknowledged |
| `HidRecovery.RevokeDecides` | candy/plugin-jetkvm/internal/kvmclient/hid.go:758-782 | the revoking section decides by the state it saw: from a channel that is not ready it is nil if and only if nothing was held, from ready it goes on to neutralize |
| `HidRecovery.ReleaseGivesUpAlone` | candy/plugin-jetkvm/internal/kvmclient/hid.go:784-829 | once its context has ended or the writer is gone, a release finishes by its own steps, without writer, peer or device |
| `HidRecovery.StoppedWriterAnswers` | candy/plugin-jetkvm/internal/kvmclient/hid.go:338-349 | a writer told to stop answers everything queued and ends, by its own steps |
| `HidRecovery.NothingIsLeftBehind` | candy/plugin-jetkvm/internal/kvmclient/hid.go:338-349 | the writer ends only after a stop and with both queues empty |
| `HidRecovery.ClosedCanStop` | candy/plugin-jetkvm/internal/kvmclient/hid.go:874-883 | a closed channel can always tell its writer to stop |
| `HidRecovery.OnlyClosedStops` | candy/plugin-jetkvm/internal/kvmclient/hid.go:314-349 | the writer is told to stop, and stops, only on a closed channel |
| `HidGreeting.ReadyMeansGreeted` | candy/plugin-jetkvm/internal/kvmclient/hid.go:572-624 | the channel is ready only after the handshake frame was offered and the echo arrived |
| `HidGreeting.CommitIsExact` | candy/plugin-jetkvm/internal/kvmclient/hid.go:610-623 | with the echo seen, the channel becomes ready if and only if it is not closed and the context is live |
| `HidGreeting.HandshakeFailureHasCause` | candy/plugin-jetkvm/internal/kvmclient/hid.go:589-608 | the handshake is given up only for its context, the writer or its refused frame |
| `HidGreeting.HopelessHandshakeEnds` | candy/plugin-jetkvm/internal/kvmclient/hid.go:589-608 | and then it can always end |
| `HidGreeting.AbandonedHandshakeNeverReady` | candy/plugin-jetkvm/internal/kvmclient/hid.go:572-624 | a handshake whose context ended before it was done never makes the channel ready, in any continuation |
| `HidProgress.WriterMoves` | candy/plugin-jetkvm/internal/kvmclient/hid.go:307-412 | the writer rests only when stopped, on empty queues, or on a drain barrier of the live generation that nothing has ended |
| `HidProgress.TransactionMoves` | candy/plugin-jetkvm/internal/kvmclient/hid.go:758-829 | a release transaction can be held up only by a peer with bytes left to acknowledge: otherwise it or the writer has an enabled step |
| `HidLiveness.EveryScheduleEnds` | candy/plugin-jetkvm/internal/kvmclient/hid.go:758-829 | with a release under way, every schedule of writer, transaction and peer is at most `Effort` steps long, whatever the stale edges, callbacks and queued frames, and when none of them can take a step the transaction has left the gate |
| `HidLiveness.TransactionFinishes` | candy/plugin-jetkvm/internal/kvmclient/hid.go:758-829 | from every reachable state with a release under way, some finite sequence of their steps brings it to its result |
| `HidSuccess.ReleaseCanSucceed` | candy/plugin-jetkvm/internal/kvmclient/hid.go:758-829 | from every reachable state in which a release has the gate, the channel is ready and its context is live, writer, transaction and peer can bring it to nil |
| `HidSteps.StepKeepsInv` | candy/plugin-jetkvm/internal/kvmclient/hid.go:307-883 | every step of the protocol keeps the invariant |
| `HidSteps.RunKeepsInv` | candy/plugin-jetkvm/internal/kvmclient/hid.go:307-883 | every run keeps the invariant |
| `HidTurns.StepKeepsTurns` | candy/plugin-jetkvm/internal/kvmclient/hid.go:307-883 | every step keeps the record of which generation's frames lie before and after each handover |
| `HidSteps.LastCheckKeepsInv` | candy/plugin-jetkvm/internal/kvmclient/hid.go:363-391 | the last validation, which records held and captures the barrier's channel before Send, keeps the invariant |
| `HidSteps.OfferKeepsInv` | candy/plugin-jetkvm/internal/kvmclient/hid.go:392-412 | each outcome of Send keeps the invariant, the two failures included |
| `HidSteps.BarrierKeepsInv` | candy/plugin-jetkvm/internal/kvmclient/hid.go:443-470 | each step of the writer's drain barrier keeps the invariant |
| `HidSteps.ReleaseKeepsInv` | candy/plugin-jetkvm/internal/kvmclient/hid.go:774-829 | queueing, awaiting, failing and retrying the plan's frames keeps the invariant |
| `HidSteps.RevokeKeepsInv` | candy/plugin-jetkvm/internal/kvmclient/hid.go:758-774 | the revoking critical section and its snapshot keep the invariant |
| `HidSteps.ConfirmKeepsHeld` | candy/plugin-jetkvm/internal/kvmclient/hid.go:803-829 | when held is cleared everything offered is acknowledged and covered by an empty model, and the coordinates stay |
| `HidSteps.BeginKeepsInv` | candy/plugin-jetkvm/internal/kvmclient/hid.go:630-685 | issuing a generation keeps the invariant |
| `HidSteps.NegotiateKeepsInv` | candy/plugin-jetkvm/internal/kvmclient/hid.go:567-624 | each step of the handshake keeps the invariant |
| `HidSteps.LeaseKeepsInv` | candy/plugin-jetkvm/internal/kvmclient/owner.go:92-223 | acquiring, releasing, the watchdog and closing keep the invariant |
| `HidCore.SectionsAdvance` | candy/plugin-jetkvm/internal/kvmclient/hid.go:630-717 | every critical section keeps the generation bookkeeping and only ever advances it: no generation comes back, a live one ends by closing its channel |
| `HidSteps.StepAdvances` | candy/plugin-jetkvm/internal/kvmclient/hid.go:630-883 | so does every step of the protocol |
| `HidCore.HidClient.BeginLeaseLocked` | candy/plugin-jetkvm/internal/kvmclient/hid.go:659-685 | the in-place section: a generation above all others, only from ready with nothing held, else an error and no change |
| `HidCore.HidClient.InvalidateLeaseLocked` | candy/plugin-jetkvm/internal/kvmclient/hid.go:709-717 | the in-place section; the live channel is closed at most once |
| `HidCore.HidClient.FinalValidationLocked` | candy/plugin-jetkvm/internal/kvmclient/hid.go:375-391 | the in-place section: held is recorded only for a frame that will be sent or a refused drain |
| `HidCore.HidClient.CloseWithLocked` | candy/plugin-jetkvm/internal/kvmclient/hid.go:871-883 | the in-place section: closed, no live generation, idempotent |
| `HidCore.HidClient.RevokeAndSnapshot` | candy/plugin-jetkvm/internal/kvmclient/hid.go:758-774 | revokes and returns state and held as they were |
| `HidCore.HidClient.ConfirmReleaseLocked` | candy/plugin-jetkvm/internal/kvmclient/hid.go:806-829 | clears exactly the interfaces the plan neutralized |
| `HidProto.MarshalRoundTrip` | candy/plugin-jetkvm/internal/kvmclient/hidproto/hidproto.go:67-83 | Unmarshal undoes Marshal; type 0 is the one message refused |
| `HidProto.EncodeReachesDevice` | candy/plugin-jetkvm/internal/kvmclient/hidproto/hidproto.go:89-194 | the four encoders the client uses (handshake, keyboard, absolute, relative) accept exactly the reports in range, write the stated number of bytes, and the device decodes exactly that report |
| `HidProto.WireFormat` | candy/plugin-jetkvm/internal/kvmclient/hidproto/hidproto.go:89-194 | the frames byte for byte: types 1, 2, 3 and 6, coordinates as four bytes with the most significant first, deltas in two's complement |
| `HidProto.DeltasSurvive` | candy/plugin-jetkvm/internal/kvmclient/hidproto/hidproto.go:185-194 | a relative report carries its deltas in order, signs included |
| `HidProto.HandshakeEcho` | candy/plugin-jetkvm/internal/kvmclient/hid.go:300-308 | the handshake frame sent is exactly the frame accepted as its echo |
| `HidProto.BigEndianRoundTrip` | candy/plugin-jetkvm/internal/kvmclient/hidproto/hidproto.go:165-180 | big-endian coordinates are read back exactly |
| `RtpSequence.TrackMirrors` | candy/plugin-jetkvm/internal/kvmclient/h264.go:244-300 | for arrivals within half the 16-bit space of the running maximum, the tracker's position, bitmap and counts are those of the unbounded numbers, across wraps |
| `RtpSequence.LostIsExact` | candy/plugin-jetkvm/internal/kvmclient/h264.go:303-318 | with no arrival more than 63 behind or before the first, lost() is the number missing if and only if the highest number is below 2^48 or nothing is missing |
| `RtpSequence.LostNeverOverstated` | candy/plugin-jetkvm/internal/kvmclient/h264.go:303-318 | lost() never exceeds the number missing, however late packets come |
| `RtpSequence.LossIsCutOff` | candy/plugin-jetkvm/internal/kvmclient/h264.go:244-318 | arrivals 0x7FFF apart whose highest number reaches 2^48 are inside the window and yet reported with too little loss |
| `RtpSequence.LossCanBeCutOff` | candy/plugin-jetkvm/internal/kvmclient/h264.go:244-318 | 8590196746 packets suffice, so the condition is needed |
| `RtpSequence.ReorderedIsExact` | candy/plugin-jetkvm/internal/kvmclient/h264.go:260-300 | reordered counts exactly the arrivals that came after a larger number and were not recognized as repeats; every arrival is ahead, late or a repeat |
| `RtpSequence.MaxJumpIsExact` | candy/plugin-jetkvm/internal/kvmclient/h264.go:271-283 | maxJump is the largest advance of the running maximum: a bound, and taken |
| `RtpSequence.EveryStreamIsTracked` | candy/plugin-jetkvm/internal/kvmclient/h264.go:260-272 | every stream of 16-bit numbers comes from such arrivals, so the statements above leave none out |
| `RtpSequence.UniqueCount` | candy/plugin-jetkvm/internal/kvmclient/h264.go:303-318 | received minus duplicates is at least the number of distinct packets, and equal to it within the bitmap's reach |
| `RtpSequence.ForwardWindow` | candy/plugin-jetkvm/internal/kvmclient/h264.go:271-283 | shifting the bitmap keeps bit i meaning the packet i below the maximum |
| `RtpSequence.DeltaIsTrue` | candy/plugin-jetkvm/internal/kvmclient/h264.go:260-272 | the 16-bit signed difference is the true one within half the space |
| `RtpSequence.SequenceTracker.ObservePacket` | candy/plugin-jetkvm/internal/kvmclient/h264.go:260-300 | the in-place update is the specified one |
| `RtpSequence.SequenceTracker.LostCount` | candy/plugin-jetkvm/internal/kvmclient/h264.go:303-318 | the in-place computation is the specified one |
| `RtpFrames.TrackSummarizes` | candy/plugin-jetkvm/internal/kvmclient/h264.go:327-375 | for any packets the tracker holds the statistics of their maximal equal-timestamp runs: timestamp changes, unmarked runs, longest run, longest keyframe run |
| `RtpFrames.LargestRunIsLongest` | candy/plugin-jetkvm/internal/kvmclient/h264.go:379-384 | largestRun is the longest run, the open one included |
| `RtpFrames.MarkersAreCounted` | candy/plugin-jetkvm/internal/kvmclient/h264.go:341-357 | markers counts the marked packets |
| `RtpFrames.GroupingExists` | candy/plugin-jetkvm/internal/kvmclient/h264.go:327-384 | every packet list has such a grouping, so the three statements above cover all inputs |
| `RtpFrames.FrameTracker.ObservePacket` | candy/plugin-jetkvm/internal/kvmclient/h264.go:341-357 | the in-place update is the specified one |
| `RtpPayload.StapAExact` | candy/plugin-jetkvm/internal/kvmclient/h264.go:157-211 | a STAP-A payload is not malformed exactly when what follows its header byte is a concatenation of non-empty length-prefixed units, and the mask is then exactly the set of their types |
| `RtpPayload.ClassIsByType` | candy/plugin-jetkvm/internal/kvmclient/h264.go:168-228 | types 1 to 23 are single units of exactly that type, 24 is a STAP-A, 28 an FU-A that needs two bytes, and nothing else carries a type |
| `RtpPayload.FragmentNamesItsUnit` | candy/plugin-jetkvm/internal/kvmclient/h264.go:217-228 | every FU-A fragment names the type of its unit and its start and end flags |
| `RtpPayload.ClassifySTAPA` | candy/plugin-jetkvm/internal/kvmclient/h264.go:193-211 | the loop terminates and is the specified walk |
| `RtpPayload.ClassifyRTPPayload` | candy/plugin-jetkvm/internal/kvmclient/h264.go:168-187 | the dispatch over payload kinds is the specified one |
| `AnnexB.SplitBuildSplit` | candy/plugin-jetkvm/internal/kvmclient/video.go:282-326 | for every byte string, splitting, building and splitting again gives the same units |
| `AnnexB.SplitOfBuildOnlyIf` | candy/plugin-jetkvm/internal/kvmclient/video.go:282-326 | splitting undoes building exactly for the lists with no start code inside a unit, empty units and trailing zeros included |
| `AnnexB.SplitOfStream` | candy/plugin-jetkvm/internal/kvmclient/video.go:296-326 | a code-free lead and then units after three-byte or four-byte start codes, in any mixture, splits into exactly those units, when none holds a start code or has a zero that the next code absorbs |
| `AnnexB.StreamOfSplit` | candy/plugin-jetkvm/internal/kvmclient/video.go:296-326 | conversely every byte string is a code-free lead and such a stream of exactly the units the splitter returns, so the two give its result on every input |
| `AnnexB.SplitIsCodeFree` | candy/plugin-jetkvm/internal/kvmclient/video.go:296-315 | no unit the splitter returns contains a start code |
| `AnnexB.SplitAnnexB` | candy/plugin-jetkvm/internal/kvmclient/video.go:296-315 | the index loop is the specified splitter |
| `AnnexB.BuildAnnexB` | candy/plugin-jetkvm/internal/kvmclient/video.go:282-289 | the appending loop is the specified builder |
| `AnnexB.IndexStartCode` | candy/plugin-jetkvm/internal/kvmclient/video.go:319-326 | the first start code at or after the index, or -1 when there is none |
| `FrameCapture.ReturnedFrameIsFresh` | candy/plugin-jetkvm/internal/kvmclient/video.go:145-265 | a frame a request got was published after the request read its boundary, was built from the newest SPS, the newest PPS and the IDR slices of the unit that ended there, and splits back to exactly those |
| `FrameCapture.KeyframeIsPublished` | candy/plugin-jetkvm/internal/kvmclient/video.go:145-200 | the end of an access unit publishes exactly one frame if and only if the unit has an IDR slice, both parameter sets are known and nothing has failed |
| `FrameCapture.IdrsAreExact` | candy/plugin-jetkvm/internal/kvmclient/video.go:145-172 | the slices of a frame are exactly the unit's IDR slices, in order and as often as they occur |
| `FrameCapture.NewestIsLast` | candy/plugin-jetkvm/internal/kvmclient/video.go:150-165 | the parameter set used is the last of its type in the stream so far |
| `FrameCapture.LookIsExact` | candy/plugin-jetkvm/internal/kvmclient/video.go:240-265 | a waiter is given the newest frame past its boundary, else the failure, else it sleeps on the current channel |
| `FrameCapture.FailureIsRecorded` | candy/plugin-jetkvm/internal/kvmclient/video.go:127-139 | a failure is recorded and wakes everyone, once |
| `FrameCapture.ScreenshotIsFresh` | candy/plugin-jetkvm/internal/kvmclient/client.go:371-400 | in every run: the frame a request returns ended an access unit after the request took its boundary |
| `FrameCapture.NoLostWakeup` | candy/plugin-jetkvm/internal/kvmclient/video.go:240-274 | a sleeping waiter can wake exactly when a frame past its boundary or a failure is there, and its next look then returns the newest frame, or the failure |
| `FrameCapture.FailureIsTerminal` | candy/plugin-jetkvm/internal/kvmclient/video.go:127-139 | after a failure no frame is ever published, and every error a waiter is given is the first one recorded |
| `FrameCapture.StepKeepsInv` | candy/plugin-jetkvm/internal/kvmclient/video.go:127-274 | every step of reader, failures, seeds and waiters keeps the invariant, and frames only accumulate |
| `FrameCapture.IngestIsItsSections` | candy/plugin-jetkvm/internal/kvmclient/video.go:145-200 | the interleaved critical sections, undisturbed, compute what ingest does |
| `FrameCapture.FrameStore.Ingest` | candy/plugin-jetkvm/internal/kvmclient/video.go:145-200 | the in-place scan and assembly: last SPS and PPS kept, a frame only with IDRs, both sets and no failure |
| `FrameCapture.FrameStore.SeedParameterSets` | candy/plugin-jetkvm/internal/kvmclient/video.go:209-224 | seeds only fill a gap |
| `FrameCapture.FrameStore.RecordFailure` | candy/plugin-jetkvm/internal/kvmclient/video.go:127-139 | the first failure wins and wakes the waiters |
| `FrameCapture.FrameStore.LookAfter` | candy/plugin-jetkvm/internal/kvmclient/video.go:240-256 | a newer frame is preferred to a failure, and a failure to waiting |
| `Rpc.MarkerIsExact` | candy/plugin-jetkvm/internal/kvmclient/rpc.go:187-305 | over the real channel, whose errors hold no DeviceError, a returned call is marked ambiguous if and only if SendText was invoked and no matching response was consumed |
| `Rpc.MarkerOverAnyChannel` | candy/plugin-jetkvm/internal/kvmclient/errors.go:76-86 | over any implementation of the channel interface the same, except for a SendText error that already holds a DeviceError of another kind |
| `Rpc.MarkerCanBeMasked` | candy/plugin-jetkvm/internal/kvmclient/errors.go:76-86 | that exception is needed in the general statement: a channel implementation returning this package's own DeviceError could leave a delivered request unmarked (the real channel cannot) |
| `Rpc.DeliveryNeverBlocks` | candy/plugin-jetkvm/internal/kvmclient/rpc.go:109-167 | no call's channel ever receives a second value, whatever the device sends, so no delivery blocks |
| `RpcHistory.ReplyIsItsFate` | candy/plugin-jetkvm/internal/kvmclient/rpc.go:109-167 | what a call consumed is the first, since it registered, of its own response, a malformed frame and the end of the channel; a response with its number and its body |
| `RpcHistory.FateIsFirst` | candy/plugin-jetkvm/internal/kvmclient/rpc.go:109-167 | that fate is the first such event after the registration |
| `RpcHistory.WaitingHearsItsFate` | candy/plugin-jetkvm/internal/kvmclient/rpc.go:109-167 | a waiting call is in the pending map if and only if its fate is open, and otherwise exactly that value is on its way or ready |
| `RpcHistory.PendingIsClean` | candy/plugin-jetkvm/internal/kvmclient/rpc.go:200-209 | the pending map holds only calls that registered, have not returned and are still to be told |
| `RpcHistory.WireIsExact` | candy/plugin-jetkvm/internal/kvmclient/rpc.go:286-305 | the bytes handed to the channel are the frames of the calls whose SendText went through, each once, in that order and at their encoded length |
| `RpcHistory.AbandonedCallNeverSent` | candy/plugin-jetkvm/internal/kvmclient/rpc.go:286-305 | a cancellation that wins the last check leaves no bytes: in no continuation is SendText invoked for that call, and it returns unmarked |
| `RpcHistory.NoCallAfterExpiry` | candy/plugin-jetkvm/internal/kvmclient/rpc.go:187-192 | no call is numbered under a context that has already ended |
| `RpcProgress.SendIsExact` | candy/plugin-jetkvm/internal/kvmclient/rpc.go:286-305 | a call holding sendMu is sent if and only if its context is live and its frame fits with what is buffered, and gives sendMu back either way |
| `RpcProgress.CallMoves` | candy/plugin-jetkvm/internal/kvmclient/rpc.go:187-305 | no deadlock: a call that has not returned can step, or waits for sendMu held by one that can, or waits uncancelled for a value still to come |
| `RpcProgress.OwnStepsAdvance` | candy/plugin-jetkvm/internal/kvmclient/rpc.go:187-305 | a call only moves forward, by at most eight steps of its own |
| `RpcProgress.CallLeavesForCause` | candy/plugin-jetkvm/internal/kvmclient/rpc.go:187-305 | a call gives up only for its encoding, its context, the buffer, a failed SendText or its reply, marked as each of them calls for |
| `RpcProgress.UnencodedCallReturns` | candy/plugin-jetkvm/internal/kvmclient/rpc.go:192-199 | a request that cannot be encoded changes nothing but its own call |
| `RpcProgress.CancelledCallReturns` | candy/plugin-jetkvm/internal/kvmclient/rpc.go:187-305 | once its context has ended a call returns by the client's own steps, whoever holds sendMu and whatever the device does |
| `Rpc.WaitingIsServed` | candy/plugin-jetkvm/internal/kvmclient/rpc.go:158-167 | a waiting call is never forgotten: its value is pending, on its way or there, and a channel failure reaches it |
| `Rpc.BufferIsBounded` | candy/plugin-jetkvm/internal/kvmclient/rpc.go:283-305 | buffered RPC bytes never exceed 64 KiB in any run |
| `Rpc.StepKeepsInv` | candy/plugin-jetkvm/internal/kvmclient/rpc.go:109-305 | every step of callers, read pump and callbacks keeps the invariant |
| `RpcPending.RpcClient.HandleMessage` | candy/plugin-jetkvm/internal/kvmclient/rpc.go:109-156 | a response reaches exactly the call it names, a malformed frame fails every pending call, anything else changes nothing |
| `RpcPending.RpcClient.FailPending` | candy/plugin-jetkvm/internal/kvmclient/rpc.go:158-167 | every pending call gets the error once, into an empty channel, and nothing stays pending |
| `RpcPending.RpcClient.Enroll` | candy/plugin-jetkvm/internal/kvmclient/rpc.go:192-204 | a fresh number and a fresh channel, the rest of the map unchanged |
| `Signaling.PumpSignalingEvents` | candy/plugin-jetkvm/internal/kvmclient/session.go:400-455 | the calls to AddICECandidate are, in order, the first 64 candidates before the first successful answer and every candidate after it; none precedes that answer; the overflow is counted |
| `Signaling.AppliedIsExact` | candy/plugin-jetkvm/internal/kvmclient/session.go:400-455 | with the first successful answer between them, the candidates added are the first 64 from before and all from after it; without one, none |
| `Signaling.ListsAreExact` | candy/plugin-jetkvm/internal/kvmclient/session.go:426-455 | the lists of candidates and answers hold exactly those, in order |
| `Signaling.CallListsAreExact` | candy/plugin-jetkvm/internal/kvmclient/session.go:415-455 | so do the lists of what was added and described |
| `Signaling.NoiseIsInvisible` | candy/plugin-jetkvm/internal/kvmclient/session.go:387-399 | removing all malformed and unhandled messages changes none of those calls |
| `Signaling.OneMoreMessage` | candy/plugin-jetkvm/internal/kvmclient/session.go:387-399 | nor does inserting or removing one of them anywhere |
| `Signaling.FirstAnswerSplits` | candy/plugin-jetkvm/internal/kvmclient/session.go:415-425 | the two halves the calls are taken from are what precedes and follows the first successful answer |
| `Signaling.CallsOnlyAccumulate` | candy/plugin-jetkvm/internal/kvmclient/session.go:403-411 | stopping early loses only a tail of those calls |
| `PointerDrag.DragIsEven` | candy/plugin-jetkvm/internal/kvmclient/pointer_drag.go:55-86 | per axis every move is the floor or the ceiling of distance over steps + 1, the path is monotone and stays between the endpoints, and it starts and ends where asked |
| `PointerDrag.BuildPointerDragReports` | candy/plugin-jetkvm/internal/kvmclient/pointer_drag.go:55-86 | succeeds exactly on legal endpoints, button and step count; steps + 3 reports on the rounded-down segment, a zero-button report last, always passing the validator |
| `PointerDrag.ValidatePointerDragReports` | candy/plugin-jetkvm/internal/kvmclient/pointer_drag.go:26-47 | accepts exactly the bounded non-empty sequences of legal reports with a button, and names the first illegal report |
| `PointerDrag.BuildPointerDrag` | candy/plugin-jetkvm/internal/kvmclient/charly_extension.go:118-124 | the same with 24 steps when none are asked for |
| `PointerDrag.DragReachesDevice` | candy/plugin-jetkvm/catalog.go:512-516 | narrowing loses nothing: the device shows each validated report |
| `PointerDrag.DragFits` | candy/plugin-jetkvm/internal/kvmclient/hid.go:111-116 | in every run: from an empty buffer, with the lease live throughout and its holder offering only a legal drag, every frame of the drag passes the buffer check, however little is acknowledged |
| `TypeText.TextSurvives` | candy/plugin-jetkvm/catalog.go:388-399 | a host typing a character on each key-up to key-down transition, reading usages by US layout, recovers exactly the text from the raw frames, repeats included, and ends with no key down |
| `TypeText.MapsExactly` | candy/plugin-jetkvm/internal/kvmclient/type_string.go:97-179 | the mapper covers exactly printable ASCII, newline and tab, and each press reads back as its character |
| `TypeText.MapTypeString` | candy/plugin-jetkvm/internal/kvmclient/type_string.go:185-207 | one press per character, or an error naming the first unsupported one and no press at all |
| `TypeText.MapTypeReports` | candy/plugin-jetkvm/internal/kvmclient/charly_extension.go:140-154 | one six-slot report per character, or the error |
| `TypeText.TypeIt` | candy/plugin-jetkvm/catalog.go:370-401 | accepted text is offered as its press and release stream, all of it or, when a send fails, exactly up to that send; rejected text offers no report |
| `TypeText.PrefixReadsPrefix` | candy/plugin-jetkvm/catalog.go:392-399 | whatever prefix of those frames arrives, the host has read a prefix of the text |

## Left out

- SendText, Send, Pion and SCTP themselves: an ordered log or byte queue with late acknowledgements and failures whose frame may or may not have been delivered.
- Wall-clock durations: contexts end by a nondeterministic step. The scroll RPC's 28 s bound, and the session close that follows an ambiguous result, are taken to end before the lease's 30 s watchdog.
- 64-bit wrap-around of genCounter, nextID, the frame generation and the frame tracker's counters: they are unbounded here. The sequence tracker's words are modelled at their width.
- What an ordinary HID caller does with its result: callers may ask for any token with any context at any time, which covers every caller; what the writer reports to them is tracked, their own waiting is not.
- closeWith's stateMu section and its stop signal are two steps, and the close cause it records is not kept.
- Go's send on a full request queue is a step that is not enabled; the caller's other select arms (its context, writerDone) end its request without effect on the model's state.
- The keypress and keep-alive encoders: the client never sends those frames.
- A device with something held down when the client connects: the client never establishes neutrality then, and every neutrality statement starts from a neutral device.
- The device's keyboard: the repository's fake device covers the two mouse interfaces, and the model lets the last keyboard report decide what is down.
- Video tracks beyond one: the model has one track reader; capture times and the diagnostics counters are not kept.
- RpcPending covers the pending map alone; how calls wait and send is in Rpc, on values, because callers interleave.
- JSON encoding and decoding: a frame is taken as oversized, undecodable, an event, or a response with its number.
- Text is a sequence of characters: invalid UTF-8, which decodes to an unsupported character and is refused, is not represented.
- The deferred release reports of the drag and key methods after a failed send: the lease's own release covers them.
- HTTP login, websocket dialing, SDP, TLS, the decoder, OCR, the provider and console session code, key-name tables and error texts: library calls, or single-branch lookups.
- waitForReadiness and sendQueuedICECandidates: their claims are visible in one body.
