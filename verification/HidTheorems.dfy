/** What the HID control protocol guarantees in every run. Throughout, `run` is any
    sequence of enabled steps from the initial state and `s` the state it reaches. */
module HidTheorems {
  import opened Outcomes
  import opened HidProto
  import opened HidCore
  import opened HidProtocol
  import opened HidInvariant
  import opened HidSteps

  predicate Reaches(run: seq<Action>, s: Sys) { Exec(INIT, run) == Some(s) }

  lemma ReachableInv(run: seq<Action>, s: Sys)
    requires Reaches(run, s)
    ensures Inv(s)
  {
    InitInv();
    RunKeepsInv(INIT, run, s);
  }

  // --- generations --------------------------------------------------------------

  /** The live generation is 0 or the counter; its done-channel exists exactly while
      it is live; issued tokens strictly increase; ready implies the device's echo. */
  lemma GenerationsAreBurned(run: seq<Action>, s: Sys)
    requires Reaches(run, s)
    ensures s.core.activeGen == 0 || s.core.activeGen == s.core.genCounter
    ensures s.core.activeDone.Some? <==> s.core.activeGen != 0
    ensures forall i, j | 0 <= i < j < |s.client.issued| :: s.client.issued[i] < s.client.issued[j]
    ensures s.core.state == Ready ==> s.client.echo
    ensures s.core.activeGen != 0 ==> s.core.state == Ready
  {
    ReachableInv(run, s);
  }

  // --- held model ---------------------------------------------------------------

  /** The held model accounts for the device now and after any further delivery of
      what was offered; and a frame validated but not yet sent is recorded already. */
  lemma HeldOverApproximates(run: seq<Action>, s: Sys, k: nat)
    requires Reaches(run, s) && s.wire.delivered <= k <= |s.wire.log|
    ensures Covers(s.core.held, Replay(s.wire.log, k))
    ensures s.writer.Sending? ==> Recorded(s.core.held, s.writer.req.report)
  {
    ReachableInv(run, s);
    CoversReplay(s.core.held, s.wire.log, s.wire.delivered, k);
  }

  /** Building the neutral plan never fails, whenever the revocation comes. */
  lemma PlanNeverFails(run: seq<Action>, s: Sys)
    requires Reaches(run, s)
    ensures BuildPlan(s.core.held).Success?
    ensures s.core.held.absoluteButtons ==> s.core.held.positionKnown && InRange(s.core.held.x, s.core.held.y)
  {
    ReachableInv(run, s);
    if s.core.held.absoluteButtons {
      EncodeReachesDevice(Pointer(s.core.held.x, s.core.held.y, 0), POWER_ON);
    }
  }

  // --- a lease starts from a neutral device -------------------------------------

  /** Whenever a generation is issued, every frame offered so far, whatever part of
      it has been delivered and however its Send ended, leaves no key and no button
      down; so does a frame the writer is just about to send. */
  lemma LeaseStartsNeutral(run: seq<Action>, s: Sys, s': Sys, k: nat)
    requires Reaches(run, s) && Do(s, Lease(BeginSection)) == Some(s')
    requires |s'.client.issued| > |s.client.issued|
    requires s.wire.delivered <= k <= |s.wire.log|
    ensures Replay(s.wire.log, k).Neutral()
    ensures s.writer.Sending? ==> Apply(Replay(s.wire.log, k), s.writer.req.report).Neutral()
    ensures forall g <- s.client.issued :: g < s'.core.activeGen
  {
    ReachableInv(run, s);
    assert !s.core.held.Any();
    HeldOverApproximates(run, s, k);
  }

  /** The device after the first k frames, from any state it was found in. */
  function ReplayFrom(d: Device, log: seq<Entry>, k: nat): Device
    requires k <= |log|
  {
    if k == 0 then d else Apply(ReplayFrom(d, log, k - 1), log[k - 1].report)
  }

  /** Nothing above depends on where the device started, as long as nothing was held then:
      from any neutral start it is neutral after exactly the same prefixes. */
  lemma {:induction false} AnyNeutralStart(d: Device, log: seq<Entry>, k: nat)
    requires d.Neutral() && k <= |log|
    ensures ReplayFrom(d, log, k).keyboard.IsReleaseAll() <==> Replay(log, k).keyboard.IsReleaseAll()
    ensures ReplayFrom(d, log, k).absButtons == Replay(log, k).absButtons
    ensures ReplayFrom(d, log, k).relButtons == Replay(log, k).relButtons
    ensures ReplayFrom(d, log, k).Neutral() <==> Replay(log, k).Neutral()
  {
    if k > 0 { AnyNeutralStart(d, log, k - 1); }
  }

  // --- a confirmed release ------------------------------------------------------

  /** A release transaction that held the gate, started ready and has returned nil. */
  predicate ReleasedOk(s: Sys) { s.gate.Releasing? && s.gate.tx.wasReady && DoneOk(s.gate.tx) }

  lemma ReleaseConfirms(run: seq<Action>, s: Sys)
    requires Reaches(run, s) && ReleasedOk(s)
    ensures IndicesOk(s.wire) && BufferedAmount(s.wire) == 0 && s.wire.acked == |s.wire.log|
    ensures !s.core.held.Any()
    ensures Replay(s.wire.log, |s.wire.log|).Neutral()
    ensures !s.writer.Sending?
  {
    ReachableInv(run, s);
    assert TxOk(s.gate.tx, s);
    EmptyBuffer(s.wire);
    HeldOverApproximates(run, s, |s.wire.log|);
  }

  lemma RevokeBurnsEpoch(s: Sys, s1: Sys)
    requires Inv(s) && Do(s, Finish(Revoke)) == Some(s1)
    ensures s1.gate.Releasing? && forall g <- s.client.issued :: g < s1.gate.tx.epoch
  {
  }

  lemma NeutralBelowLater(s: Sys, i: nat, j: nat)
    requires Inv(s) && i < j < |s.wire.log| && s.wire.log[i].privileged && !s.wire.log[j].privileged
    ensures s.wire.log[i].epoch < s.wire.log[j].token
  {
  }

  /** No ordinary frame of a generation revoked by a transaction, or of any earlier
      one, ever follows a neutral report of that transaction, even one that had
      passed validation just before the revocation. */
  lemma RevokedNeverFollows(run: seq<Action>, s: Sys, s1: Sys, more: seq<Action>, s2: Sys, i: nat, j: nat)
    requires Reaches(run, s) && Do(s, Finish(Revoke)) == Some(s1) && Exec(s1, more) == Some(s2)
    requires i < j < |s2.wire.log|
    requires s1.gate.Releasing? && s2.wire.log[i].privileged && s2.wire.log[i].epoch == s1.gate.tx.epoch
    requires !s2.wire.log[j].privileged
    ensures s2.wire.log[j].token !in s.client.issued
    ensures forall g <- s.client.issued :: g < s1.gate.tx.epoch < s2.wire.log[j].token
  {
    hide Do, Inv;
    ReachableInv(run, s);
    StepKeepsInv(s, Finish(Revoke), s1);
    RunKeepsInv(s1, more, s2);
    RevokeBurnsEpoch(s, s1);
    NeutralBelowLater(s2, i, j);
  }

  // --- the pointer ----------------------------------------------------------------

  /** Where the ordinary absolute reports alone would leave the pointer. */
  function OrdinaryPosition(log: seq<Entry>, k: nat): (int, int)
    requires k <= |log|
  {
    if k == 0 then (POWER_ON.x, POWER_ON.y)
    else if !log[k - 1].privileged && log[k - 1].report.Pointer? then (log[k - 1].report.x, log[k - 1].report.y)
    else OrdinaryPosition(log, k - 1)
  }

  lemma {:induction false} NoJumpsLeavePosition(log: seq<Entry>, k: nat)
    requires k <= |log| && forall j | 0 <= j < |log| :: NoJump(log, j)
    ensures (Replay(log, k).x, Replay(log, k).y) == OrdinaryPosition(log, k)
  {
    if k > 0 {
      NoJumpsLeavePosition(log, k - 1);
      assert NoJump(log, k - 1);
    }
  }

  /** Without Send errors, neutralization never moves the pointer: after any delivery
      it is where the last ordinary absolute report put it. */
  lemma NeutralizationKeepsPointer(run: seq<Action>, s: Sys, k: nat)
    requires Reaches(run, s) && !s.wire.failed && k <= |s.wire.log|
    ensures (Replay(s.wire.log, k).x, Replay(s.wire.log, k).y) == OrdinaryPosition(s.wire.log, k)
  {
    ReachableInv(run, s);
    NoJumpsLeavePosition(s.wire.log, k);
  }

  // --- bytes ----------------------------------------------------------------------

  /** Outbound bytes never exceed the hard bound. */
  lemma BufferIsBounded(run: seq<Action>, s: Sys)
    requires Reaches(run, s)
    ensures IndicesOk(s.wire) && BufferedAmount(s.wire) <= 4096
  {
    ReachableInv(run, s);
  }

  /** An ordinary frame never takes them into the neutral reserve. */
  lemma OrdinaryLeavesReserve(run: seq<Action>, s: Sys, outcome: SendOutcome, s': Sys)
    requires Reaches(run, s) && Do(s, OfferFrame(outcome)) == Some(s')
    ensures BufferedAmount(s.wire) <= 4096 && BufferedAmount(s'.wire) <= 4096
    ensures !s.writer.req.privileged && outcome != FailedLost ==>
              BufferedAmount(s'.wire) <= 4074
  {
    ReachableInv(run, s);
    StepKeepsInv(s, OfferFrame(outcome), s');
    BytesAppend(s.wire.log, Sent(s.writer.req), s.wire.acked);
  }

  function PlanBytes(frames: seq<Report>): nat {
    if |frames| == 0 then 0 else PlanBytes(frames[..|frames| - 1]) + Size(frames[|frames| - 1])
  }

  /** The arithmetic of the reserve: the neutral plan is at most 22 bytes, each of its frames
      encodes, and they pass the check one after another from the ordinary limit when
      nothing else enters the buffer. HidReserve says when nothing else does. */
  lemma PlanAlwaysFits(held: HeldInput, plan: Plan, buffered: nat, i: nat)
    requires BuildPlan(held) == Success(plan) && i < |plan.frames|
    requires buffered <= 4074
    ensures PlanBytes(plan.frames) <= 22
    ensures buffered + PlanBytes(plan.frames[..i]) <= 4096 - Size(plan.frames[i])
    ensures Encode(plan.frames[i]).Success? && |Encode(plan.frames[i]).value| == Size(plan.frames[i])
  {
    PlanFrames(held, plan, i);
    EncodeReachesDevice(plan.frames[i], POWER_ON);
    var f := plan.frames;
    assert f[..|f|] == f;
    assert forall n | 0 < n <= |f| :: f[..n][..n - 1] == f[..n - 1];
    assert PlanBytes(f[..1]) == 8;
    assert PlanBytes(f[..2]) == 12;
    assert |f| == 3 ==> PlanBytes(f[..3]) == 22;
  }

  // --- the drain ------------------------------------------------------------------

  /** bufferedAmountLow never has two consumers. */
  lemma DrainHasOneWaiter(run: seq<Action>, s: Sys)
    requires Reaches(run, s)
    ensures !(s.gate.Releasing? && (s.gate.tx.phase.Draining? || s.gate.tx.phase.DrainBlocked?) && AtBarrier(s.writer))
  {
    ReachableInv(run, s);
    if s.gate.Releasing? && s.gate.tx.phase.Draining? { assert TxOk(s.gate.tx, s); }
    OneWaiter(s);
  }

  /** No lost wakeup: a waiter blocked on an empty buffer has the edge waiting for
      it, or a callback about to produce one. */
  lemma DrainWakes(run: seq<Action>, s: Sys)
    requires Reaches(run, s) && IndicesOk(s.wire) && BufferedAmount(s.wire) == 0
    requires s.writer.Blocked? || TxBlocked(s.gate)
    ensures s.wire.edge || Do(s, Peer(Callback)).Some?
    ensures s.wire.edge && s.writer.Blocked? ==> Do(s, Barrier(TakeEdge)).Some?
    ensures s.wire.edge && TxBlocked(s.gate) ==> Do(s, Drain(DrainEdge)).Some?
  {
    ReachableInv(run, s);
    EmptyBuffer(s.wire);
  }

  /** A writer blocked on a drain barrier leaves it as soon as its generation is no
      longer the live one. */
  lemma BarrierIsReleased(run: seq<Action>, s: Sys)
    requires Reaches(run, s) && s.writer.Blocked? && s.writer.req.token != s.core.activeGen
    ensures Exec(s, [Barrier(SeeInvalidated), Barrier(LookAgain)]).Some?
    ensures Exec(s, [Barrier(SeeInvalidated), Barrier(LookAgain)]).value.writer == Poll
  {
    ReachableInv(run, s);
    var s1 := Do(s, Barrier(SeeInvalidated)).value;
    var s2 := Do(s1, Barrier(LookAgain)).value;
    assert [Barrier(SeeInvalidated), Barrier(LookAgain)][1..] == [Barrier(LookAgain)];
    assert Exec(s1, [Barrier(LookAgain)]) == Exec(s2, []);
  }

  // --- closing ----------------------------------------------------------------------

  /** From a closed channel: no new generation, and no frame but the one the writer
      had already validated. */
  predicate OnlyTheLast(s: Sys, s': Sys) {
    && s'.core.state == Closed && s'.client.issued == s.client.issued
    && (s.core.held.Any() || !s'.core.held.Any())
    && (if s.writer.Sending?
        then (s'.writer == s.writer && s'.wire.log == s.wire.log)
             || (!s'.writer.Sending? && (s'.wire.log == s.wire.log || s'.wire.log == s.wire.log + [Sent(s.writer.req)]))
        else !s'.writer.Sending? && s'.wire.log == s.wire.log)
  }

  lemma WriterStepClosed(s: Sys, a: Action, s': Sys)
    requires s.core.state == Closed && Do(s, a) == Some(s')
    requires a.Dequeue? || a.Stop? || a.Validate? || a.OfferFrame? || a.Barrier?
    ensures OnlyTheLast(s, s')
  {
    match a
    case Validate(v) => assert s'.core == s.core;
    case OfferFrame(o) =>
    case _ =>
  }

  lemma TxStepClosed(s: Sys, a: Action, s': Sys)
    requires s.core.state == Closed && Do(s, a) == Some(s')
    requires a.Release? || a.Drain? || a.Finish?
    ensures OnlyTheLast(s, s') && s'.writer == s.writer
  {
  }

  lemma LeaseStepClosed(s: Sys, a: Action, s': Sys)
    requires s.core.state == Closed && Do(s, a) == Some(s')
    requires a.World? || a.Peer? || a.Lease? || a.Wheel?
    ensures OnlyTheLast(s, s') && s'.writer == s.writer
  {
  }

  lemma StepClosed(s: Sys, a: Action, s': Sys)
    requires HandshakeInv(s.core.state, s.client, s.writer, s.queues.nextId) && CoreOk(s.core)
    requires s.core.state == Closed && Do(s, a) == Some(s')
    ensures OnlyTheLast(s, s')
  {
    if a.Negotiate? {
      NegotiateControl(s, a.h, s');
    } else if a.Release? || a.Drain? || a.Finish? {
      TxStepClosed(s, a, s');
    } else if a.World? || a.Peer? || a.Lease? || a.Wheel? {
      LeaseStepClosed(s, a, s');
    } else {
      WriterStepClosed(s, a, s');
    }
  }

  lemma {:induction false} RunClosed(s: Sys, run: seq<Action>, s': Sys)
    requires Inv(s) && s.core.state == Closed && Exec(s, run) == Some(s')
    ensures OnlyTheLast(s, s')
    decreases |run|
  {
    if |run| > 0 {
      var next := Do(s, run[0]).value;
      StepClosed(s, run[0], next);
      StepKeepsInv(s, run[0], next);
      RunClosed(next, run[1..], s');
    }
  }

  /** This continuation offers no frame. */
  predicate OffersNothing(s: Sys, more: seq<Action>) {
    Exec(s, more).Some? ==> Exec(s, more).value.wire.log == s.wire.log
  }

  /** After closeWith no generation is ever issued again; no frame is ever offered
      again if and only if the writer is not past its last validation. */
  lemma CloseStopsOffers(run: seq<Action>, s: Sys)
    requires Reaches(run, s) && s.core.state == Closed
    ensures forall more | Exec(s, more).Some? :: Exec(s, more).value.client.issued == s.client.issued
    ensures (forall more :: OffersNothing(s, more)) <==> !s.writer.Sending?
  {
    ReachableInv(run, s);
    forall more | Exec(s, more).Some? ensures OnlyTheLast(s, Exec(s, more).value) {
      RunClosed(s, more, Exec(s, more).value);
    }
    if s.writer.Sending? {
      var one := [OfferFrame(FailedDelivered)];
      var s1 := Do(s, one[0]).value;
      assert one[1..] == [] && Exec(s1, []) == Some(s1);
      assert Exec(s, one) == Some(s1);
      assert !OffersNothing(s, one);
    }
  }

  /** releaseAllAndClose that started ready and returned nil meets that condition. */
  lemma ConfirmedCloseStopsOffers(run: seq<Action>, s: Sys)
    requires Reaches(run, s) && ReleasedOk(s) && s.gate.tx.phase.Shut? && s.core.state == Closed
    ensures forall more :: OffersNothing(s, more)
  {
    ReleaseConfirms(run, s);
    CloseStopsOffers(run, s);
  }

  /** Whenever releaseAllAndClose returned nil, ready or not, the device is neutral
      in every continuation and after any delivery. */
  lemma NilCloseStaysNeutral(run: seq<Action>, s: Sys, more: seq<Action>, s': Sys, k: nat)
    requires Reaches(run, s) && s.gate.Releasing? && s.gate.tx.phase == Shut(true) && s.core.state == Closed
    requires Exec(s, more) == Some(s') && s'.wire.delivered <= k <= |s'.wire.log|
    ensures Replay(s'.wire.log, k).Neutral()
  {
    ReachableInv(run, s);
    assert TxOk(s.gate.tx, s);
    RunClosed(s, more, s');
    RunKeepsInv(s, more, s');
    CoversReplay(s'.core.held, s'.wire.log, s'.wire.delivered, k);
  }

  // --- scroll -----------------------------------------------------------------------

  /** Between an ambiguous wheel RPC and the end of the session. */
  predicate ScrollGuards(s: Sys, token: nat) {
    (s.client.scroll == Ambiguous(token) && s.client.slot == SlotHeld(token)) || s.core.state == Closed
  }

  lemma StepAmbiguous(s: Sys, a: Action, s': Sys, token: nat)
    requires LeaseInv(s.core.state, s.client, s.gate)
    requires s.client.scroll == Ambiguous(token) && s.client.slot == SlotHeld(token)
    requires !a.Negotiate? && Do(s, a) == Some(s')
    ensures ScrollGuards(s', token) && s'.client.issued == s.client.issued
  {
    if a.Dequeue? || a.Stop? || a.Validate? || a.OfferFrame? || a.Barrier? {
      assert s'.client == s.client;
    } else if a.Release? || a.Drain? || a.Finish? {
      assert s'.client == s.client;
    }
  }

  lemma StepGuarded(s: Sys, a: Action, s': Sys, token: nat)
    requires Inv(s) && ScrollGuards(s, token) && Do(s, a) == Some(s')
    ensures ScrollGuards(s', token) && s'.client.issued == s.client.issued
  {
    if s.core.state == Closed {
      StepClosed(s, a, s');
    } else if a.Negotiate? {
      assert s'.client.slot == s.client.slot;
    } else {
      StepAmbiguous(s, a, s', token);
    }
  }

  lemma {:induction false} RunGuarded(s: Sys, run: seq<Action>, s': Sys, token: nat)
    requires Inv(s) && ScrollGuards(s, token) && Exec(s, run) == Some(s')
    ensures ScrollGuards(s', token) && s'.client.issued == s.client.issued
    decreases |run|
  {
    if |run| > 0 {
      var next := Do(s, run[0]).value;
      StepGuarded(s, run[0], next, token);
      StepKeepsInv(s, run[0], next);
      RunGuarded(next, run[1..], s', token);
    }
  }

  /** Once a scroll's delivery is ambiguous, in every continuation no lease generation
      is issued, and the channel is closed before the scroll's slot changes hands. */
  lemma NoLeaseAfterAmbiguousScroll(run: seq<Action>, s: Sys, more: seq<Action>, s': Sys)
    requires Reaches(run, s) && s.client.scroll.Ambiguous? && Exec(s, more) == Some(s')
    ensures s'.client.issued == s.client.issued
    ensures LastIssued(s.client.issued, s.client.scroll.token)
    ensures s'.client.slot != SlotHeld(s.client.scroll.token) ==> s'.core.state == Closed
  {
    ReachableInv(run, s);
    RunGuarded(s, more, s', s.client.scroll.token);
  }
}
