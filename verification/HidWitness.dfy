/** Runs the code can produce: a lease can be obtained, a close that returned nil can be
    followed by one more frame, and the neutral reserve can fall short. */
module HidWitness {
  import opened Outcomes
  import opened HidProto
  import opened HidCore
  import opened HidProtocol
  import opened HidInvariant
  import opened HidSteps
  import opened HidTheorems
  import opened HidReserve

  lemma {:induction false} ExecAppend(s: Sys, run: seq<Action>, a: Action, s1: Sys, s2: Sys)
    requires Exec(s, run) == Some(s1) && Do(s1, a) == Some(s2)
    ensures Exec(s, run + [a]) == Some(s2)
    decreases |run|
  {
    hide Do;
    if |run| == 0 {
      assert [a][1..] == [] && Exec(s2, []) == Some(s2);
      assert run + [a] == [a];
    } else {
      ExecAppend(Do(s, run[0]).value, run[1..], a, s1, s2);
      assert (run + [a])[1..] == run[1..] + [a];
    }
  }

  /** One more step of a run. */
  lemma Extend(run: seq<Action>, s: Sys, a: Action) returns (run': seq<Action>, s': Sys)
    requires Reaches(run, s) && Do(s, a).Some?
    ensures Reaches(run', s') && s' == Do(s, a).value
  {
    hide Do;
    run', s' := run + [a], Do(s, a).value;
    ExecAppend(INIT, run, a, s, s');
  }

  predicate QueuesEmpty(q: Queues) { q.sendQ == [] && q.prioQ == [] && q.expired == {} }

  lemma HandshakeQueued() returns (run: seq<Action>, s: Sys)
    ensures Reaches(run, s) && s.core == StartHandshake(INITIAL_CORE) && s.gate.GateFree? && s.wire == INIT.wire
    ensures s.client == INIT.client.(hs := HsAwaiting(0, 1)) && QueuesEmpty(s.queues) && s.queues.results == map[]
    ensures s.writer == Check(HandshakeRequest(0, 1))
  {
    assert Exec(INIT, []) == Some(INIT);
    run, s := Extend([], INIT, Negotiate(HsStart(0)));
    run, s := Extend(run, s, Negotiate(HsEnqueue));
    assert s.queues.prioQ == [HandshakeRequest(0, 1)];
    run, s := Extend(run, s, Dequeue(PollPriority));
  }

  /** Nothing queued, nothing in the writer's hand, nobody at the gate; so many bytes unacknowledged. */
  predicate Resting(s: Sys, bytes: nat) {
    && s.gate.GateFree? && QueuesEmpty(s.queues) && s.writer.Poll? && s.client.hs.HsDone?
    && s.client.scroll.NoScroll? && IndicesOk(s.wire) && BufferedAmount(s.wire) == bytes
  }

  lemma HandshakeSent() returns (run: seq<Action>, s: Sys)
    ensures Reaches(run, s) && s.core == StartHandshake(INITIAL_CORE) && s.gate.GateFree? && s.writer.Poll?
    ensures s.client == INIT.client.(hs := HsAwaiting(0, 1)) && QueuesEmpty(s.queues)
    ensures s.queues.results == map[1 := true]
    ensures IndicesOk(s.wire) && BufferedAmount(s.wire) == 2
  {
    run, s := HandshakeQueued();
    run, s := Extend(run, s, Validate(FirstCheck(true)));
    run, s := Extend(run, s, Validate(ReadAmount));
    run, s := Extend(run, s, Validate(LastCheck));
    assert s.writer == Sending(HandshakeRequest(0, 1), None) && s.wire == INIT.wire;
    run, s := Extend(run, s, OfferFrame(Accepted));
    assert |s.wire.log| == 1 && s.wire.log[0].report == Report.Handshake && Bytes(s.wire.log, 1) == 0;
  }

  lemma ReadyIsReached() returns (run: seq<Action>, s: Sys)
    ensures Reaches(run, s) && s.core == INITIAL_CORE.(state := Ready) && Resting(s, 2)
    ensures s.client.slot.SlotFree? && s.client.issued == []
  {
    hide BufferedAmount;
    run, s := HandshakeSent();
    run, s := Extend(run, s, World(EchoArrives));
    run, s := Extend(run, s, Negotiate(HsResult));
    run, s := Extend(run, s, Negotiate(HsEchoSeen));
    run, s := Extend(run, s, Negotiate(HsReady));
  }

  /** The guarantees are not about an empty set of runs: a lease can be obtained. */
  lemma LeaseCanBeIssued() returns (run: seq<Action>, s: Sys)
    ensures Reaches(run, s) && s.client.issued == [1] && s.core.activeGen == 1 && s.client.slot == SlotHeld(1)
    ensures s.core.state == Ready && s.core.held == NOTHING_HELD && Resting(s, 2)
  {
    hide BufferedAmount;
    run, s := ReadyIsReached();
    run, s := Extend(run, s, Lease(TakeSlot));
    run, s := Extend(run, s, Lease(BeginGate(1)));
    run, s := Extend(run, s, Lease(BeginSection));
    run, s := Extend(run, s, Lease(BeginUnlock));
  }

  /** The holder's all-zero keyboard report. */
  const IDLE_REPORT := SendKeyboardReport(2, 1, 0, NO_KEYS)

  lemma ReportTaken() returns (run: seq<Action>, s: Sys)
    ensures Reaches(run, s) && s.core.state == Ready && s.core.activeGen == 1 && s.core.held == NOTHING_HELD
    ensures s.writer == Check(IDLE_REPORT) && s.gate.GateFree? && s.client.hs.HsDone? && s.queues.expired == {}
    ensures IndicesOk(s.wire) && BufferedAmount(s.wire) == 2
  {
    hide BufferedAmount;
    run, s := LeaseCanBeIssued();
    assert HolderRequest(IDLE_REPORT);
    run, s := Extend(run, s, World(HolderSend(IDLE_REPORT)));
    assert s.queues.sendQ == [IDLE_REPORT];
    run, s := Extend(run, s, Dequeue(PollPriority));
    run, s := Extend(run, s, Dequeue(TakeSend));
  }

  lemma ReportInFlight() returns (run: seq<Action>, s: Sys)
    ensures Reaches(run, s) && s.core.state == Ready && !s.core.held.Any()
    ensures s.writer == Sending(IDLE_REPORT, None) && s.gate.GateFree? && s.client.hs.HsDone? && IndicesOk(s.wire)
  {
    hide BufferedAmount;
    run, s := ReportTaken();
    assert CheckWritable(s.core, false, 1).None?;
    run, s := Extend(run, s, Validate(FirstCheck(true)));
    run, s := Extend(run, s, Validate(ReadAmount));
    run, s := Extend(run, s, Validate(LastCheck));
  }

  /** That the condition of CloseStopsOffers is needed: a holder's frame passes its last
      validation, the connection fails, releaseAllAndClose takes the gate, returns nil
      and leaves it, and then that ordinary frame is offered. */
  lemma CloseCanTrail() returns (run: seq<Action>, nilReturn: Sys, s: Sys, s': Sys)
    ensures Reaches(run, nilReturn) && nilReturn.gate.Releasing? && nilReturn.gate.tx.phase == Shut(true)
    ensures Do(nilReturn, Finish(Unlock)) == Some(s) && s.core.state == Closed
    ensures Do(s, OfferFrame(Accepted)) == Some(s') && |s'.wire.log| == |s.wire.log| + 1
    ensures !s'.wire.log[|s.wire.log|].privileged
  {
    run, nilReturn := ReportInFlight();
    run, nilReturn := Extend(run, nilReturn, World(CloseNow));
    run, nilReturn := Extend(run, nilReturn, Lease(CloseGate(3)));
    run, nilReturn := Extend(run, nilReturn, Finish(Revoke));
    run, nilReturn := Extend(run, nilReturn, Finish(ShutChannel));
    s := Do(nilReturn, Finish(Unlock)).value;
    s' := Do(s, OfferFrame(Accepted)).value;
  }

  // --- a reserve that is not enough ------------------------------------------------------

  /** The holder's report with a button down. */
  const PRESSED := SendPointerReport(2, 1, 0, 0, 1)

  /** Lease 1 live and at rest, so many bytes unacknowledged, the absolute button possibly down. */
  predicate Holding(s: Sys, bytes: nat) {
    && Resting(s, bytes) && s.core.state == Ready && s.core.activeGen == 1 && s.client.slot == SlotHeld(1)
    && !s.core.held.keyboard && !s.core.held.relativeButtons
  }

  predicate Down(s: Sys) { s.core.held == HeldInput(false, true, false, true, 0, 0) }

  lemma PressTaken(run: seq<Action>, s: Sys, bytes: nat) returns (run': seq<Action>, s': Sys)
    requires Reaches(run, s) && Holding(s, bytes)
    ensures Reaches(run', s') && s'.writer == Check(PRESSED) && s'.queues.sendQ == [] && s'.queues == s.queues
    ensures s' == s.(writer := s'.writer)
  {
    hide BufferedAmount;
    assert HolderRequest(PRESSED);
    run', s' := Extend(run, s, World(HolderSend(PRESSED)));
    assert s'.queues.sendQ == [PRESSED];
    run', s' := Extend(run', s', Dequeue(PollPriority));
    run', s' := Extend(run', s', Dequeue(TakeSend));
  }

  lemma PressInFlight(run: seq<Action>, s: Sys, bytes: nat) returns (run': seq<Action>, s': Sys)
    requires Reaches(run, s) && Holding(s, bytes) && bytes + 10 <= MAX_BUFFERED - NEUTRAL_RESERVE
    ensures Reaches(run', s') && s'.writer == Sending(PRESSED, None) && s'.core == s.core.(held := s'.core.held)
    ensures s'.core.held.absoluteButtons && s'.core.held.positionKnown && s'.core.held.x == 0 && s'.core.held.y == 0
    ensures !s'.core.held.keyboard && !s'.core.held.relativeButtons
    ensures s' == s.(writer := s'.writer, core := s'.core)
  {
    hide BufferedAmount;
    run', s' := PressTaken(run, s, bytes);
    assert CheckWritable(s'.core, false, 1).None?;
    run', s' := Extend(run', s', Validate(FirstCheck(true)));
    run', s' := Extend(run', s', Validate(ReadAmount));
    run', s' := Extend(run', s', Validate(LastCheck));
  }

  lemma Press(run: seq<Action>, s: Sys, bytes: nat) returns (run': seq<Action>, s': Sys)
    requires Reaches(run, s) && Holding(s, bytes) && bytes + 10 <= MAX_BUFFERED - NEUTRAL_RESERVE
    ensures Reaches(run', s') && Holding(s', bytes + 10) && Down(s')
  {
    hide Bytes;
    run', s' := PressInFlight(run, s, bytes);
    BytesAppend(s'.wire.log, Sent(PRESSED), s'.wire.acked);
    run', s' := Extend(run', s', OfferFrame(Accepted));
  }

  lemma FirstHolding() returns (run: seq<Action>, s: Sys)
    ensures Reaches(run, s) && Holding(s, 2)
  {
    hide Reaches, BufferedAmount;
    run, s := LeaseCanBeIssued();
  }

  /** Many reports, none acknowledged. */
  lemma {:induction false} Presses(n: nat) returns (run: seq<Action>, s: Sys)
    requires 1 <= n <= 407
    ensures Reaches(run, s) && Holding(s, 2 + 10 * n) && Down(s)
  {
    hide Holding, Reaches, Down;
    if n == 1 {
      run, s := FirstHolding();
    } else {
      run, s := Presses(n - 1);
    }
    run, s := Press(run, s, 2 + 10 * (n - 1));
  }

  /** All three neutral frames. */
  const FULL_PLAN := Plan([RELEASE_ALL_KEYBOARD, RELEASE_ALL_MOUSE, Pointer(0, 0, 0)], true, true, true)

  /** A release of that plan about to queue frame i, the writer at rest. */
  predicate Neutralizing(s: Sys, i: nat, bytes: nat) {
    && s.gate.Releasing? && !s.gate.tx.closing && s.gate.tx.wasReady && s.gate.tx.attempt == 0 && s.gate.tx.ctx == 5
    && s.gate.tx.plan == FULL_PLAN && s.gate.tx.phase == Queueing(i)
    && s.core.state == Ready && Down(s) && s.writer.Poll? && QueuesEmpty(s.queues) && s.client.hs.HsDone?
    && s.client.slot.SlotReleasing? && IndicesOk(s.wire) && BufferedAmount(s.wire) == bytes
  }

  lemma DownPlan(s: Sys)
    requires Down(s)
    ensures BuildPlan(s.core.held) == Success(FULL_PLAN)
  {
    EncodeReachesDevice(Pointer(0, 0, 0), POWER_ON);
    assert [RELEASE_ALL_KEYBOARD, RELEASE_ALL_MOUSE] + [Pointer(0, 0, 0)] == FULL_PLAN.frames;
  }

  lemma GateTaken() returns (run: seq<Action>, s: Sys)
    ensures Reaches(run, s) && Down(s) && s.gate == EnterGate(5, false) && s.core.state == Ready
    ensures s.writer.Poll? && QueuesEmpty(s.queues) && s.client.hs.HsDone? && s.client.slot.SlotReleasing?
    ensures IndicesOk(s.wire) && BufferedAmount(s.wire) == 4062
  {
    hide BufferedAmount, Reaches;
    run, s := Presses(406);
    run, s := Extend(run, s, Lease(ReleaseSlot));
    run, s := Extend(run, s, Lease(ReleaseGate(5)));
  }

  lemma ReleaseOpens() returns (run: seq<Action>, s: Sys)
    ensures Reaches(run, s) && Neutralizing(s, 0, 4062)
  {
    hide BufferedAmount, Reaches, BuildPlan;
    run, s := GateTaken();
    DownPlan(s);
    run, s := Extend(run, s, Finish(Revoke));
  }

  lemma NeutralTaken(run: seq<Action>, s: Sys, i: nat, bytes: nat) returns (run': seq<Action>, s': Sys)
    requires Reaches(run, s) && Neutralizing(s, i, bytes) && i < 3
    ensures Reaches(run', s') && s'.gate == Releasing(s.gate.tx.(phase := Awaiting(i, s.queues.nextId)))
    ensures s'.writer == Check(NeutralRequest(s.gate.tx, i, s.queues.nextId)) && QueuesEmpty(s'.queues)
    ensures s'.wire == s.wire && s'.core == s.core && s'.client == s.client
  {
    hide BufferedAmount;
    run', s' := Extend(run, s, Release(EnqueueNeutral));
    assert s'.queues.prioQ == [NeutralRequest(s.gate.tx, i, s.queues.nextId)];
    run', s' := Extend(run', s', Dequeue(PollPriority));
  }

  lemma NeutralInFlight(run: seq<Action>, s: Sys, i: nat, bytes: nat) returns (run': seq<Action>, s': Sys)
    requires Reaches(run, s) && Neutralizing(s, i, bytes) && i < 3
    requires bytes + Size(FULL_PLAN.frames[i]) <= MAX_BUFFERED
    ensures Reaches(run', s') && s'.gate == Releasing(s.gate.tx.(phase := Awaiting(i, s.queues.nextId)))
    ensures s'.writer == Sending(NeutralRequest(s.gate.tx, i, s.queues.nextId), None) && QueuesEmpty(s'.queues)
    ensures s'.wire == s.wire && s'.core == s.core && s'.client == s.client
  {
    hide BufferedAmount;
    run', s' := NeutralTaken(run, s, i, bytes);
    run', s' := Extend(run', s', Validate(FirstCheck(true)));
    run', s' := Extend(run', s', Validate(ReadAmount));
    run', s' := Extend(run', s', Validate(LastCheck));
  }

  lemma NeutralAccepted(run: seq<Action>, s: Sys, i: nat, bytes: nat) returns (run': seq<Action>, s': Sys)
    requires Reaches(run, s) && Neutralizing(s, i, bytes) && i < 3
    requires bytes + Size(FULL_PLAN.frames[i]) <= MAX_BUFFERED
    ensures Reaches(run', s') && Neutralizing(s', i + 1, bytes + Size(FULL_PLAN.frames[i]))
  {
    hide Bytes;
    run', s' := NeutralInFlight(run, s, i, bytes);
    BytesAppend(s'.wire.log, Sent(s'.writer.req), s'.wire.acked);
    run', s' := Extend(run', s', OfferFrame(Accepted));
    run', s' := Extend(run', s', Release(TakeResult));
  }

  lemma TwoAccepted() returns (run: seq<Action>, s: Sys)
    ensures Reaches(run, s) && Neutralizing(s, 2, 4074)
  {
    hide Neutralizing, Reaches;
    run, s := ReleaseOpens();
    run, s := NeutralAccepted(run, s, 0, 4062);
    run, s := NeutralAccepted(run, s, 1, 4070);
  }

  /** The pointer's neutral frame passed its last validation when its release timed out,
      and Client.Close has the gate. */
  lemma SecondRelease() returns (run: seq<Action>, s: Sys)
    ensures Reaches(run, s) && s.gate == EnterGate(6, true) && s.core.state == Ready && Down(s)
    ensures IndicesOk(s.wire) && BufferedAmount(s.wire) == 4074 && 6 !in s.queues.expired
    ensures s.writer.Sending? && s.writer.req.report == Pointer(0, 0, 0)
  {
    hide BufferedAmount, Reaches;
    run, s := TwoAccepted();
    run, s := NeutralInFlight(run, s, 2, 4074);
    run, s := Extend(run, s, World(Expire(5)));
    run, s := Extend(run, s, Release(GiveUp));
    run, s := Extend(run, s, Finish(Unlock));
    run, s := Extend(run, s, Lease(FreeSlot));
    run, s := Extend(run, s, Lease(CloseGate(6)));
  }

  lemma FullPlanBytes()
    ensures PlanBytes(FULL_PLAN.frames) == NEUTRAL_RESERVE
  {
    var f := FULL_PLAN.frames;
    assert f[..2] == [RELEASE_ALL_KEYBOARD, RELEASE_ALL_MOUSE] && f[..2][..1] == [RELEASE_ALL_KEYBOARD];
    assert [RELEASE_ALL_KEYBOARD][..0] == [];
    assert PlanBytes([RELEASE_ALL_KEYBOARD]) == 8;
    assert PlanBytes(f[..2]) == 12;
  }

  /** The reserve can fall short: a release starts from ready with 4074 bytes buffered and a
      live context, and one of its neutral frames is refused for the buffer, because the
      frame of an earlier release that timed out was still on its way. */
  lemma ReserveCanFallShort() returns (run: seq<Action>, s: Sys, s': Sys, more: seq<Action>, refused: Sys)
    ensures Reaches(run, s) && Do(s, Finish(Revoke)) == Some(s') && s'.gate.Releasing? && s'.gate.tx.wasReady
    ensures IndicesOk(s.wire) && BufferedAmount(s.wire) == MAX_BUFFERED - NEUTRAL_RESERVE
    ensures s'.gate.tx.ctx !in s'.queues.expired
    ensures Exec(s', more) == Some(refused) && Refused(refused, s'.gate.tx.epoch)
  {
    hide BufferedAmount, Refused, Exec;
    run, s := SecondRelease();
    DownPlan(s);
    s' := Do(s, Finish(Revoke)).value;
    FullPlanBytes();
    assert !PlanFits(s, s'.gate.tx.plan);
    ReserveSuffices(run, s, s');
    more :| !NotRefused(s', more, s'.gate.tx.epoch);
    refused := Exec(s', more).value;
  }
}
