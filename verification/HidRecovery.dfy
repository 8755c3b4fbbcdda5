/** What can still be done: a release that times out ends by itself, a failed attempt is
    retried, a stopped channel answers everybody, and a clean release leads to the next lease. */
module HidRecovery {
  import opened Outcomes
  import opened HidProto
  import opened HidCore
  import opened HidProtocol
  import opened HidInvariant
  import opened HidSteps
  import opened HidTheorems
  import opened HidProgress
  import opened HidLiveness
  import opened HidSuccess
  import opened HidWriter

  // --- when a generation is issued -----------------------------------------------------

  /** A generation is issued exactly from ready, with nothing held and a live context, and
      it is the next number; otherwise nothing changes but the gate. */
  lemma IssueIsExact(run: seq<Action>, s: Sys, s': Sys)
    requires Reaches(run, s) && Do(s, Lease(BeginSection)) == Some(s')
    ensures s.gate.Beginning?
    ensures var issues := s.core.state == Ready && !s.core.held.Any() && s.gate.ctx !in s.queues.expired;
            && s'.client.issued == s.client.issued + (if issues then [s.core.genCounter + 1] else [])
            && s'.core.activeGen == (if issues then s.core.genCounter + 1 else s.core.activeGen)
            && s'.gate == Leaving(if issues then Some(s.core.genCounter + 1) else None)
            && s'.core.held == s.core.held && s'.core.state == s.core.state
  {
  }

  lemma TwoSteps(s: Sys, a: Action, b: Action, s1: Sys, s2: Sys)
    requires Do(s, a) == Some(s1) && Do(s1, b) == Some(s2)
    ensures Exec(s, [a, b]) == Some(s2)
  {
    hide Do;
    assert [a, b][1..] == [b] && [b][1..] == [];
    assert Exec(s1, [b]) == Exec(s2, []);
  }

  lemma LiveIsInv(s: Sys)
    requires Live(s)
    ensures Inv(s) && IndicesOk(s.wire)
  {
  }

  /** closeWith runs under the gate only in a closing transaction. */
  predicate ShutCloses(s: Sys) { s.gate.Releasing? && s.gate.tx.phase.Shut? ==> s.gate.tx.closing }

  lemma StepShutCloses(s: Sys, a: Action, s': Sys)
    requires ShutCloses(s) && Do(s, a) == Some(s')
    ensures ShutCloses(s')
  {
    hide BufferedAmount, BuildPlan, CheckWritable, HolderRequest, FinalValidate;
  }

  lemma {:induction false} RunShutCloses(s: Sys, run: seq<Action>, s': Sys)
    requires ShutCloses(s) && Exec(s, run) == Some(s')
    ensures ShutCloses(s')
    decreases |run|
  {
    hide Do, ShutCloses;
    if |run| > 0 {
      StepShutCloses(s, run[0], Do(s, run[0]).value);
      RunShutCloses(Do(s, run[0]).value, run[1..], s');
    }
  }

  /** From an ordinary release that has its result: the slot is freed whatever that was. */
  lemma SlotIsFreed(run: seq<Action>, s: Sys) returns (s': Sys)
    requires Reaches(run, s) && s.gate.Releasing? && s.gate.tx.phase.Finished? && !s.gate.tx.closing
    ensures Exec(s, [Finish(Unlock), Lease(FreeSlot)]) == Some(s')
    ensures s' == s.(gate := GateFree, client := s.client.(slot := SlotFree))
  {
    IndicesHold(run, s);
    var s1 := Do(s, Finish(Unlock)).value;
    s' := Do(s1, Lease(FreeSlot)).value;
    TwoSteps(s, Finish(Unlock), Lease(FreeSlot), s1, s');
  }

  lemma JoinRuns(s: Sys, a: seq<Action>, t: Sys, b: seq<Action>, s': Sys)
    requires Exec(s, a) == Some(t) && Exec(t, b) == Some(s')
    ensures Exec(s, a + b) == Some(s')
    decreases |a|
  {
    hide Do;
    if |a| == 0 {
      assert a + b == b;
    } else {
      assert (a + b)[1..] == a[1..] + b;
      JoinRuns(Do(s, a[0]).value, a[1..], t, b, s');
    }
  }

  /** How far the slot is from being free. */
  function SlotRank(s: Sys): nat {
    match s.client.slot
    case SlotFree => 0
    case SlotEnding => 1
    case SlotReleasing => 2
    case SlotHeld(_) => 3
    case SlotAcquiring => if s.gate.Beginning? then 6 else if s.gate.Leaving? then 5 else 4
  }

  /** No scroll has a claim on the slot. */
  predicate NotScrolling(s: Sys) { !s.client.scroll.Calling? && !s.client.scroll.Ambiguous? }

  /** Steps of the lease, the writer, a transaction and the peer; no input and no clock. */
  predicate Housekeeping(a: Action) { a.Lease? || Unaided(a) }

  function SlotNext(s: Sys): Action {
    match s.client.slot
    case SlotFree => Lease(FreeSlot)
    case SlotEnding => Lease(FreeSlot)
    case SlotReleasing => if s.gate.Releasing? && !s.gate.tx.closing then Finish(Unlock) else Lease(ReleaseNoGate)
    case SlotHeld(_) => Lease(ReleaseSlot)
    case SlotAcquiring =>
      if s.gate.Beginning? then Lease(BeginSection)
      else if s.gate.Leaving? then Lease(BeginUnlock)
      else Lease(GiveUpSlot)
  }

  lemma SlotStep(s: Sys) returns (t: Sys)
    requires Inv(s) && NotScrolling(s) && !s.client.slot.SlotFree?
    requires ShutCloses(s) && (s.gate.Releasing? ==> AtEnd(s))
    ensures Do(s, SlotNext(s)) == Some(t) && SlotRank(t) < SlotRank(s) && NotScrolling(t)
  {
    hide BufferedAmount, QueueInv, TxInv, HeldInv, OrderInv, SilenceInv, PointerInv, WriterInv;
    t := Do(s, SlotNext(s)).value;
  }

  lemma {:induction false} Frees(s: Sys) returns (more: seq<Action>, s': Sys)
    requires Live(s) && NotScrolling(s) && ShutCloses(s)
    ensures Exec(s, more) == Some(s') && s'.client.slot.SlotFree? && forall i | 0 <= i < |more| :: Housekeeping(more[i])
    decreases SlotRank(s)
  {
    hide Do, Inv, Live;
    if s.client.slot.SlotFree? {
      more, s' := [], s;
    } else {
      var first, t := [], s;
      if s.gate.Releasing? {
        LiveIsInv(s);
        first, t := Finishes(s);
        RunKeepsLive(s, first, t);
        RunShutCloses(s, first, t);
      }
      LiveIsInv(t);
      var u := SlotStep(t);
      StepShutCloses(t, SlotNext(t), u);
      StepKeepsLive(t, SlotNext(t), u);
      var rest;
      rest, s' := Frees(u);
      more := first + ([SlotNext(t)] + rest);
      assert ([SlotNext(t)] + rest)[1..] == rest;
      JoinRuns(s, first, t, [SlotNext(t)] + rest, s');
    }
  }

  /** The lease slot always comes free: from every reachable state, unless a scroll still has
      a claim on it, the lease's own steps together with writer, transaction and peer free
      it, whether it was being acquired, held or released, and whatever a release results in. */
  lemma SlotComesFree(run: seq<Action>, s: Sys) returns (more: seq<Action>, s': Sys)
    requires Reaches(run, s) && NotScrolling(s)
    ensures Exec(s, more) == Some(s') && s'.client.slot.SlotFree? && forall i | 0 <= i < |more| :: Housekeeping(more[i])
  {
    ReachableLive(run, s);
    RunShutCloses(INIT, run, s);
    more, s' := Frees(s);
  }

  lemma SucceededFacts(run: seq<Action>, s: Sys)
    requires Reaches(run, s) && Succeeded(s) && s.core.state == Ready
    ensures !s.core.held.Any() && s.client.hs.HsDone? && IndicesOk(s.wire)
  {
    ReachableInv(run, s);
    assert TxOk(s.gate.tx, s);
  }

  lemma NextLease(s: Sys, ctx: nat) returns (s': Sys)
    requires s.gate.GateFree? && s.client.slot.SlotFree? && s.client.hs.HsDone? && IndicesOk(s.wire)
    requires s.core.state == Ready && !s.core.held.Any() && ctx !in s.queues.expired
    ensures Exec(s, [Lease(TakeSlot), Lease(BeginGate(ctx))] + [Lease(BeginSection), Lease(BeginUnlock)]) == Some(s')
    ensures s'.client.issued == s.client.issued + [s.core.genCounter + 1] && s'.core.activeGen == s.core.genCounter + 1
    ensures s'.client.slot == SlotHeld(s'.core.activeGen)
  {
    var s1 := Do(s, Lease(TakeSlot)).value;
    var s2 := Do(s1, Lease(BeginGate(ctx))).value;
    var s3 := Do(s2, Lease(BeginSection)).value;
    s' := Do(s3, Lease(BeginUnlock)).value;
    TwoSteps(s, Lease(TakeSlot), Lease(BeginGate(ctx)), s1, s2);
    TwoSteps(s2, Lease(BeginSection), Lease(BeginUnlock), s3, s');
    JoinRuns(s, [Lease(TakeSlot), Lease(BeginGate(ctx))], s2, [Lease(BeginSection), Lease(BeginUnlock)], s');
  }

  /** After any clean release of a lease whose channel stayed ready, the next holder gets a
      lease: the cycle of acquiring and releasing can go on for ever. */
  lemma LeaseAgain(run: seq<Action>, s: Sys, ctx: nat) returns (more: seq<Action>, s': Sys)
    requires Reaches(run, s) && Succeeded(s) && !s.gate.tx.closing && s.core.state == Ready
    requires ctx !in s.queues.expired
    ensures Exec(s, more) == Some(s')
    ensures s'.client.issued == s.client.issued + [s'.core.activeGen] && s'.client.slot == SlotHeld(s'.core.activeGen)
    ensures 0 < s'.core.activeGen == s.core.genCounter + 1
  {
    hide Do, Exec;
    SucceededFacts(run, s);
    var t := SlotIsFreed(run, s);
    s' := NextLease(t, ctx);
    more := [Finish(Unlock), Lease(FreeSlot)]
      + ([Lease(TakeSlot), Lease(BeginGate(ctx))] + [Lease(BeginSection), Lease(BeginUnlock)]);
    JoinRuns(s, [Finish(Unlock), Lease(FreeSlot)], t,
             [Lease(TakeSlot), Lease(BeginGate(ctx))] + [Lease(BeginSection), Lease(BeginUnlock)], s');
  }

  // --- attempts ----------------------------------------------------------------------------

  lemma FailingStep(s: Sys, a: Action, s': Sys)
    requires TxInv(s) && Do(s, a) == Some(s') && s.gate.Releasing? && s.gate.tx.wasReady
    requires s'.gate.Releasing? && s'.gate.tx.phase == Finished(false) && s.gate.tx.phase != Finished(false)
    ensures s.gate.tx.ctx in s.queues.expired || s.gate.tx.attempt == 1
  {
    hide BufferedAmount, BuildPlan, FinalValidate, CheckWritable;
  }

  /** A release that started ready fails only after its second attempt, or when its context
      has ended; a first attempt that fails under a live context pauses instead. */
  lemma FailureHasCause(run: seq<Action>, s: Sys, a: Action, s': Sys)
    requires Reaches(run, s) && Do(s, a) == Some(s') && s.gate.Releasing? && s.gate.tx.wasReady
    requires s'.gate.Releasing? && s'.gate.tx.epoch == s.gate.tx.epoch
    requires s'.gate.tx.phase == Finished(false) && s.gate.tx.phase != Finished(false)
    ensures s.gate.tx.ctx in s.queues.expired || s.gate.tx.attempt == 1
  {
    ReachableInv(run, s);
    FailingStep(s, a, s');
  }

  /** Working on an attempt: its frames or its drain. */
  predicate Trying(p: Phase) {
    p.Queueing? || p.Awaiting? || p.Draining? || p.DrainBlocked? || p.DrainLastLook?
  }

  /** An attempt is abandoned only because its context ended, the writer is gone, a frame of it
      was refused, or the last look found bytes unacknowledged; and whether another follows
      depends on the context and the attempt alone. */
  lemma AttemptFailsForCause(s: Sys, a: Action, s': Sys)
    requires Do(s, a) == Some(s') && s.gate.Releasing? && Trying(s.gate.tx.phase) && s'.gate.Releasing?
    requires !Trying(s'.gate.tx.phase) && !s'.gate.tx.phase.Confirmed?
    ensures || s.gate.tx.ctx in s.queues.expired || s.writer.Stopped?
            || (s.gate.tx.phase.Awaiting? && s.gate.tx.phase.id in s.queues.results
                && !s.queues.results[s.gate.tx.phase.id])
            || (s.gate.tx.phase.DrainLastLook? && BufferedAmount(s.wire) > 0)
    ensures s'.gate.tx.phase
         == if s.gate.tx.ctx in s.queues.expired || s.gate.tx.attempt + 1 >= 2 then Finished(false) else Pausing
  {
    hide BuildPlan, FinalValidate, CheckWritable, BufferedAmount;
  }

  /** And it goes on only for cause: past a frame when that was accepted under a live context,
      to its last look when the writer is gone, to a confirmation when nothing is
      unacknowledged. */
  lemma AttemptGoesOnForCause(s: Sys, a: Action, s': Sys)
    requires Do(s, a) == Some(s') && s.gate.Releasing? && Trying(s.gate.tx.phase) && s'.gate.Releasing?
    ensures s.gate.tx.phase.Awaiting? && s'.gate.tx.phase.Queueing? ==>
              && s.gate.tx.ctx !in s.queues.expired && s'.gate.tx.phase == Queueing(s.gate.tx.phase.i + 1)
              && s.gate.tx.phase.id in s.queues.results && s.queues.results[s.gate.tx.phase.id]
    ensures s'.gate.tx.phase.DrainLastLook? && !s.gate.tx.phase.DrainLastLook? ==> s.writer.Stopped?
    ensures s'.gate.tx.phase.Confirmed? ==> BufferedAmount(s.wire) == 0
  {
    hide BuildPlan, FinalValidate, CheckWritable, BufferedAmount;
  }

  /** And the retry sends the whole plan again, from its first frame, unless the context ends
      while it is waited for. */
  lemma PauseIsRetried(run: seq<Action>, s: Sys)
    requires Reaches(run, s) && s.gate.Releasing? && s.gate.tx.phase.Pausing?
    ensures s.gate.tx.attempt == 0
    ensures Do(s, Release(Retry)) == Some(s.(gate := Releasing(s.gate.tx.(attempt := 1, phase := Queueing(0)))))
    ensures Do(s, Release(CancelPause))
         == if s.gate.tx.ctx !in s.queues.expired then None
            else Some(s.(gate := Releasing(s.gate.tx.(phase := Finished(false)))))
  {
    ReachableInv(run, s);
    assert TxOk(s.gate.tx, s);
  }

  /** A release that does not find the channel ready has its result at once: nil exactly if
      nothing is believed held. From ready it starts on the plan for what is. */
  lemma RevokeDecides(run: seq<Action>, s: Sys, s': Sys)
    requires Reaches(run, s) && Do(s, Finish(Revoke)) == Some(s')
    ensures s.gate.Releasing? && s'.gate.Releasing? && s'.core.activeGen == 0
    ensures s'.core.genCounter == s.core.genCounter + 1
    ensures s.core.state != Ready ==> s'.gate.tx.phase == Finished(!s.core.held.Any())
    ensures s.core.state == Ready ==>
              && s'.gate.tx.phase == Queueing(0) && s'.gate.tx.attempt == 0
              && s'.gate.tx.plan.frames == [RELEASE_ALL_KEYBOARD, RELEASE_ALL_MOUSE]
                   + (if s.core.held.absoluteButtons then [Pointer(s.core.held.x, s.core.held.y, 0)] else [])
  {
    hide BufferedAmount;
    PlanNeverFails(run, s);
  }

  // --- nobody else is needed to give up -------------------------------------------------------

  /** The transaction's own steps. */
  predicate Own(a: Action) { a.Release? || a.Drain? || a.Finish? }

  /** What the transaction does by itself when its context has ended or the writer is gone. */
  function GiveUpNext(s: Sys): Action
    requires s.gate.Releasing?
  {
    var canceled := s.gate.tx.ctx in s.queues.expired;
    match s.gate.tx.phase
    case Entered => Finish(Revoke)
    case Queueing(i) => if i < |s.gate.tx.plan.frames| then Release(GiveUp) else Release(EnqueueNeutral)
    case Awaiting(_, _) => Release(GiveUp)
    case Pausing => if canceled then Release(CancelPause) else Release(Retry)
    case Draining => Drain(DrainLevel)
    case DrainBlocked => if canceled then Drain(DrainCanceled) else Drain(DrainWriterGone)
    case DrainLastLook => Drain(DrainLookAgain)
    case Confirmed => Finish(ConfirmHeld)
    case _ => Finish(Unlock)
  }

  predicate Hopeless(s: Sys) { s.gate.Releasing? && (s.gate.tx.ctx in s.queues.expired || s.writer.Stopped?) }

  lemma GiveUpStep(s: Sys)
    requires IndicesOk(s.wire) && Hopeless(s) && !AtEnd(s)
    ensures Own(GiveUpNext(s)) && Do(s, GiveUpNext(s)).Some?
    ensures Hopeless(Do(s, GiveUpNext(s)).value)
  {
    hide BufferedAmount, BuildPlan;
  }

  lemma HopelessReleases(s: Sys)
    requires Hopeless(s)
    ensures s.gate.Releasing?
  {
  }

  lemma OwnIsUnaided(a: Action)
    requires Own(a)
    ensures Unaided(a)
  {
  }

  lemma {:induction false} GivesUp(s: Sys) returns (more: seq<Action>, s': Sys)
    requires Live(s) && Hopeless(s) && IndicesOk(s.wire)
    ensures Exec(s, more) == Some(s') && AtEnd(s') && forall i | 0 <= i < |more| :: Own(more[i])
    decreases Effort(s)
  {
    hide Do, Live, Effort, Own, GiveUpNext, Hopeless;
    HopelessReleases(s);
    if AtEnd(s) {
      more, s' := [], s;
    } else {
      GiveUpStep(s);
      var a := GiveUpNext(s);
      var t := Do(s, a).value;
      OwnIsUnaided(a);
      LiveSpends(s, a, t);
      StepKeepsLive(s, a, t);
      var rest;
      rest, s' := GivesUp(t);
      more := [a] + rest;
      assert more[1..] == rest;
    }
  }

  /** A release whose context has ended, or whose writer has stopped, reaches its result by
      its own steps alone: it needs neither the writer nor the peer. */
  lemma ReleaseGivesUpAlone(run: seq<Action>, s: Sys) returns (more: seq<Action>, s': Sys)
    requires Reaches(run, s) && Hopeless(s)
    ensures Exec(s, more) == Some(s') && AtEnd(s') && forall i | 0 <= i < |more| :: Own(more[i])
  {
    ReachableLive(run, s);
    more, s' := GivesUp(s);
  }

  // --- a stopped channel answers everybody -------------------------------------------------

  predicate WriterStep(a: Action) { a.Dequeue? || a.Stop? || a.Validate? || a.OfferFrame? || a.Barrier? }

  lemma StopNext(s: Sys)
    requires Live(s) && s.client.stop && !s.writer.Stopped?
    ensures WriterStep(WriterNext(s)) && Do(s, WriterNext(s)).Some?
    ensures Do(s, WriterNext(s)).value.client.stop
  {
    hide BufferedAmount, FinalValidate, QueueInv, TxInv, HeldInv, OrderInv, SilenceInv, PointerInv;
    WriterMovesOrRests(s);
  }

  lemma StoppedIsEmpty(s: Sys, s': Sys)
    requires Do(s, WriterNext(s)) == Some(s') && !s.writer.Stopped? && s'.writer.Stopped?
    ensures s'.queues.sendQ == [] && s'.queues.prioQ == []
  {
    hide BufferedAmount, FinalValidate, CheckWritable;
  }

  lemma {:induction false} Stops(s: Sys) returns (more: seq<Action>, s': Sys)
    requires Live(s) && s.client.stop && !s.writer.Stopped? && IndicesOk(s.wire)
    ensures Exec(s, more) == Some(s') && forall i | 0 <= i < |more| :: WriterStep(more[i])
    ensures s'.writer.Stopped? && s'.queues.sendQ == [] && s'.queues.prioQ == []
    decreases Effort(s)
  {
    hide Do, Live, Effort, WriterStep, WriterNext;
    StopNext(s);
    var a := WriterNext(s);
    var t := Do(s, a).value;
    WriterIsUnaided(s);
    LiveSpends(s, a, t);
    StepKeepsLive(s, a, t);
    if t.writer.Stopped? {
      StoppedIsEmpty(s, t);
      assert [a][1..] == [] && Exec(t, []) == Some(t);
      more, s' := [a], t;
    } else {
      var rest;
      rest, s' := Stops(t);
      more := [a] + rest;
      assert more[1..] == rest;
    }
  }

  /** Once the channel has been told to stop, the writer by itself answers every request it
      holds or finds queued and stops with both queues empty: no caller is left waiting. */
  lemma StoppedWriterAnswers(run: seq<Action>, s: Sys) returns (more: seq<Action>, s': Sys)
    requires Reaches(run, s) && s.client.stop && !s.writer.Stopped?
    ensures Exec(s, more) == Some(s') && forall i | 0 <= i < |more| :: WriterStep(more[i])
    ensures s'.writer.Stopped? && s'.queues.sendQ == [] && s'.queues.prioQ == []
  {
    ReachableLive(run, s);
    more, s' := Stops(s);
  }

  /** The writer, whatever it was doing, ends only when told to stop and with nothing queued:
      what was handed over by then has been answered. */
  lemma NothingIsLeftBehind(s: Sys, a: Action, s': Sys)
    requires Do(s, a) == Some(s') && s'.writer.Stopped? && !s.writer.Stopped?
    ensures s.writer.Stopping? && s'.queues == s.queues && s.queues.sendQ == [] && s.queues.prioQ == []
  {
    hide BufferedAmount, BuildPlan, CheckWritable;
  }

  /** The writer stops only when told to, and is told only when the channel is closed. */
  predicate StopsInOrder(s: Sys) {
    && (s.writer.Stopping? || s.writer.Stopped? ==> s.client.stop)
    && (s.client.stop ==> s.core.state == Closed)
  }

  lemma StepStopsInOrder(s: Sys, a: Action, s': Sys)
    requires StopsInOrder(s) && Do(s, a) == Some(s')
    ensures StopsInOrder(s')
  {
    hide BufferedAmount, BuildPlan, CheckWritable, HolderRequest;
  }

  lemma {:induction false} RunStopsInOrder(s: Sys, run: seq<Action>, s': Sys)
    requires StopsInOrder(s) && Exec(s, run) == Some(s')
    ensures StopsInOrder(s')
    decreases |run|
  {
    hide Do, StopsInOrder;
    if |run| > 0 {
      StepStopsInOrder(s, run[0], Do(s, run[0]).value);
      RunStopsInOrder(Do(s, run[0]).value, run[1..], s');
    }
  }

  /** The writer stops only on a closed channel: while it is open every request is served. */
  lemma OnlyClosedStops(run: seq<Action>, s: Sys)
    requires Reaches(run, s) && (s.client.stop || s.writer.Stopping? || s.writer.Stopped?)
    ensures s.client.stop && s.core.state == Closed
  {
    hide Do;
    RunStopsInOrder(INIT, run, s);
  }

  /** And closeWith can always be followed by that signal. */
  lemma ClosedCanStop(run: seq<Action>, s: Sys)
    requires Reaches(run, s) && s.core.state == Closed
    ensures Do(s, World(SignalStop)) == Some(s.(client := s.client.(stop := true)))
  {
    ReachableInv(run, s);
  }
}
