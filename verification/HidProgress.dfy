/** Deadlock freedom: what the writer and a release transaction can be waiting for. */
module HidProgress {
  import opened Outcomes
  import opened HidProto
  import opened HidCore
  import opened HidProtocol
  import opened HidInvariant
  import opened HidSteps
  import opened HidTheorems

  // --- an awaited frame is never lost -------------------------------------------

  /** Completed, in the writer's hand, or still in priorityCh. */
  predicate Queued(q: Queues, w: Writer, id: nat) {
    || id in q.results
    || (InHandPrivileged(w) && InHand(w).value.id == id)
    || (exists i | 0 <= i < |q.prioQ| :: q.prioQ[i].id == id)
  }

  predicate AwaitInv(s: Sys) { TxAwaiting(s.gate) ==> Queued(s.queues, s.writer, s.gate.tx.phase.id) }

  lemma TakeKeepsQueued(s: Sys, s': Sys, id: nat)
    requires Queued(s.queues, s.writer, id) && |s.queues.prioQ| > 0 && InHand(s.writer).None?
    requires s' == TakePrio(s) && s.queues.prioQ[0].privileged
    ensures Queued(s'.queues, s'.writer, id)
  {
    var q := s.queues.prioQ;
    if i :| 1 <= i < |q| && q[i].id == id { assert q[1..][i - 1].id == id; }
  }

  lemma DequeueKeepsQueued(s: Sys, a: Action, s': Sys, id: nat)
    requires QueueInv(s) && Queued(s.queues, s.writer, id)
    requires (a.Dequeue? || a.Stop?) && Do(s, a) == Some(s')
    ensures Queued(s'.queues, s'.writer, id)
  {
    var q := s.queues.prioQ;
    if |q| > 0 { assert PrivilegedOk(s, q[0]); }
    if a.Dequeue? {
      if s'.queues.prioQ != q { TakeKeepsQueued(s, s', id); }
    } else if i :| 1 <= i < |q| && q[i].id == id {
      assert q[1..][i - 1].id == id;
    }
  }

  lemma CompleteKeepsQueued(q: Queues, r: Request, ok: bool, w: Writer, w': Writer, id: nat)
    requires Queued(q, w, id) && InHand(w) == Some(r)
    ensures Queued(Complete(q, r, ok), w', id)
  {
  }

  lemma WriterKeepsQueued(s: Sys, a: Action, s': Sys, id: nat)
    requires Queued(s.queues, s.writer, id)
    requires (a.Validate? || a.OfferFrame? || a.Barrier?) && Do(s, a) == Some(s')
    ensures Queued(s'.queues, s'.writer, id)
  {
    var r := InHand(s.writer).value;
    CompleteKeepsQueued(s.queues, r, true, s.writer, s'.writer, id);
    CompleteKeepsQueued(s.queues, r, false, s.writer, s'.writer, id);
  }

  lemma OtherKeepsQueued(s: Sys, a: Action, s': Sys, id: nat)
    requires Queued(s.queues, s.writer, id)
    requires a.World? || a.Peer? || a.Negotiate? || a.Lease? || a.Wheel?
    requires Do(s, a) == Some(s')
    ensures Queued(s'.queues, s'.writer, id)
    ensures TxAwaiting(s'.gate) ==> s'.gate == s.gate
  {
    var q := s.queues.prioQ;
    if i :| 0 <= i < |q| && q[i].id == id { assert a.Negotiate? ==> s'.queues.prioQ[i].id == id; }
  }

  lemma TxKeepsAwait(s: Sys, a: Action, s': Sys)
    requires AwaitInv(s) && (a.Release? || a.Drain? || a.Finish?) && Do(s, a) == Some(s')
    ensures AwaitInv(s')
  {
    if a == Release(EnqueueNeutral) && TxAwaiting(s'.gate) {
      assert s'.queues.prioQ[|s.queues.prioQ|].id == s'.gate.tx.phase.id;
    }
  }

  lemma StepKeepsAwait(s: Sys, a: Action, s': Sys)
    requires QueueInv(s) && AwaitInv(s) && Do(s, a) == Some(s')
    ensures AwaitInv(s')
  {
    if a.Release? || a.Drain? || a.Finish? {
      TxKeepsAwait(s, a, s');
    } else if TxAwaiting(s.gate) {
      var id := s.gate.tx.phase.id;
      if a.Dequeue? || a.Stop? { DequeueKeepsQueued(s, a, s', id); }
      else if a.Validate? || a.OfferFrame? || a.Barrier? { WriterKeepsQueued(s, a, s', id); }
      else { OtherKeepsQueued(s, a, s', id); }
    }
  }

  lemma {:induction false} RunKeepsAwait(s: Sys, run: seq<Action>, s': Sys)
    requires Inv(s) && AwaitInv(s) && Exec(s, run) == Some(s')
    ensures AwaitInv(s')
    decreases |run|
  {
    if |run| > 0 {
      var next := Do(s, run[0]).value;
      StepKeepsInv(s, run[0], next);
      StepKeepsAwait(s, run[0], next);
      RunKeepsAwait(next, run[1..], s');
    }
  }

  // --- what can move --------------------------------------------------------------

  /** A step the writer can take by itself, if there is one. */
  function WriterNext(s: Sys): Action {
    match s.writer
    case Poll => Dequeue(PollPriority)
    case Wait =>
      if |s.queues.prioQ| > 0 then Dequeue(TakePriority)
      else if |s.queues.sendQ| > 0 then Dequeue(TakeSend)
      else Stop(SeeStop)
    case Check(r) => Validate(FirstCheck(CheckWritable(s.core, r.privileged, r.token).None?))
    case Buffer(_) => Validate(ReadAmount)
    case Final(_) => Validate(LastCheck)
    case Sending(_, _) => OfferFrame(Accepted)
    case Level(_, _) => Barrier(ReadLevel)
    case Blocked(_, gen) =>
      if s.wire.edge then Barrier(TakeEdge)
      else if gen in s.core.doneClosed then Barrier(SeeInvalidated)
      else Barrier(SeeCanceled)
    case LastLook(_, _) => Barrier(LookAgain)
    case Stopping => if |s.queues.prioQ| == 0 && |s.queues.sendQ| == 0 then Stop(Exit) else Stop(FailQueued)
    case Stopped => Stop(Exit)
  }

  predicate WriterRests(s: Sys) {
    || s.writer.Stopped?
    || (s.writer.Wait? && |s.queues.prioQ| == 0 && |s.queues.sendQ| == 0 && !s.client.stop)
    || (s.writer.Blocked? && s.writer.gen == s.core.activeGen && !s.wire.edge
        && s.writer.req.ctx !in s.queues.expired)
  }

  lemma WriterMovesOrRests(s: Sys)
    requires IndicesOk(s.wire) && WriterInv(s.core, s.writer)
    ensures Do(s, WriterNext(s)).Some? || WriterRests(s)
  {
  }

  /** The writer rests only when stopped, when both queues are empty, or on a drain
      barrier of the live generation that nothing has yet ended. */
  lemma WriterMoves(run: seq<Action>, s: Sys)
    requires Reaches(run, s)
    ensures Do(s, WriterNext(s)).Some? || WriterRests(s)
  {
    ReachableInv(run, s);
    WriterMovesOrRests(s);
  }

  /** A step the lifecycle transaction can take by itself, if there is one. */
  function TxNext(s: Sys, tx: Tx): Action {
    match tx.phase
    case Entered => Finish(Revoke)
    case Queueing(i) =>
      if i < |tx.plan.frames| && s.writer.Stopped? && |s.queues.prioQ| >= PRIORITY_QUEUE_DEPTH
      then Release(GiveUp) else Release(EnqueueNeutral)
    case Awaiting(_, id) => if id in s.queues.results then Release(TakeResult) else Release(GiveUp)
    case Pausing => Release(Retry)
    case Draining => Drain(DrainLevel)
    case DrainBlocked =>
      if s.wire.edge then Drain(DrainEdge)
      else if s.wire.acked == |s.wire.log| then Peer(Callback)
      else Drain(DrainWriterGone)
    case DrainLastLook => Drain(DrainLookAgain)
    case Confirmed => Finish(ConfirmHeld)
    case Finished(_) => if tx.closing then Finish(ShutChannel) else Finish(Unlock)
    case Shut(_) => Finish(Unlock)
  }

  lemma WriterServesPriority(s: Sys)
    requires Inv(s) && s.core.activeGen == 0 && !s.writer.Stopped?
    requires |s.queues.prioQ| > 0 || InHand(s.writer).Some?
    ensures Do(s, WriterNext(s)).Some?
  {
    WriterMovesOrRests(s);
  }

  /** Phases that wait for nobody but, at the drain, the peer. */
  lemma OwnStepMoves(s: Sys)
    requires IndicesOk(s.wire) && WakeInv(s.gate, s.writer, s.wire)
    requires s.gate.Releasing? && !s.gate.tx.phase.Queueing? && !s.gate.tx.phase.Awaiting?
    ensures Do(s, TxNext(s, s.gate.tx)).Some? || (s.gate.tx.phase.DrainBlocked? && s.wire.acked < |s.wire.log|)
  {
  }

  lemma SendingStepMoves(s: Sys)
    requires Inv(s) && AwaitInv(s) && s.core.activeGen == 0
    requires s.gate.Releasing? && (s.gate.tx.phase.Queueing? || s.gate.tx.phase.Awaiting?)
    ensures Do(s, TxNext(s, s.gate.tx)).Some? || Do(s, WriterNext(s)).Some?
  {
    if !s.writer.Stopped? && (|s.queues.prioQ| > 0 || InHand(s.writer).Some?) { WriterServesPriority(s); }
  }

  /** A release transaction can be held up only by a peer that has bytes left to
      acknowledge; otherwise it or the writer can always take a step, whatever the
      queues hold and without waiting for any timeout. */
  lemma TransactionMoves(run: seq<Action>, s: Sys)
    requires Reaches(run, s) && s.gate.Releasing?
    ensures || Do(s, TxNext(s, s.gate.tx)).Some?
            || Do(s, WriterNext(s)).Some?
            || (s.gate.tx.phase.DrainBlocked? && s.wire.acked < |s.wire.log|)
  {
    InitInv();
    RunKeepsInv(INIT, run, s);
    RunKeepsAwait(INIT, run, s);
    if s.gate.tx.phase.Queueing? || s.gate.tx.phase.Awaiting? {
      assert TxOk(s.gate.tx, s);
      SendingStepMoves(s);
    } else {
      OwnStepMoves(s);
    }
  }
}
