/** A release whose context is live and whose channel is ready can be confirmed. */
module HidSuccess {
  import opened Outcomes
  import opened HidProto
  import opened HidCore
  import opened HidProtocol
  import opened HidInvariant
  import opened HidSteps
  import opened HidTheorems
  import opened HidProgress
  import opened HidLiveness

  predicate Undisturbed(s: Sys) {
    s.gate.Releasing? && s.core.state == Ready && s.gate.tx.ctx !in s.queues.expired
  }

  /** Queueing or awaiting its frames, none of which has failed. */
  predicate Healthy(s: Sys) {
    && Undisturbed(s) && s.gate.tx.wasReady
    && match s.gate.tx.phase
       case Queueing(_) => true
       case Awaiting(_, id) => id in s.queues.results ==> s.queues.results[id]
       case _ => false
  }

  /** The frame the transaction awaits is about to be refused for the buffer. */
  predicate BufferRefuses(s: Sys) {
    && IndicesOk(s.wire) && s.writer.Buffer? && s.writer.req.privileged && TxAwaits(s.gate, s.writer.req.id)
    && BufferedAmount(s.wire) > MAX_BUFFERED - Size(s.writer.req.report)
  }

  /** The next step towards having every plan frame accepted. */
  function Drive(s: Sys): Action
    requires s.gate.Releasing?
  {
    match s.gate.tx.phase
    case Queueing(i) =>
      if i >= |s.gate.tx.plan.frames| || |s.queues.prioQ| < PRIORITY_QUEUE_DEPTH then Release(EnqueueNeutral)
      else WriterNext(s)
    case Awaiting(_, id) => if id in s.queues.results then Release(TakeResult) else WriterNext(s)
    case _ => Finish(Revoke)
  }

  lemma WriterIsUnaided(s: Sys)
    ensures Unaided(WriterNext(s))
  {
  }

  /** What the writer does to the transaction's own frame, when nothing is wrong. */
  lemma AwaitedIsServed(s: Sys)
    requires Live(s) && Healthy(s) && !BufferRefuses(s) && !s.writer.Stopped?
    requires InHandPrivileged(s.writer) && TxAwaits(s.gate, InHand(s.writer).value.id)
    requires Do(s, WriterNext(s)).Some?
    ensures var s' := Do(s, WriterNext(s)).value;
            var id := s.gate.tx.phase.id;
            id in s'.queues.results ==> s'.queues.results[id]
  {
    var r := InHand(s.writer).value;
    assert PrivilegedOk(s, r);
    assert r == NeutralRequest(s.gate.tx, s.gate.tx.phase.i, r.id);
    assert !AtBarrier(s.writer);
  }

  lemma FinalKeepsState(s: Sys)
    ensures s.writer.Final? ==>
              FinalValidate(s.core, s.writer.req, s.writer.req.ctx in s.queues.expired).0.state == s.core.state
  {
  }

  lemma ServeKeepsHealthy(s: Sys)
    requires Live(s) && Healthy(s) && !BufferRefuses(s)
    requires s.gate.tx.phase.Awaiting? ==> s.gate.tx.phase.id !in s.queues.results
    requires IndicesOk(s.wire) && Do(s, WriterNext(s)).Some? && !s.writer.Stopped? && !s.writer.Stopping?
    ensures Healthy(Do(s, WriterNext(s)).value) && Do(s, WriterNext(s)).value.gate == s.gate
  {
    hide BufferedAmount, Live, CheckWritable, FinalValidate;
    FinalKeepsState(s);
    if InHandPrivileged(s.writer) && TxAwaits(s.gate, InHand(s.writer).value.id) { AwaitedIsServed(s); }
  }

  lemma ReadyWriterRuns(s: Sys)
    requires Inv(s) && s.core.state == Ready
    ensures !s.writer.Stopped? && !s.writer.Stopping?
  {
  }

  lemma ReadyTxFacts(s: Sys)
    requires Live(s) && Healthy(s)
    ensures s.core.activeGen == 0 && BuildPlan(s.gate.tx.snapshot) == Success(s.gate.tx.plan)
    ensures forall id <- s.queues.results :: id < s.queues.nextId
    ensures s.gate.tx.phase.Awaiting? ==> Queued(s.queues, s.writer, s.gate.tx.phase.id)
  {
    assert TxOk(s.gate.tx, s);
  }

  /** Every plan frame accepted: only the drain is left. */
  predicate AllAccepted(s: Sys) { Undisturbed(s) && s.gate.tx.wasReady && s.gate.tx.phase.Draining? }

  lemma DriveStep(s: Sys)
    requires Live(s) && Healthy(s) && !BufferRefuses(s)
    ensures Unaided(Drive(s)) && Do(s, Drive(s)).Some?
    ensures Healthy(Do(s, Drive(s)).value) || AllAccepted(Do(s, Drive(s)).value)
    ensures Drive(s) == WriterNext(s) ==> Do(s, Drive(s)).value.gate == s.gate
  {
    hide Inv, AwaitInv, BuildPlan, BufferedAmount;
    hide DoValidate, DoOffer, DoBarrier, DoDequeue, DoStopping, DoFinish, DoDrain;
    ReadyTxFacts(s);
    ReadyWriterRuns(s);
    WriterIsUnaided(s);
    if Drive(s) == WriterNext(s) {
      WriterServesPriority(s);
      ServeKeepsHealthy(s);
    }
  }

  // --- success ----------------------------------------------------------------------------

  /** On the way to a confirmed release. */
  predicate OnCourse(s: Sys) {
    || Healthy(s) || AllAccepted(s)
    || (Undisturbed(s) && s.gate.tx.phase.Entered?)
    || (Undisturbed(s) && s.gate.tx.wasReady && s.gate.tx.phase.Confirmed?)
  }

  predicate Acknowledged(w: Wire) { IndicesOk(w) && w.acked == |w.log| }

  /** Let the peer acknowledge everything first, then move the transaction. */
  function SuccessNext(s: Sys): Action
    requires s.gate.Releasing?
  {
    if !Acknowledged(s.wire) then PeerNext(s.wire)
    else match s.gate.tx.phase
      case Draining => Drain(DrainLevel)
      case Confirmed => Finish(ConfirmHeld)
      case _ => Drive(s)
  }

  predicate Succeeded(s: Sys) { s.gate.Releasing? && s.gate.tx.phase == Finished(true) }

  lemma PeerKeepsCourse(s: Sys)
    requires IndicesOk(s.wire) && OnCourse(s) && !Acknowledged(s.wire)
    ensures Unaided(PeerNext(s.wire)) && Do(s, PeerNext(s.wire)).Some? && OnCourse(Do(s, PeerNext(s.wire)).value)
  {
  }

  lemma RevokeKeepsCourse(s: Sys)
    requires Live(s) && Undisturbed(s) && s.gate.tx.phase.Entered?
    ensures Do(s, Finish(Revoke)).Some? && Healthy(Do(s, Finish(Revoke)).value)
  {
    if s.core.held.absoluteButtons {
      EncodeReachesDevice(Pointer(s.core.held.x, s.core.held.y, 0), POWER_ON);
    }
  }

  lemma SmallReports(r: Report)
    requires Encodable(r)
    ensures Size(r) <= 10
  {
  }

  lemma EmptyNeverRefuses(s: Sys)
    requires Live(s) && Acknowledged(s.wire)
    ensures !BufferRefuses(s)
  {
    EmptyBuffer(s.wire);
    if s.writer.Buffer? && s.writer.req.privileged {
      assert PrivilegedOk(s, s.writer.req);
      SmallReports(s.writer.req.report);
    }
  }

  lemma HealthyPhase(s: Sys)
    requires Healthy(s)
    ensures s.gate.Releasing? && (s.gate.tx.phase.Queueing? || s.gate.tx.phase.Awaiting?)
  {
  }

  lemma CourseReleases(s: Sys)
    requires OnCourse(s)
    ensures s.gate.Releasing?
  {
  }

  lemma SuccessStep(s: Sys)
    requires Live(s) && OnCourse(s)
    ensures Unaided(SuccessNext(s)) && Do(s, SuccessNext(s)).Some?
    ensures OnCourse(Do(s, SuccessNext(s)).value) || Succeeded(Do(s, SuccessNext(s)).value)
  {
    hide Inv, AwaitInv, Healthy, BufferRefuses, DoRevoke, DoRelease;
    if !Acknowledged(s.wire) {
      PeerKeepsCourse(s);
    } else if Healthy(s) {
      HealthyPhase(s);
      EmptyNeverRefuses(s);
      DriveStep(s);
    } else if s.gate.tx.phase.Entered? {
      RevokeKeepsCourse(s);
    } else {
      EmptyBuffer(s.wire);
    }
  }

  lemma {:induction false} Succeeds(s: Sys) returns (more: seq<Action>, s': Sys)
    requires Live(s) && OnCourse(s) && IndicesOk(s.wire)
    ensures Exec(s, more) == Some(s') && Succeeded(s') && AllUnaided(more)
    decreases Effort(s)
  {
    hide Do, Live, Effort, Unaided, OnCourse, SuccessNext;
    CourseReleases(s);
    SuccessStep(s);
    var a := SuccessNext(s);
    var t := Do(s, a).value;
    LiveSpends(s, a, t);
    if Succeeded(t) {
      assert [a][1..] == [] && Exec(t, []) == Some(t);
      more, s' := [a], t;
    } else {
      StepKeepsLive(s, a, t);
      var rest;
      rest, s' := Succeeds(t);
      more := [a] + rest;
      assert more[1..] == rest;
    }
  }

  /** From every reachable state in which a transaction has the gate, the channel is ready
      and its context is live, writer, transaction and peer can bring it to nil: confirmed
      releases exist wherever one is asked for. */
  lemma ReleaseCanSucceed(run: seq<Action>, s: Sys) returns (more: seq<Action>, s': Sys)
    requires Reaches(run, s) && s.gate.Releasing? && s.gate.tx.phase.Entered?
    requires s.core.state == Ready && s.gate.tx.ctx !in s.queues.expired
    ensures Exec(s, more) == Some(s') && Succeeded(s') && AllUnaided(more)
  {
    ReachableLive(run, s);
    more, s' := Succeeds(s);
  }
}
