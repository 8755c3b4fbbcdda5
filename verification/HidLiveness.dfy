/** A release transaction always ends, and can always succeed. */
module HidLiveness {
  import opened Outcomes
  import opened HidProto
  import opened HidCore
  import opened HidProtocol
  import opened HidInvariant
  import opened HidSteps
  import opened HidTheorems
  import opened HidProgress

  /** Steps of the writer, the transaction and the peer: no expiry, no close, no caller. */
  predicate Unaided(a: Action) {
    || a.Dequeue? || a.Stop? || a.Validate? || a.OfferFrame? || a.Barrier?
    || a.Release? || a.Drain? || a.Finish? || a.Peer?
  }

  predicate AllUnaided(run: seq<Action>) { forall i | 0 <= i < |run| :: Unaided(run[i]) }

  // --- effort: what is left to do ---------------------------------------------------

  function WriterEffort(w: Writer): nat {
    match w
    case Check(_) => 20
    case Buffer(_) => 19
    case Final(_) => 18
    case Sending(_, _) => 17
    case Level(_, _) => 6
    case Blocked(_, _) => 5
    case LastLook(_, _) => 4
    case Poll => 3
    case Wait => 2
    case Stopping => 1
    case Stopped => 0
  }

  function GateEffort(g: Gate): nat {
    if !g.Releasing? then 0
    else
      var n := |g.tx.plan.frames|;
      var attempts := if g.tx.attempt < RELEASE_ATTEMPTS then 100 * (RELEASE_ATTEMPTS - g.tx.attempt) else 0;
      match g.tx.phase
      case Entered => 500
      case Queueing(i) => attempts + 10 + if i < n then 22 * (n - i) else 0
      case Awaiting(i, _) => attempts + if i < n then 22 * (n - i) - 11 else 0
      case Draining => attempts + 9
      case DrainBlocked => attempts + 8
      case DrainLastLook => attempts + 7
      case Confirmed => attempts + 6
      case Pausing => attempts + 5
      case Finished(_) => 3
      case Shut(_) => 2
  }

  function WireEffort(w: Wire): nat
    requires IndicesOk(w)
  {
    (|w.log| - w.delivered) + 8 * (|w.log| - w.acked) + 5 * w.callbacks + if w.edge then 2 else 0
  }

  function QueueEffort(q: Queues): nat { 20 * (|q.prioQ| + |q.sendQ|) }

  function Effort(s: Sys): nat
    requires IndicesOk(s.wire)
  {
    WriterEffort(s.writer) + GateEffort(s.gate) + WireEffort(s.wire) + QueueEffort(s.queues)
  }

  predicate Spends(s: Sys, s': Sys) {
    IndicesOk(s.wire) && IndicesOk(s'.wire) && Effort(s') < Effort(s)
  }

  lemma QueueSpends(s: Sys, a: Action, s': Sys)
    requires IndicesOk(s.wire) && (a.Dequeue? || a.Stop?) && Do(s, a) == Some(s')
    ensures Spends(s, s')
  {
    hide GateEffort, WireEffort;
  }

  lemma OfferSpends(s: Sys, o: SendOutcome, s': Sys)
    requires IndicesOk(s.wire) && DoOffer(s, o) == Some(s')
    ensures Spends(s, s')
  {
    hide GateEffort;
  }

  lemma WriterSpends(s: Sys, a: Action, s': Sys)
    requires IndicesOk(s.wire) && (a.Validate? || a.Barrier?) && Do(s, a) == Some(s')
    ensures Spends(s, s')
  {
    hide BufferedAmount, FinalValidate, CheckWritable, GateEffort;
  }

  lemma PeerSpends(s: Sys, p: PeerAction, s': Sys)
    requires IndicesOk(s.wire) && DoPeer(s, p) == Some(s')
    ensures Spends(s, s')
  {
  }

  lemma PlanIsShort(held: HeldInput)
    ensures BuildPlan(held).Success? ==> |BuildPlan(held).value.frames| <= 3
  {
  }

  lemma ReleaseSpends(s: Sys, r: ReleaseAction, s': Sys)
    requires IndicesOk(s.wire) && TxInv(s) && DoRelease(s, r) == Some(s')
    ensures Spends(s, s')
  {
    hide BuildPlan, EpochOk, WireEffort, WriterEffort;
    PlanIsShort(s.gate.tx.snapshot);
    assert TxOk(s.gate.tx, s);
  }

  lemma DrainSpends(s: Sys, d: DrainAction, s': Sys)
    requires IndicesOk(s.wire) && TxInv(s) && DoDrain(s, d) == Some(s')
    ensures Spends(s, s')
  {
    hide BufferedAmount, BuildPlan, EpochOk, QueueEffort, WriterEffort;
    assert TxOk(s.gate.tx, s);
  }

  lemma FinishSpends(s: Sys, f: FinishAction, s': Sys)
    requires IndicesOk(s.wire) && TxInv(s) && DoFinish(s, f) == Some(s')
    ensures Spends(s, s')
  {
    hide BuildPlan, EpochOk, QueueEffort, WireEffort, WriterEffort;
    PlanIsShort(s.core.held);
    if !s.gate.tx.phase.Entered? { assert TxOk(s.gate.tx, s); }
  }

  lemma UnaidedSpends(s: Sys, a: Action, s': Sys)
    requires Inv(s) && Unaided(a) && Do(s, a) == Some(s')
    ensures Spends(s, s')
  {
    hide Effort, DoDequeue, DoStopping, DoValidate, DoOffer, DoBarrier, DoRelease, DoDrain, DoFinish, DoPeer, TxInv;
    match a
    case Release(r) => ReleaseSpends(s, r, s');
    case Drain(d) => DrainSpends(s, d, s');
    case Finish(f) => FinishSpends(s, f, s');
    case Peer(p) => PeerSpends(s, p, s');
    case OfferFrame(o) => OfferSpends(s, o, s');
    case Validate(_) => WriterSpends(s, a, s');
    case Barrier(_) => WriterSpends(s, a, s');
    case _ => QueueSpends(s, a, s');
  }

  /** What every reachable state satisfies: the invariant, and that an awaited frame is not lost. */
  predicate Live(s: Sys) { Inv(s) && AwaitInv(s) && IndicesOk(s.wire) }

  lemma ReachableLive(run: seq<Action>, s: Sys)
    requires Reaches(run, s)
    ensures Live(s)
  {
    ReachableInv(run, s);
    InitInv();
    RunKeepsAwait(INIT, run, s);
  }

  lemma StepKeepsLive(s: Sys, a: Action, s': Sys)
    requires Live(s) && Do(s, a) == Some(s')
    ensures Live(s')
  {
    hide Do;
    StepKeepsInv(s, a, s');
    StepKeepsAwait(s, a, s');
  }

  lemma LiveSpends(s: Sys, a: Action, s': Sys)
    requires Live(s) && Unaided(a) && Do(s, a) == Some(s')
    ensures Spends(s, s')
  {
    hide Do, Inv, Effort, Unaided;
    UnaidedSpends(s, a, s');
  }

  /** No schedule of writer, transaction and peer goes on for ever: whatever the edges,
      callbacks and queued frames, a run of their steps is no longer than the effort. */
  lemma {:induction false} UnaidedIsBounded(s: Sys, more: seq<Action>, s': Sys)
    requires Live(s) && AllUnaided(more) && Exec(s, more) == Some(s')
    ensures |more| <= Effort(s)
    decreases |more|
  {
    hide Do, Live, Effort, Unaided;
    if |more| > 0 {
      var next := Do(s, more[0]).value;
      LiveSpends(s, more[0], next);
      StepKeepsLive(s, more[0], next);
      UnaidedIsBounded(next, more[1..], s');
    }
  }

  // --- it ends --------------------------------------------------------------------------

  predicate AtEnd(s: Sys) { s.gate.Releasing? && (s.gate.tx.phase.Finished? || s.gate.tx.phase.Shut?) }

  function PeerNext(w: Wire): Action {
    if w.delivered < |w.log| then Peer(Deliver) else Peer(Ack(|w.log|))
  }

  lemma LiveMoves(s: Sys)
    requires Live(s) && s.gate.Releasing?
    ensures || Do(s, TxNext(s, s.gate.tx)).Some?
            || Do(s, WriterNext(s)).Some?
            || (s.gate.tx.phase.DrainBlocked? && s.wire.acked < |s.wire.log|)
  {
    hide BufferedAmount;
    if s.gate.tx.phase.Queueing? || s.gate.tx.phase.Awaiting? {
      assert TxOk(s.gate.tx, s);
      SendingStepMoves(s);
    } else {
      OwnStepMoves(s);
    }
  }

  /** Some unaided step is enabled while a transaction holds the gate. */
  lemma NeverStuck(s: Sys) returns (a: Action)
    requires Live(s) && s.gate.Releasing?
    ensures Unaided(a) && Do(s, a).Some?
  {
    if Do(s, TxNext(s, s.gate.tx)).Some? {
      a := TxNext(s, s.gate.tx);
    } else if Do(s, WriterNext(s)).Some? {
      a := WriterNext(s);
    } else {
      a := PeerNext(s.wire);
      LiveMoves(s);
    }
  }

  lemma {:induction false} RunKeepsLive(s: Sys, more: seq<Action>, s': Sys)
    requires Live(s) && Exec(s, more) == Some(s')
    ensures Live(s')
    decreases |more|
  {
    hide Do, Live;
    if |more| > 0 {
      StepKeepsLive(s, more[0], Do(s, more[0]).value);
      RunKeepsLive(Do(s, more[0]).value, more[1..], s');
    }
  }

  lemma ReleasingUntilEnd(s: Sys, a: Action, s': Sys)
    requires s.gate.Releasing? && !AtEnd(s) && Unaided(a) && Do(s, a) == Some(s')
    ensures s'.gate.Releasing? && s'.gate.tx.closing == s.gate.tx.closing && s'.client == s.client
  {
    hide BufferedAmount, FinalValidate, CheckWritable, BuildPlan;
  }

  lemma {:induction false} Finishes(s: Sys) returns (more: seq<Action>, s': Sys)
    requires Live(s) && s.gate.Releasing? && IndicesOk(s.wire)
    ensures Exec(s, more) == Some(s') && AtEnd(s') && AllUnaided(more)
    ensures s'.gate.tx.closing == s.gate.tx.closing && s'.client == s.client
    decreases Effort(s)
  {
    hide Do, Live, Effort, Unaided;
    if AtEnd(s) {
      more, s' := [], s;
    } else {
      var a := NeverStuck(s);
      var t := Do(s, a).value;
      LiveSpends(s, a, t);
      StepKeepsLive(s, a, t);
      ReleasingUntilEnd(s, a, t);
      var rest;
      rest, s' := Finishes(t);
      more := [a] + rest;
      assert more[1..] == rest;
    }
  }

  /** However writer, transaction and peer are scheduled: at most `Effort(s)` steps, and
      when none of them can take another, the transaction has left the gate. */
  lemma EveryScheduleEnds(run: seq<Action>, s: Sys, more: seq<Action>, s': Sys)
    requires Reaches(run, s) && s.gate.Releasing?
    requires AllUnaided(more) && Exec(s, more) == Some(s')
    ensures IndicesOk(s.wire) && |more| <= Effort(s)
    ensures (forall a | Unaided(a) :: Do(s', a).None?) ==> !s'.gate.Releasing?
  {
    ReachableLive(run, s);
    UnaidedIsBounded(s, more, s');
    RunKeepsLive(s, more, s');
    if s'.gate.Releasing? { var a := NeverStuck(s'); }
  }

  /** From every reachable state with a transaction under way, writer, transaction and peer
      alone can bring it to its result. */
  lemma TransactionFinishes(run: seq<Action>, s: Sys) returns (more: seq<Action>, s': Sys)
    requires Reaches(run, s) && s.gate.Releasing?
    ensures Exec(s, more) == Some(s') && AtEnd(s') && AllUnaided(more)
    ensures s'.gate.tx.closing == s.gate.tx.closing && s'.client == s.client
  {
    ReachableLive(run, s);
    more, s' := Finishes(s);
  }
}
