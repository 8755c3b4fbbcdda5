/** What the single writer does with a request: when it is sent, when it is refused, what
    is reported for it, and how long a drain barrier holds the rest back. */
module HidWriter {
  import opened Outcomes
  import opened HidProto
  import opened HidCore
  import opened HidProtocol
  import opened HidInvariant
  import opened HidSteps
  import opened HidTheorems
  import opened HidTurns

  // --- a drain barrier holds ---------------------------------------------------------

  /** The writer keeps request r on its barrier: nothing was offered since frame n. */
  predicate Waits(s: Sys, r: Request, g: nat, n: nat) {
    && AtBarrier(s.writer) && s.writer.req == r && s.writer.gen == g && |s.wire.log| == n
  }

  /** What ends a barrier: its generation, its context, or the acknowledgement it waits for. */
  predicate Released(s: Sys, r: Request, g: nat, n: nat) {
    Gone(s, g) || r.ctx in s.queues.expired || n <= s.wire.acked
  }

  lemma BarrierStepWaits(s: Sys, a: BarrierAction, s': Sys, r: Request, g: nat, n: nat)
    requires Inv(s) && Waits(s, r, g, n) && !Released(s, r, g, n) && Do(s, Barrier(a)) == Some(s')
    ensures Waits(s', r, g, n)
  {
    hide QueueInv, TxInv, HeldInv, OrderInv, SilenceInv, PointerInv;
    EmptyBuffer(s.wire);
  }

  lemma OtherStepWaits(s: Sys, a: Action, s': Sys, r: Request, g: nat, n: nat)
    requires Waits(s, r, g, n) && Do(s, a) == Some(s') && !a.Barrier?
    ensures Waits(s', r, g, n)
  {
    hide BufferedAmount, BuildPlan;
  }

  lemma ExpiryOnlyGrows(s: Sys, a: Action, s': Sys)
    requires Do(s, a) == Some(s')
    ensures s.queues.expired <= s'.queues.expired && s.wire.acked <= s'.wire.acked
  {
    hide BufferedAmount, BuildPlan, FinalValidate, CheckWritable;
  }

  lemma StepKeepsBarrier(s: Sys, a: Action, s': Sys, r: Request, g: nat, n: nat)
    requires Inv(s) && Do(s, a) == Some(s') && (Waits(s, r, g, n) || Released(s, r, g, n))
    ensures Waits(s', r, g, n) || Released(s', r, g, n)
  {
    hide Inv, Do, Waits;
    if Released(s, r, g, n) {
      LiveIsCounted(s);
      StepAdvances(s, a, s');
      ExpiryOnlyGrows(s, a, s');
    } else if a.Barrier? {
      BarrierStepWaits(s, a.b, s', r, g, n);
    } else {
      OtherStepWaits(s, a, s', r, g, n);
    }
  }

  lemma {:induction false} RunKeepsBarrier(s: Sys, run: seq<Action>, s': Sys, r: Request, g: nat, n: nat)
    requires Inv(s) && Exec(s, run) == Some(s') && (Waits(s, r, g, n) || Released(s, r, g, n))
    ensures Waits(s', r, g, n) || Released(s', r, g, n)
    decreases |run|
  {
    hide Inv, Do, Waits, Released;
    if |run| > 0 {
      var next := Do(s, run[0]).value;
      StepKeepsInv(s, run[0], next);
      StepKeepsBarrier(s, run[0], next, r, g, n);
      RunKeepsBarrier(next, run[1..], s', r, g, n);
    }
  }

  /** While a drain request's generation and context live and the peer has not acknowledged
      everything up to it, the writer stays on it and nothing whatever is offered: the
      report before and the input after a barrier never share the buffer. */
  lemma BarrierHolds(run: seq<Action>, s: Sys, more: seq<Action>, s': Sys)
    requires Reaches(run, s) && AtBarrier(s.writer) && Exec(s, more) == Some(s')
    requires s'.core.activeGen == s.writer.gen && s.writer.req.ctx !in s'.queues.expired
    requires s'.wire.acked < |s.wire.log|
    ensures s'.wire.log == s.wire.log
    ensures AtBarrier(s'.writer) && s'.writer.req == s.writer.req
  {
    hide Do, Exec;
    ReachableInv(run, s);
    RunKeepsBarrier(s, more, s', s.writer.req, s.writer.gen, |s.wire.log|);
    RunGrows(s, more, s');
  }

  // --- what is abandoned is not sent ---------------------------------------------------

  predicate InFlight(s: Sys, ctx: nat) { s.writer.Sending? && s.writer.req.ctx == ctx }

  lemma StepKeepsAbandoned(s: Sys, a: Action, s': Sys, ctx: nat)
    requires Do(s, a) == Some(s') && ctx in s.queues.expired && !InFlight(s, ctx)
    ensures ctx in s'.queues.expired && !InFlight(s', ctx)
  {
    hide BufferedAmount, BuildPlan;
    ExpiryOnlyGrows(s, a, s');
  }

  /** Once a context has ended, no request authorized by it passes the last validation in any
      continuation: a caller told that its frame was abandoned never sees it delivered,
      unless it was already past that point. */
  lemma {:induction false} AbandonedNeverSent(s: Sys, more: seq<Action>, s': Sys, ctx: nat)
    requires Exec(s, more) == Some(s') && ctx in s.queues.expired && !InFlight(s, ctx)
    ensures !InFlight(s', ctx)
    decreases |more|
  {
    hide Do, InFlight;
    if |more| > 0 {
      var next := Do(s, more[0]).value;
      StepKeepsAbandoned(s, more[0], next, ctx);
      AbandonedNeverSent(next, more[1..], s', ctx);
    }
  }

  // --- when a request is sent ------------------------------------------------------------

  /** Who may write: neutral and handshake frames once the handshake has started, input
      only in the ready state under the live generation. */
  predicate Authorized(s: Sys, r: Request) {
    if r.privileged then s.core.state == Handshaking || s.core.state == Ready
    else s.core.state == Ready && 0 < r.token == s.core.activeGen
  }

  predicate Alive(s: Sys, r: Request) { r.ctx !in s.queues.expired }

  predicate Room(s: Sys, r: Request)
    requires IndicesOk(s.wire)
  {
    BufferedAmount(s.wire) + Size(r.report) <= if r.privileged then 4096 else 4074
  }

  /** The last validation lets a request through exactly when it is authorized and alive;
      otherwise it is reported as failed and nothing else changes. */
  lemma LastCheckIsExact(run: seq<Action>, s: Sys, s': Sys)
    requires Reaches(run, s) && Do(s, Validate(LastCheck)) == Some(s')
    ensures s.writer.Final? && (s'.writer.Sending? <==> Authorized(s, s.writer.req) && Alive(s, s.writer.req))
    ensures s'.writer.Sending? ==>
              s'.writer.req == s.writer.req && s'.queues == s.queues && (s'.writer.done.Some? <==> s.writer.req.drain)
    ensures !s'.writer.Sending? ==>
              s'.writer == Poll && s'.queues == Complete(s.queues, s.writer.req, false) && s'.core == s.core
  {
    ReachableInv(run, s);
    var r := s.writer.req;
    if !s'.writer.Sending? { LastCheckRefuses(s, s', r); }
    if r.privileged { assert PrivilegedOk(s, r); }
  }

  lemma EarlyRefusal(s: Sys, a: Action, s': Sys, r: Request)
    requires IndicesOk(s.wire) && Do(s, a) == Some(s') && InHand(s.writer) == Some(r)
    requires (s.writer.Check? || s.writer.Buffer?) && InHand(s'.writer).None?
    ensures !Authorized(s, r) || !Alive(s, r) || !Room(s, r)
    ensures s'.writer == Poll && s'.queues == Complete(s.queues, r, false) && s'.wire == s.wire
  {
    hide BufferedAmount, BuildPlan;
  }

  lemma IndicesHold(run: seq<Action>, s: Sys)
    requires Reaches(run, s)
    ensures IndicesOk(s.wire)
  {
    ReachableInv(run, s);
  }

  /** A request the writer drops without offering it was, at that moment, not authorized,
      abandoned, or without room; and it is reported as failed. */
  lemma RefusalHasReason(run: seq<Action>, s: Sys, a: Action, s': Sys, r: Request)
    requires Reaches(run, s) && Do(s, a) == Some(s') && InHand(s.writer) == Some(r)
    requires (s.writer.Check? || s.writer.Buffer? || s.writer.Final?) && InHand(s'.writer).None?
    ensures IndicesOk(s.wire) && (!Authorized(s, r) || !Alive(s, r) || !Room(s, r))
    ensures s'.writer == Poll && s'.queues == Complete(s.queues, r, false) && s'.wire == s.wire
  {
    if a == Validate(LastCheck) {
      LastCheckIsExact(run, s, s');
      IndicesHold(run, s);
    } else {
      IndicesHold(run, s);
      EarlyRefusal(s, a, s', r);
    }
  }

  const SENDING_STEPS := [Validate(FirstCheck(true)), Validate(ReadAmount), Validate(LastCheck), OfferFrame(Accepted)]

  lemma FourSteps(s: Sys, run: seq<Action>, s1: Sys, s2: Sys, s3: Sys, s4: Sys)
    requires |run| == 4 && Do(s, run[0]) == Some(s1) && Do(s1, run[1]) == Some(s2)
    requires Do(s2, run[2]) == Some(s3) && Do(s3, run[3]) == Some(s4)
    ensures Exec(s, run) == Some(s4)
  {
    hide Do;
    assert run[1..][1..] == run[2..] && run[2..][1..] == run[3..] && run[3..][1..] == [];
    assert Exec(s3, run[3..]) == Exec(s4, []);
    assert Exec(s2, run[2..]) == Exec(s3, run[3..]);
    assert Exec(s1, run[1..]) == Exec(s2, run[2..]);
  }

  /** And a request that is authorized, alive and has room is offered by the writer's own
      next four steps, and reported as sent unless it asked for a drain. */
  lemma AdmissibleIsSent(run: seq<Action>, s: Sys, r: Request) returns (s': Sys)
    requires Reaches(run, s) && s.writer == Check(r) && Authorized(s, r) && Alive(s, r)
    requires IndicesOk(s.wire) && Room(s, r)
    ensures Exec(s, SENDING_STEPS) == Some(s')
    ensures s'.wire.log == s.wire.log + [Entry(r.report, r.privileged, r.token, r.epoch)]
    ensures if r.drain then AtBarrier(s'.writer) && s'.writer.req == r && s'.queues == s.queues
            else s'.writer == Poll && s'.queues == Complete(s.queues, r, true)
  {
    hide BufferedAmount;
    ReachableInv(run, s);
    if r.privileged { assert PrivilegedOk(s, r); }
    var s1 := Do(s, SENDING_STEPS[0]).value;
    var s2 := Do(s1, SENDING_STEPS[1]).value;
    var s3 := Do(s2, SENDING_STEPS[2]).value;
    s' := Do(s3, SENDING_STEPS[3]).value;
    FourSteps(s, SENDING_STEPS, s1, s2, s3, s');
  }

  // --- what is reported --------------------------------------------------------------------

  lemma ReportedByWriter(s: Sys, a: Action, s': Sys, r: Request)
    requires WriterInv(s.core, s.writer) && IndicesOk(s.wire) && Do(s, a) == Some(s')
    requires s.writer.Sending? && s.writer.done.None? ==> !s.writer.req.drain
    requires s'.queues.finished == s.queues.finished + [Outcome(r, true)]
    ensures InHand(s.writer) == Some(r)
    ensures if r.drain then IndicesOk(s'.wire) && BufferedAmount(s'.wire) == 0 && s'.wire.log == s.wire.log
            else s'.wire.log == s.wire.log + [Entry(r.report, false, r.token, r.epoch)]
  {
    hide Bytes, BuildPlan, FinalValidate;
    assert s'.queues.finished[|s.queues.finished|] == Outcome(r, true) && s'.queues.finished != s.queues.finished;
  }

  /** A success reported for an ordinary request is true: its frame has entered the transport;
      and for ReleaseKeyboard everything offered so far, that report included, has been
      acknowledged. */
  lemma SuccessIsTrue(run: seq<Action>, s: Sys, a: Action, s': Sys, r: Request)
    requires Reaches(run, s) && Do(s, a) == Some(s')
    requires s'.queues.finished == s.queues.finished + [Outcome(r, true)]
    ensures InHand(s.writer) == Some(r)
    ensures if r.drain then IndicesOk(s'.wire) && BufferedAmount(s'.wire) == 0 && s'.wire.log == s.wire.log
            else s'.wire.log == s.wire.log + [Entry(r.report, false, r.token, r.epoch)]
    ensures r == ReleaseKeyboard(r.ctx, r.token) ==> r.drain
  {
    hide Do;
    ReachableInv(run, s);
    ReportedByWriter(s, a, s', r);
  }

  /** A drain request leaves its barrier for a cause, which decides its result: it succeeds when
      a look at the level finds everything acknowledged; it fails when its context has ended,
      or when its generation has and the last look still finds something. */
  lemma BarrierEndsForCause(run: seq<Action>, s: Sys, b: BarrierAction, s': Sys)
    requires Reaches(run, s) && Do(s, Barrier(b)) == Some(s')
    ensures AtBarrier(s.writer) && s'.wire.log == s.wire.log
    ensures IndicesOk(s.wire) && (AtBarrier(s'.writer) || s'.writer == Poll)
    ensures s'.writer == Poll ==>
              s'.queues == Complete(s.queues, s.writer.req, BufferedAmount(s.wire) == 0 && !b.SeeCanceled?)
    ensures s'.writer == Poll && BufferedAmount(s.wire) > 0 ==>
              s.writer.req.ctx in s.queues.expired || s.writer.gen in s.core.doneClosed
    ensures b.ReadLevel? || b.LookAgain? ==> (BufferedAmount(s.wire) == 0 ==> s'.writer == Poll)
    ensures b.SeeCanceled? ==> s.writer.req.ctx in s.queues.expired
  {
    hide Bytes;
    ReachableInv(run, s);
  }

  /** An accepted Send is reported as such at once, or starts the barrier; a failed one is
      reported as failed, and only it. */
  lemma SendIsReported(run: seq<Action>, s: Sys, outcome: SendOutcome)
    requires Reaches(run, s) && s.writer.Sending?
    ensures Do(s, OfferFrame(outcome)).Some?
    ensures var t, r := Do(s, OfferFrame(outcome)).value, s.writer.req;
            if outcome != Accepted then t.writer == Poll && t.queues == Complete(s.queues, r, false)
            else if r.drain then t.writer.Level? && t.writer.req == r && t.queues == s.queues
            else t.writer == Poll && t.queues == Complete(s.queues, r, true)
  {
    ReachableInv(run, s);
  }
}
