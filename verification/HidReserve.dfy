/** Whether the neutral reserve is enough: exactly when every frame of a release plan
    passes the buffer check, even if the peer acknowledges nothing. */
module HidReserve {
  import opened Outcomes
  import opened HidProto
  import opened HidCore
  import opened HidProtocol
  import opened HidInvariant
  import opened HidSteps
  import opened HidTheorems
  import opened HidProgress
  import opened HidLiveness
  import opened HidSuccess

  /** Bytes buffered, and the frame past its last validation that will join them. */
  function Load(s: Sys): nat
    requires IndicesOk(s.wire)
  {
    BufferedAmount(s.wire) + if s.writer.Sending? then Size(s.writer.req.report) else 0
  }

  /** In the first attempt of the transaction that burned epoch e, frames still to be accepted. */
  predicate InAttempt(s: Sys, e: nat) {
    && s.gate.Releasing? && s.gate.tx.wasReady && s.gate.tx.epoch == e && s.gate.tx.attempt == 0
    && (s.gate.tx.phase.Queueing? || s.gate.tx.phase.Awaiting?)
  }

  /** Its frame is past the last validation, or done. */
  predicate AwaitedCharged(s: Sys, id: nat) {
    id in s.queues.results || (s.writer.Sending? && s.writer.req.privileged && s.writer.req.id == id)
  }

  /** How many plan frames the load accounts for. */
  function Charged(s: Sys): nat
    requires s.gate.Releasing? && (s.gate.tx.phase.Queueing? || s.gate.tx.phase.Awaiting?)
  {
    match s.gate.tx.phase
    case Queueing(i) => i
    case Awaiting(i, id) => if AwaitedCharged(s, id) then i + 1 else i
  }

  function PlanPrefix(plan: Plan, n: nat): nat {
    if n <= |plan.frames| then PlanBytes(plan.frames[..n]) else 0
  }

  predicate WithinBudget(s: Sys, e: nat, level: nat, plan: Plan) {
    && IndicesOk(s.wire) && e <= s.core.genCounter
    && (InAttempt(s, e) ==>
          && s.gate.tx.plan == plan && Charged(s) <= |plan.frames|
          && Load(s) <= level + PlanPrefix(plan, Charged(s)))
  }

  lemma PlanPrefixStep(plan: Plan, i: nat)
    requires i < |plan.frames|
    ensures PlanPrefix(plan, i + 1) == PlanPrefix(plan, i) + Size(plan.frames[i])
  {
    assert plan.frames[..i + 1][..i] == plan.frames[..i];
  }

  lemma {:induction false} PlanPrefixGrows(plan: Plan, i: nat, j: nat)
    requires i <= j <= |plan.frames|
    ensures PlanPrefix(plan, i) <= PlanPrefix(plan, j)
    decreases j - i
  {
    if i < j {
      PlanPrefixStep(plan, i);
      PlanPrefixGrows(plan, i + 1, j);
    }
  }

  // --- the load stays within the budget --------------------------------------------------

  /** During a transaction only its own awaited frame passes the last validation. */
  lemma OnlyAwaitedPasses(s: Sys, s': Sys, e: nat)
    requires Inv(s) && InAttempt(s, e) && s.writer.Final? && s' == DoLastCheck(s) && s'.writer.Sending?
    ensures s'.writer.req == s.writer.req && s.writer.req.privileged && TxAwaits(s.gate, s.writer.req.id)
    ensures s.gate.tx.phase.i < |s.gate.tx.plan.frames|
    ensures s.writer.req.report == s.gate.tx.plan.frames[s.gate.tx.phase.i]
    ensures s.writer.req.id !in s.queues.results
  {
    assert TxOk(s.gate.tx, s);
    var r := s.writer.req;
    if r.privileged {
      assert PrivilegedOk(s, r) && Accounted(s, r);
      assert !HsAwaits(s.client.hs, r.id);
    }
  }

  lemma AwaitingInPlan(s: Sys, e: nat)
    requires Inv(s) && InAttempt(s, e)
    ensures s.gate.tx.phase.Awaiting? ==> s.gate.tx.phase.i < |s.gate.tx.plan.frames|
    ensures s.gate.tx.phase.Queueing? ==> s.gate.tx.phase.i <= |s.gate.tx.plan.frames|
    ensures s.core.activeGen == 0
  {
    assert TxOk(s.gate.tx, s);
  }

  /** A step that leaves transaction and load alone, or lightens it, and only completes results. */
  lemma LighterKeepsBudget(s: Sys, s': Sys, e: nat, level: nat, plan: Plan)
    requires Inv(s) && WithinBudget(s, e, level, plan) && IndicesOk(s'.wire)
    requires s.core.genCounter <= s'.core.genCounter && s'.gate == s.gate && Load(s') <= Load(s)
    requires forall id :: AwaitedCharged(s, id) ==> AwaitedCharged(s', id)
    ensures WithinBudget(s', e, level, plan)
  {
    hide Load, PlanPrefix, Inv, AwaitedCharged;
    if InAttempt(s, e) {
      AwaitingInPlan(s, e);
      if s.gate.tx.phase.Awaiting? { PlanPrefixGrows(plan, s.gate.tx.phase.i, s.gate.tx.phase.i + 1); }
    }
  }

  lemma QueueKeepsBudget(s: Sys, a: Action, s': Sys, e: nat, level: nat, plan: Plan)
    requires Inv(s) && WithinBudget(s, e, level, plan) && Do(s, a) == Some(s')
    requires a.Dequeue? || a.Stop? || a.Barrier? || (a.Validate? && a != Validate(LastCheck))
    ensures WithinBudget(s', e, level, plan)
  {
    hide Inv, WithinBudget, Bytes;
    assert IndicesOk(s.wire);
    LighterKeepsBudget(s, s', e, level, plan);
  }

  lemma CheckLeaves(s: Sys, s': Sys)
    requires s.writer.Final? && s' == DoLastCheck(s)
    ensures s'.gate == s.gate && s'.wire == s.wire && s'.core.genCounter == s.core.genCounter
    ensures forall id <- s.queues.results :: id in s'.queues.results
    ensures s'.writer.Sending? ==> s'.writer.req == s.writer.req && s'.queues == s.queues
  {
  }

  lemma CheckKeepsBudget(s: Sys, s': Sys, e: nat, level: nat, plan: Plan)
    requires Inv(s) && WithinBudget(s, e, level, plan) && s.writer.Final? && s' == DoLastCheck(s)
    ensures WithinBudget(s', e, level, plan)
  {
    hide Inv, Bytes, PlanPrefix;
    CheckLeaves(s, s');
    if s'.writer.Sending? && InAttempt(s, e) {
      OnlyAwaitedPasses(s, s', e);
      PlanPrefixStep(plan, s.gate.tx.phase.i);
    } else if InAttempt(s, e) {
      LighterKeepsBudget(s, s', e, level, plan);
    }
  }

  lemma PrivilegedHasNoBarrier(s: Sys)
    requires Inv(s)
    ensures s.writer.Sending? && s.writer.req.privileged ==> s.writer.done.None?
    ensures AtBarrier(s.writer) ==> !s.writer.req.privileged
  {
  }

  lemma OfferKeepsBudget(s: Sys, o: SendOutcome, s': Sys, e: nat, level: nat, plan: Plan)
    requires Inv(s) && WithinBudget(s, e, level, plan) && DoOffer(s, o) == Some(s')
    ensures WithinBudget(s', e, level, plan)
  {
    hide Inv, Bytes, PlanPrefix, InAttempt;
    PrivilegedHasNoBarrier(s);
    BytesAppend(s.wire.log, Sent(s.writer.req), s.wire.acked);
    LighterKeepsBudget(s, s', e, level, plan);
  }

  lemma OutsideKeepsBudget(s: Sys, a: Action, s': Sys, e: nat, level: nat, plan: Plan)
    requires Inv(s) && WithinBudget(s, e, level, plan) && Do(s, a) == Some(s')
    requires a.World? || a.Peer? || a.Negotiate? || a.Wheel?
    ensures WithinBudget(s', e, level, plan)
  {
    hide Inv, WithinBudget, Bytes;
    assert IndicesOk(s.wire);
    if a.Peer? && a.p.Ack? { BytesMonotone(s.wire.log, s.wire.acked, a.p.upTo); }
    LighterKeepsBudget(s, s', e, level, plan);
  }

  lemma LeaseKeepsBudget(s: Sys, l: LeaseAction, s': Sys, e: nat, level: nat, plan: Plan)
    requires WithinBudget(s, e, level, plan) && DoLease(s, l) == Some(s')
    ensures WithinBudget(s', e, level, plan)
  {
    hide Bytes, PlanPrefix;
  }

  /** The next result identity belongs to nobody yet. */
  lemma NewIdIsFresh(s: Sys)
    requires Inv(s)
    ensures !AwaitedCharged(s, s.queues.nextId)
  {
    if s.writer.Sending? && s.writer.req.privileged { assert PrivilegedOk(s, s.writer.req); }
  }

  lemma ReleaseKeepsBudget(s: Sys, r: ReleaseAction, s': Sys, e: nat, level: nat, plan: Plan)
    requires Inv(s) && WithinBudget(s, e, level, plan) && DoRelease(s, r) == Some(s')
    ensures WithinBudget(s', e, level, plan)
  {
    hide Inv, Bytes, PlanPrefix;
    if InAttempt(s, e) { AwaitingInPlan(s, e); }
    if s'.queues != s.queues { NewIdIsFresh(s); }
  }

  lemma TxKeepsBudget(s: Sys, a: Action, s': Sys, e: nat, level: nat, plan: Plan)
    requires WithinBudget(s, e, level, plan) && Do(s, a) == Some(s') && (a.Drain? || a.Finish?)
    ensures WithinBudget(s', e, level, plan)
  {
    hide Bytes, PlanPrefix, BuildPlan;
  }

  lemma StepKeepsBudget(s: Sys, a: Action, s': Sys, e: nat, level: nat, plan: Plan)
    requires Inv(s) && WithinBudget(s, e, level, plan) && Do(s, a) == Some(s')
    ensures WithinBudget(s', e, level, plan)
  {
    hide Inv, WithinBudget, DoLease, DoOffer, DoRelease;
    match a
    case Lease(l) => LeaseKeepsBudget(s, l, s', e, level, plan);
    case OfferFrame(o) => OfferKeepsBudget(s, o, s', e, level, plan);
    case Validate(v) =>
      if v == LastCheck { CheckKeepsBudget(s, s', e, level, plan); }
      else { QueueKeepsBudget(s, a, s', e, level, plan); }
    case Dequeue(_) => QueueKeepsBudget(s, a, s', e, level, plan);
    case Stop(_) => QueueKeepsBudget(s, a, s', e, level, plan);
    case Barrier(_) => QueueKeepsBudget(s, a, s', e, level, plan);
    case Release(r) => ReleaseKeepsBudget(s, r, s', e, level, plan);
    case Drain(_) => TxKeepsBudget(s, a, s', e, level, plan);
    case Finish(_) => TxKeepsBudget(s, a, s', e, level, plan);
    case _ => OutsideKeepsBudget(s, a, s', e, level, plan);
  }

  lemma {:induction false} RunKeepsBudget(s: Sys, run: seq<Action>, s': Sys, e: nat, level: nat, plan: Plan)
    requires Inv(s) && WithinBudget(s, e, level, plan) && Exec(s, run) == Some(s')
    ensures Inv(s') && WithinBudget(s', e, level, plan)
    decreases |run|
  {
    hide Inv, Do, WithinBudget;
    if |run| > 0 {
      var next := Do(s, run[0]).value;
      StepKeepsInv(s, run[0], next);
      StepKeepsBudget(s, run[0], next, e, level, plan);
      RunKeepsBudget(next, run[1..], s', e, level, plan);
    }
  }

  // --- exactly when the reserve is enough ---------------------------------------------------

  /** A plan frame of that attempt is about to be refused for the buffer. */
  predicate Refused(s: Sys, e: nat) { InAttempt(s, e) && BufferRefuses(s) }

  lemma BudgetForbidsRefusal(s: Sys, e: nat, level: nat, plan: Plan)
    requires Inv(s) && WithinBudget(s, e, level, plan) && level + PlanBytes(plan.frames) <= MAX_BUFFERED
    ensures !Refused(s, e)
  {
    hide Bytes, BuildPlan;
    assert plan.frames[..|plan.frames|] == plan.frames;
    if Refused(s, e) {
      var r := s.writer.req;
      AwaitingInPlan(s, e);
      assert PrivilegedOk(s, r);
      var i := s.gate.tx.phase.i;
      PlanPrefixStep(plan, i);
      PlanPrefixGrows(plan, i + 1, |plan.frames|);
    }
  }

  lemma LoadIsBounded(s: Sys)
    requires Inv(s)
    ensures IndicesOk(s.wire) && Load(s) <= MAX_BUFFERED
  {
  }

  /** The load is what the charged part of the plan brought it to. */
  predicate OnBudget(s: Sys, e: nat, level: nat, plan: Plan) {
    && IndicesOk(s.wire) && InAttempt(s, e) && s.gate.tx.plan == plan
    && Charged(s) <= |plan.frames| && Load(s) == level + PlanPrefix(plan, Charged(s))
  }

  lemma CheckStaysOnBudget(s: Sys, s': Sys, e: nat, level: nat, plan: Plan)
    requires Inv(s) && OnBudget(s, e, level, plan) && s.writer.Final? && s' == DoLastCheck(s)
    requires s.gate.tx.phase.Awaiting? ==> s.gate.tx.phase.id !in s.queues.results
    requires Healthy(s')
    ensures OnBudget(s', e, level, plan)
  {
    hide Bytes, PlanPrefix, Inv;
    CheckLeaves(s, s');
    if s'.writer.Sending? {
      OnlyAwaitedPasses(s, s', e);
      PlanPrefixStep(plan, s.gate.tx.phase.i);
    }
  }

  lemma ServeStaysOnBudget(s: Sys, e: nat, level: nat, plan: Plan)
    requires Inv(s) && OnBudget(s, e, level, plan) && !s.writer.Final?
    requires s.gate.tx.phase.Awaiting? ==> s.gate.tx.phase.id !in s.queues.results
    requires Do(s, WriterNext(s)).Some?
    requires Healthy(Do(s, WriterNext(s)).value) && Do(s, WriterNext(s)).value.gate == s.gate
    ensures OnBudget(Do(s, WriterNext(s)).value, e, level, plan)
  {
    hide Bytes, PlanPrefix, Inv, CheckWritable;
    PrivilegedHasNoBarrier(s);
    if s.writer.Sending? { BytesAppend(s.wire.log, Sent(s.writer.req), s.wire.acked); }
  }

  lemma QueueStaysOnBudget(s: Sys, e: nat, level: nat, plan: Plan)
    requires Live(s) && Healthy(s) && OnBudget(s, e, level, plan)
    requires Drive(s).Release? && Do(s, Drive(s)).Some? && Healthy(Do(s, Drive(s)).value)
    ensures OnBudget(Do(s, Drive(s)).value, e, level, plan)
  {
    hide Bytes, PlanPrefix, Inv, AwaitInv;
    AwaitingInPlan(s, e);
    NewIdIsFresh(s);
  }

  /** The whole plan cannot have been accepted: it does not fit. */
  lemma NotAllAccepted(s: Sys, e: nat, level: nat, plan: Plan)
    requires Live(s) && Healthy(s) && OnBudget(s, e, level, plan) && level + PlanBytes(plan.frames) > MAX_BUFFERED
    requires Do(s, Drive(s)).Some?
    requires Drive(s) == WriterNext(s) ==> Do(s, Drive(s)).value.gate == s.gate
    ensures !AllAccepted(Do(s, Drive(s)).value)
    ensures Drive(s) == WriterNext(s) || Drive(s).Release?
    ensures Drive(s) == WriterNext(s) && s.gate.tx.phase.Awaiting? ==> s.gate.tx.phase.id !in s.queues.results
  {
    hide Bytes, Inv, AwaitInv, DoValidate, DoOffer, DoBarrier, DoDequeue, DoStopping, DoFinish, DoDrain;
    LoadIsBounded(s);
    assert plan.frames[..|plan.frames|] == plan.frames;
  }

  lemma FinalStep(s: Sys)
    requires IndicesOk(s.wire) && s.writer.Final?
    ensures Do(s, WriterNext(s)) == Some(DoLastCheck(s))
  {
  }

  lemma DriveStaysOnBudget(s: Sys, e: nat, level: nat, plan: Plan)
    requires Live(s) && Healthy(s) && !BufferRefuses(s) && OnBudget(s, e, level, plan)
    requires level + PlanBytes(plan.frames) > MAX_BUFFERED
    ensures Unaided(Drive(s)) && Do(s, Drive(s)).Some?
    ensures Healthy(Do(s, Drive(s)).value) && OnBudget(Do(s, Drive(s)).value, e, level, plan)
  {
    hide Inv, AwaitInv, BufferRefuses, WriterNext, Do, Unaided, Load;
    DriveStep(s);
    LoadIsBounded(s);
    NotAllAccepted(s, e, level, plan);
    if Drive(s) != WriterNext(s) {
      QueueStaysOnBudget(s, e, level, plan);
    } else if s.writer.Final? {
      FinalStep(s);
      CheckStaysOnBudget(s, Do(s, Drive(s)).value, e, level, plan);
    } else {
      ServeStaysOnBudget(s, e, level, plan);
    }
  }

  lemma BudgetIsInAttempt(s: Sys, e: nat, level: nat, plan: Plan)
    requires OnBudget(s, e, level, plan)
    ensures InAttempt(s, e)
  {
  }

  lemma {:induction false} DriveToRefusal(s: Sys, e: nat, level: nat, plan: Plan) returns (more: seq<Action>, s': Sys)
    requires Live(s) && Healthy(s) && OnBudget(s, e, level, plan) && IndicesOk(s.wire)
    requires level + PlanBytes(plan.frames) > MAX_BUFFERED
    ensures Exec(s, more) == Some(s') && Refused(s', e) && AllUnaided(more)
    decreases Effort(s)
  {
    hide Do, Live, Effort, Unaided, OnBudget, Healthy, BufferRefuses, Drive;
    BudgetIsInAttempt(s, e, level, plan);
    if BufferRefuses(s) {
      more, s' := [], s;
    } else {
      DriveStaysOnBudget(s, e, level, plan);
      var a := Drive(s);
      var t := Do(s, a).value;
      LiveSpends(s, a, t);
      StepKeepsLive(s, a, t);
      var rest;
      rest, s' := DriveToRefusal(t, e, level, plan);
      more := [a] + rest;
      assert more[1..] == rest;
    }
  }

  /** This continuation does not reach a refusal of a plan frame for the buffer. */
  predicate NotRefused(s: Sys, more: seq<Action>, e: nat) {
    Exec(s, more).Some? ==> !Refused(Exec(s, more).value, e)
  }

  /** What the plan would bring the buffer to, if nothing were acknowledged. */
  predicate PlanFits(s: Sys, plan: Plan)
    requires IndicesOk(s.wire)
  {
    Load(s) + PlanBytes(plan.frames) <= MAX_BUFFERED
  }

  lemma RevokeOpensBudget(s: Sys, s': Sys)
    requires Inv(s) && Do(s, Finish(Revoke)) == Some(s') && s'.gate.Releasing? && s'.gate.tx.wasReady
    ensures IndicesOk(s.wire) && s.core.state == Ready && s.gate.Releasing? && s.gate.tx.phase.Entered?
    ensures InAttempt(s', s'.gate.tx.epoch) && OnBudget(s', s'.gate.tx.epoch, Load(s), s'.gate.tx.plan)
    ensures WithinBudget(s', s'.gate.tx.epoch, Load(s), s'.gate.tx.plan)
  {
    hide Bytes;
    if s.core.held.absoluteButtons {
      EncodeReachesDevice(Pointer(s.core.held.x, s.core.held.y, 0), POWER_ON);
    }
    assert s'.gate.tx.plan.frames[..0] == [];
  }

  lemma LiveInv(s: Sys)
    requires Live(s)
    ensures Inv(s) && IndicesOk(s.wire)
  {
  }

  lemma RevokeKeepsContext(s: Sys, s': Sys)
    requires Do(s, Finish(Revoke)) == Some(s') && s'.gate.Releasing? && s'.gate.tx.wasReady
    ensures s.gate.Releasing? && s.gate.tx.phase.Entered? && s.core.state == Ready
    ensures s'.gate.tx.ctx == s.gate.tx.ctx && s'.queues == s.queues
  {
  }

  lemma RevokeIsHealthy(s: Sys, s': Sys)
    requires Live(s) && Do(s, Finish(Revoke)) == Some(s') && s'.gate.Releasing? && s'.gate.tx.wasReady
    requires s'.gate.tx.ctx !in s'.queues.expired
    ensures Healthy(s')
  {
    hide Live, DoRevoke;
    RevokeKeepsContext(s, s');
    RevokeKeepsCourse(s);
  }

  lemma FitsNeverRefuses(s: Sys, s': Sys, more: seq<Action>, e: nat)
    requires Inv(s) && Do(s, Finish(Revoke)) == Some(s') && s'.gate.Releasing? && s'.gate.tx.wasReady
    requires IndicesOk(s.wire) && PlanFits(s, s'.gate.tx.plan) && e == s'.gate.tx.epoch
    ensures NotRefused(s', more, e)
  {
    hide Do, Inv, Load, WithinBudget, OnBudget, Refused;
    if Exec(s', more).Some? {
      var t := Exec(s', more).value;
      RevokeOpensBudget(s, s');
      StepKeepsInv(s, Finish(Revoke), s');
      RunKeepsBudget(s', more, t, e, Load(s), s'.gate.tx.plan);
      BudgetForbidsRefusal(t, e, Load(s), s'.gate.tx.plan);
    }
  }

  /** A release from ready: if what is buffered at the revocation, with the frame then past
      its last validation and the whole plan, is at most 4096 bytes, no plan frame of the
      first attempt is refused for the buffer in any continuation whatever; and otherwise,
      while its context is live, there is a continuation in which one is. */
  lemma ReserveSuffices(run: seq<Action>, s: Sys, s': Sys)
    requires Reaches(run, s) && Do(s, Finish(Revoke)) == Some(s') && s'.gate.Releasing? && s'.gate.tx.wasReady
    ensures IndicesOk(s.wire)
    ensures PlanFits(s, s'.gate.tx.plan) ==> forall more :: NotRefused(s', more, s'.gate.tx.epoch)
    ensures s'.gate.tx.ctx !in s'.queues.expired ==>
              (PlanFits(s, s'.gate.tx.plan) <==> forall more :: NotRefused(s', more, s'.gate.tx.epoch))
  {
    hide Load, Refused, Do, Live, OnBudget, WithinBudget, Exec;
    var e, plan := s'.gate.tx.epoch, s'.gate.tx.plan;
    ReachableLive(run, s);
    LiveInv(s);
    RevokeOpensBudget(s, s');
    if PlanFits(s, plan) {
      forall more ensures NotRefused(s', more, e) { FitsNeverRefuses(s, s', more, e); }
    } else if s'.gate.tx.ctx !in s'.queues.expired {
      StepKeepsLive(s, Finish(Revoke), s');
      LiveInv(s');
      RevokeIsHealthy(s, s');
      var more, t := DriveToRefusal(s', e, Load(s), plan);
      assert !NotRefused(s', more, e);
    }
  }

  lemma OrdinaryLoad(s: Sys)
    requires Inv(s) && IndicesOk(s.wire) && BufferedAmount(s.wire) <= 4074
    requires s.writer.Sending? ==> !s.writer.req.privileged
    ensures Load(s) <= 4074
  {
  }

  lemma PlanIsSmall(s: Sys, s': Sys)
    requires Inv(s) && Do(s, Finish(Revoke)) == Some(s') && s'.gate.Releasing? && s'.gate.tx.wasReady
    ensures PlanBytes(s'.gate.tx.plan.frames) <= 22
  {
    hide Bytes;
    if s.core.held.absoluteButtons {
      EncodeReachesDevice(Pointer(s.core.held.x, s.core.held.y, 0), POWER_ON);
    }
    PlanAlwaysFits(s.core.held, s'.gate.tx.plan, 0, 0);
  }

  /** So the reserve does what it is kept for, unless an earlier transaction's neutral frame
      is still past its last validation: from at most 4074 bytes, and no privileged frame
      about to be sent, the plan always fits. */
  lemma ReserveIsEnough(run: seq<Action>, s: Sys, s': Sys)
    requires Reaches(run, s) && Do(s, Finish(Revoke)) == Some(s') && s'.gate.Releasing? && s'.gate.tx.wasReady
    requires IndicesOk(s.wire) && BufferedAmount(s.wire) <= 4074
    requires s.writer.Sending? ==> !s.writer.req.privileged
    ensures PlanFits(s, s'.gate.tx.plan)
    ensures forall more :: NotRefused(s', more, s'.gate.tx.epoch)
  {
    hide Do, Live, NotRefused, Reaches, BufferedAmount;
    ReachableLive(run, s);
    LiveInv(s);
    OrdinaryLoad(s);
    PlanIsSmall(s, s');
    ReserveSuffices(run, s, s');
  }
}
