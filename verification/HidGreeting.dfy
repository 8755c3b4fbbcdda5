/** The readiness handshake (hid.go): what it takes for the channel to become ready, and that
    cancellation and failure are decided correctly. */
module HidGreeting {
  import opened Outcomes
  import opened HidProto
  import opened HidCore
  import opened HidProtocol
  import opened HidInvariant
  import opened HidSteps
  import opened HidTheorems

  // --- the handshake -------------------------------------------------------------------------

  predicate HandshakeOffered(w: Wire) { exists i | 0 <= i < |w.log| :: w.log[i].report.Handshake? }

  /** The handshake's success, or its result, stands for a frame in the transport. */
  predicate GreetingInv(s: Sys) {
    && (s.client.hs.HsEcho? || s.client.hs.HsCommit? || s.client.hs.HsDone? ==> HandshakeOffered(s.wire))
    && (s.client.hs.HsDone? ==> s.client.echo)
    && (s.client.hs.HsAwaiting? && s.client.hs.id in s.queues.results && s.queues.results[s.client.hs.id] ==>
          HandshakeOffered(s.wire))
  }

  lemma OfferKeepsGreeting(s: Sys, o: SendOutcome, s': Sys)
    requires Inv(s) && GreetingInv(s) && DoOffer(s, o) == Some(s')
    ensures GreetingInv(s')
  {
    var r := s.writer.req;
    if HandshakeOffered(s.wire) {
      var i :| 0 <= i < |s.wire.log| && s.wire.log[i].report.Handshake?;
      assert s'.wire.log[i] == s.wire.log[i];
    }
    if r.privileged && HsAwaits(s.client.hs, r.id) && o == Accepted {
      assert PrivilegedOk(s, r);
      assert s'.wire.log[|s.wire.log|].report.Handshake?;
    }
  }

  lemma NegotiateKeepsGreeting(s: Sys, h: HandshakeAction, s': Sys)
    requires Inv(s) && GreetingInv(s) && DoHandshake(s, h) == Some(s')
    ensures GreetingInv(s')
  {
    hide QueueInv, TxInv, HeldInv, OrderInv, SilenceInv, PointerInv, WriterInv;
  }

  /** No privileged frame is reported as accepted by this step. */
  predicate NoNewSuccess(s: Sys, s': Sys) {
    && s'.wire.log == s.wire.log && s'.client.hs == s.client.hs && (s.client.echo ==> s'.client.echo)
    && forall id | id in s'.queues.results && s'.queues.results[id] :: id in s.queues.results && s.queues.results[id]
  }

  lemma BarrierIsOrdinary(s: Sys)
    requires Inv(s)
    ensures AtBarrier(s.writer) ==> !s.writer.req.privileged
  {
  }

  lemma WriterWithoutSend(s: Sys, a: Action, s': Sys)
    requires Do(s, a) == Some(s') && (a.Validate? || a.Barrier?)
    requires AtBarrier(s.writer) ==> !s.writer.req.privileged
    ensures NoNewSuccess(s, s')
  {
    hide BufferedAmount, FinalValidate, CheckWritable;
  }

  lemma OthersWithoutSend(s: Sys, a: Action, s': Sys)
    requires Do(s, a) == Some(s') && !a.OfferFrame? && !a.Negotiate? && !a.Validate? && !a.Barrier?
    ensures NoNewSuccess(s, s')
  {
    hide BufferedAmount, BuildPlan;
  }

  /** Only Send reports a privileged frame as accepted. */
  lemma OtherKeepsGreeting(s: Sys, a: Action, s': Sys)
    requires Inv(s) && GreetingInv(s) && Do(s, a) == Some(s') && !a.OfferFrame? && !a.Negotiate?
    ensures GreetingInv(s')
  {
    hide Do, Inv;
    if a.Validate? || a.Barrier? {
      BarrierIsOrdinary(s);
      WriterWithoutSend(s, a, s');
    } else {
      OthersWithoutSend(s, a, s');
    }
  }

  lemma StepKeepsGreeting(s: Sys, a: Action, s': Sys)
    requires Inv(s) && GreetingInv(s) && Do(s, a) == Some(s')
    ensures GreetingInv(s')
  {
    hide Inv, GreetingInv, DoOffer, DoHandshake;
    if a.OfferFrame? { OfferKeepsGreeting(s, a.outcome, s'); }
    else if a.Negotiate? { NegotiateKeepsGreeting(s, a.h, s'); }
    else { OtherKeepsGreeting(s, a, s'); }
  }

  lemma {:induction false} RunKeepsGreeting(s: Sys, run: seq<Action>, s': Sys)
    requires Inv(s) && GreetingInv(s) && Exec(s, run) == Some(s')
    ensures GreetingInv(s')
    decreases |run|
  {
    hide Do, Inv, GreetingInv;
    if |run| > 0 {
      var next := Do(s, run[0]).value;
      StepKeepsInv(s, run[0], next);
      StepKeepsGreeting(s, run[0], next);
      RunKeepsGreeting(next, run[1..], s');
    }
  }

  /** A handshake that succeeded did send its frame and did see the echo; and only such a
      handshake makes the channel ready. */
  lemma ReadyMeansGreeted(run: seq<Action>, s: Sys)
    requires Reaches(run, s) && (s.core.state == Ready || s.client.hs.HsDone?)
    ensures s.client.hs.HsDone? && HandshakeOffered(s.wire) && s.client.echo
  {
    hide Do;
    InitInv();
    RunKeepsGreeting(INIT, run, s);
    ReachableInv(run, s);
  }

  // --- commit, failure and cancellation ---------------------------------------------------

  predicate InProgress(hs: Handshaker) { hs.HsQueueing? || hs.HsAwaiting? || hs.HsEcho? || hs.HsCommit? }

  /** With the echo seen, the handshake makes the channel ready exactly if it has not been
      closed meanwhile and the context is still live; otherwise it changes no state. */
  lemma CommitIsExact(run: seq<Action>, s: Sys, s': Sys)
    requires Reaches(run, s) && Do(s, Negotiate(HsReady)) == Some(s')
    ensures InProgress(s.client.hs) && s.client.echo
    ensures if s.core.state != Closed && s.client.hs.ctx !in s.queues.expired
            then s'.core == s.core.(state := Ready) && s'.client.hs.HsDone?
            else s'.core == s.core && s'.client.hs.HsFailed?
  {
    ReachableInv(run, s);
  }

  /** It is given up only for a cause: its context, the writer, or its frame being refused. */
  lemma HandshakeFailureHasCause(s: Sys, s': Sys)
    requires Do(s, Negotiate(HsFail)) == Some(s')
    ensures InProgress(s.client.hs) && s'.client.hs.HsFailed?
    ensures || s.client.hs.ctx in s.queues.expired || s.writer.Stopped?
            || (s.client.hs.HsAwaiting? && s.client.hs.id in s.queues.results && !s.queues.results[s.client.hs.id])
  {
  }

  /** Once its context has ended, or the writer has stopped, a handshake can always end. */
  lemma HopelessHandshakeEnds(run: seq<Action>, s: Sys)
    requires Reaches(run, s) && InProgress(s.client.hs)
    requires s.client.hs.ctx in s.queues.expired || s.writer.Stopped?
    ensures Do(s, Negotiate(HsFail)).Some?
  {
    ReachableInv(run, s);
  }

  /** Cancelled, and not already done. */
  predicate Abandoned(s: Sys) {
    && !s.client.hs.HsIdle? && s.core.state != Ready && s.core.state != Negotiating
    && (s.client.hs.HsFailed? || (InProgress(s.client.hs) && s.client.hs.ctx in s.queues.expired))
  }

  lemma StepKeepsAbandoned(s: Sys, a: Action, s': Sys)
    requires Inv(s) && Abandoned(s) && Do(s, a) == Some(s')
    ensures Abandoned(s')
    ensures a.Negotiate? ==> a.h.HsEnqueue? || s'.client.hs.HsFailed?
  {
    hide BufferedAmount, Inv, BuildPlan, CheckWritable, HolderRequest;
  }

  lemma {:induction false} AbandonedForever(s: Sys, more: seq<Action>, s': Sys)
    requires Inv(s) && Abandoned(s) && Exec(s, more) == Some(s')
    ensures Abandoned(s')
    decreases |more|
  {
    hide Inv, Do, Abandoned;
    if |more| > 0 {
      var next := Do(s, more[0]).value;
      StepKeepsAbandoned(s, more[0], next);
      StepKeepsInv(s, more[0], next);
      AbandonedForever(next, more[1..], s');
    }
  }

  /** A handshake whose context ended before it was done never makes the channel ready, in
      any continuation: apart from handing over its frame, its only way on is to fail. */
  lemma AbandonedHandshakeNeverReady(run: seq<Action>, s: Sys, more: seq<Action>, s': Sys, h: HandshakeAction)
    requires Reaches(run, s) && InProgress(s.client.hs) && s.client.hs.ctx in s.queues.expired
    requires Exec(s, more) == Some(s')
    ensures s'.core.state != Ready && !s'.client.hs.HsDone?
    ensures var t := Do(s', Negotiate(h)); t.Some? ==> h.HsEnqueue? || t.value.client.hs.HsFailed?
  {
    hide Do;
    ReachableInv(run, s);
    AbandonedForever(s, more, s');
    RunKeepsInv(s, more, s');
    if Do(s', Negotiate(h)).Some? { StepKeepsAbandoned(s', Negotiate(h), Do(s', Negotiate(h)).value); }
  }
}
