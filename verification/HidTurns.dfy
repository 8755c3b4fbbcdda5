/** Who typed what: every ordinary frame carries a generation that was issued, holders
    take turns, control changes hands only through a neutral device, neutral reports stay
    behind their own release, and a live lease is alone. */
module HidTurns {
  import opened Outcomes
  import opened HidProto
  import opened HidCore
  import opened HidProtocol
  import opened HidInvariant
  import opened HidSteps
  import opened HidTheorems

  /** After the first k frames the device is neutral; ordinary frames of generations
      before g are exactly those among them. */
  predicate Cut(log: seq<Entry>, k: nat, g: nat) {
    && k <= |log| && Replay(log, k).Neutral()
    && forall i | 0 <= i < |log| && !log[i].privileged :: i < k <==> log[i].token < g
  }

  /** A frame of a generation before g is past its last validation. */
  predicate Trailing(w: Writer, g: nat) { w.Sending? && !w.req.privileged && w.req.token < g }

  predicate Turn(log: seq<Entry>, w: Writer, g: nat) {
    exists k | 0 <= k <= |log| ::
      Cut(log, k, g) && (Trailing(w, g) ==> k == |log| && Apply(Replay(log, |log|), w.req.report).Neutral())
  }

  /** Tokens in use were issued. */
  predicate TokensOk(s: Sys) {
    && (s.core.activeGen != 0 ==> s.core.activeGen in s.client.issued)
    && (s.writer.Sending? && !s.writer.req.privileged ==> s.writer.req.token in s.client.issued)
    && (forall i | 0 <= i < |s.wire.log| && !s.wire.log[i].privileged :: s.wire.log[i].token in s.client.issued)
  }

  predicate TurnsInv(s: Sys) {
    TokensOk(s) && forall g <- s.client.issued :: Turn(s.wire.log, s.writer, g)
  }

  // --- every step but three leaves log, tokens and sender alone ---------------------

  predicate Quiet(s: Sys, s': Sys) {
    && s'.wire.log == s.wire.log && s'.client.issued == s.client.issued
    && (s'.core.activeGen == s.core.activeGen || s'.core.activeGen == 0)
    && (s'.writer == s.writer || !s'.writer.Sending?)
  }

  lemma WriterIsQuiet(s: Sys, a: Action, s': Sys)
    requires Do(s, a) == Some(s')
    requires a.Dequeue? || a.Stop? || a.Barrier? || (a.Validate? && a != Validate(LastCheck))
    ensures Quiet(s, s')
  {
  }

  lemma TransactionIsQuiet(s: Sys, a: Action, s': Sys)
    requires Do(s, a) == Some(s') && (a.Release? || a.Drain? || a.Finish?)
    ensures Quiet(s, s')
  {
  }

  lemma ClientIsQuiet(s: Sys, a: Action, s': Sys)
    requires Do(s, a) == Some(s')
    requires a.World? || a.Peer? || a.Negotiate? || a.Wheel? || (a.Lease? && a != Lease(BeginSection))
    ensures Quiet(s, s')
  {
  }

  lemma QuietKeepsTurns(s: Sys, s': Sys)
    requires TurnsInv(s) && Quiet(s, s')
    ensures TurnsInv(s')
  {
    hide Cut;
    forall g <- s'.client.issued ensures Turn(s'.wire.log, s'.writer, g) {
      assert Turn(s.wire.log, s.writer, g);
    }
  }

  // --- the three others ----------------------------------------------------------------

  lemma TokensStay(s: Sys, s': Sys, g: nat)
    requires TokensOk(s) && s'.client.issued == s.client.issued + [g] && s'.core.activeGen == g
    requires s'.wire == s.wire && s'.writer == s.writer
    ensures TokensOk(s')
  {
  }

  lemma NewTurn(s: Sys, g: nat)
    requires Inv(s) && TokensOk(s) && !s.core.held.Any() && g == s.core.genCounter + 1
    ensures Turn(s.wire.log, s.writer, g)
  {
    hide Replay;
    var n := |s.wire.log|;
    CoversReplay(s.core.held, s.wire.log, s.wire.delivered, n);
    assert forall h <- s.client.issued :: h < g;
    assert Cut(s.wire.log, n, g);
    if s.writer.Sending? { assert Recorded(s.core.held, s.writer.req.report); }
  }

  lemma BeginKeepsTurns(s: Sys, s': Sys)
    requires Inv(s) && TurnsInv(s) && DoLease(s, BeginSection) == Some(s')
    ensures TurnsInv(s')
  {
    hide Replay, Covers;
    assert s'.wire == s.wire && s'.writer == s.writer;
    if s'.client.issued != s.client.issued {
      var g := s.core.genCounter + 1;
      assert s'.client.issued == s.client.issued + [g] && s'.core.activeGen == g && !s.core.held.Any();
      TokensStay(s, s', g);
      NewTurn(s, g);
      forall h <- s'.client.issued ensures Turn(s'.wire.log, s'.writer, h) {
        if h != g { assert Turn(s.wire.log, s.writer, h); }
      }
    }
  }

  lemma CheckKeepsTurns(s: Sys, s': Sys)
    requires Inv(s) && TurnsInv(s) && s.writer.Final? && s' == DoLastCheck(s)
    ensures TurnsInv(s')
  {
    hide Cut, PrivilegedOk;
    assert s'.wire == s.wire && s'.client == s.client && s'.core.activeGen == s.core.activeGen;
    assert s'.writer.Sending? ==> s'.writer.req == s.writer.req;
    assert s'.writer.Sending? && !s'.writer.req.privileged ==> s'.writer.req.token == s.core.activeGen;
    forall g <- s'.client.issued ensures Turn(s'.wire.log, s'.writer, g) {
      assert Turn(s.wire.log, s.writer, g);
      assert !Trailing(s'.writer, g);
    }
  }

  lemma AppendKeepsTurn(log: seq<Entry>, w: Writer, g: nat)
    requires Turn(log, w, g) && w.Sending?
    ensures exists k | 0 <= k <= |log| + 1 :: Cut(log + [Sent(w.req)], k, g)
  {
    hide Replay;
    var all := log + [Sent(w.req)];
    ReplayAppendAll(log, Sent(w.req));
    var k: nat :|
      && k <= |log| && Cut(log, k, g)
      && (Trailing(w, g) ==> k == |log| && Apply(Replay(log, |log|), w.req.report).Neutral());
    if Trailing(w, g) { assert Cut(all, |log| + 1, g); } else { assert Cut(all, k, g); }
  }

  lemma OfferKeepsTurns(s: Sys, a: SendOutcome, s': Sys)
    requires TurnsInv(s) && DoOffer(s, a) == Some(s')
    ensures TurnsInv(s')
  {
    hide Cut;
    forall g <- s'.client.issued ensures Turn(s'.wire.log, s'.writer, g) {
      assert Turn(s.wire.log, s.writer, g);
      AppendKeepsTurn(s.wire.log, s.writer, g);
    }
  }

  lemma StepKeepsTurns(s: Sys, a: Action, s': Sys)
    requires Inv(s) && TurnsInv(s) && Do(s, a) == Some(s')
    ensures TurnsInv(s')
  {
    hide Inv, TurnsInv, DoWorld, DoPeer, DoHandshake, DoLease, DoScroll, DoDequeue, DoStopping;
    hide DoOffer, DoBarrier, DoRelease, DoDrain, DoFinish;
    if a == Lease(BeginSection) {
      BeginKeepsTurns(s, s');
    } else if a == Validate(LastCheck) {
      CheckKeepsTurns(s, s');
    } else if a.OfferFrame? {
      OfferKeepsTurns(s, a.outcome, s');
    } else {
      if a.Release? || a.Drain? || a.Finish? { TransactionIsQuiet(s, a, s'); }
      else if a.Dequeue? || a.Stop? || a.Barrier? || a.Validate? { WriterIsQuiet(s, a, s'); }
      else { ClientIsQuiet(s, a, s'); }
      QuietKeepsTurns(s, s');
    }
  }

  lemma {:induction false} RunKeepsTurns(s: Sys, run: seq<Action>, s': Sys)
    requires Inv(s) && TurnsInv(s) && Exec(s, run) == Some(s')
    ensures TurnsInv(s')
    decreases |run|
  {
    hide Inv, TurnsInv, Do;
    if |run| > 0 {
      var next := Do(s, run[0]).value;
      StepKeepsInv(s, run[0], next);
      StepKeepsTurns(s, run[0], next);
      RunKeepsTurns(next, run[1..], s');
    }
  }

  // --- the guarantees ---------------------------------------------------------------------

  /** No input without a lease: every ordinary frame ever offered carries a generation
      that was issued. And holders never interleave: their frames enter the transport in
      the order in which their generations were issued. */
  lemma HoldersTakeTurns(run: seq<Action>, s: Sys, i: nat, j: nat)
    requires Reaches(run, s) && i < j < |s.wire.log|
    requires !s.wire.log[i].privileged && !s.wire.log[j].privileged
    ensures s.wire.log[i].token in s.client.issued && s.wire.log[j].token in s.client.issued
    ensures s.wire.log[i].token <= s.wire.log[j].token
  {
    InitInv();
    RunKeepsTurns(INIT, run, s);
    var g := s.wire.log[i].token;
    assert Turn(s.wire.log, s.writer, g);
    var k: nat :| k <= |s.wire.log| && Cut(s.wire.log, k, g);
  }

  /** Control changes hands only through a neutral device: between two ordinary frames
      of different generations there is a point at which every key and button is up. */
  lemma HandoverIsNeutral(run: seq<Action>, s: Sys, i: nat, j: nat) returns (k: nat)
    requires Reaches(run, s) && i < j < |s.wire.log|
    requires !s.wire.log[i].privileged && !s.wire.log[j].privileged
    requires s.wire.log[i].token != s.wire.log[j].token
    ensures i < k <= j && Replay(s.wire.log, k).Neutral()
  {
    HoldersTakeTurns(run, s, i, j);
    InitInv();
    RunKeepsTurns(INIT, run, s);
    var g := s.wire.log[j].token;
    assert Turn(s.wire.log, s.writer, g);
    k :| 0 <= k <= |s.wire.log| && Cut(s.wire.log, k, g);
  }

  // --- neutral reports stay behind their own release ------------------------------------

  /** Every generation issued so far is below the epoch of a release past its revocation;
      none is issued before the handshake; and a neutral frame past its last validation,
      or offered, has only frames of earlier generations before it. */
  predicate EpochsInv(s: Sys) {
    && (s.gate.Releasing? && !s.gate.tx.phase.Entered? ==> forall g <- s.client.issued :: g < s.gate.tx.epoch)
    && (!s.client.hs.HsDone? ==> s.client.issued == [] && s.client.slot.SlotFree?)
    && (s.writer.Sending? && s.writer.req.privileged ==>
          forall i | 0 <= i < |s.wire.log| && !s.wire.log[i].privileged :: s.wire.log[i].token < s.writer.req.epoch)
    && (forall i, j | 0 <= i < j < |s.wire.log| && !s.wire.log[i].privileged && s.wire.log[j].privileged ::
          s.wire.log[i].token < s.wire.log[j].epoch)
  }

  /** What a step may do to gate and handshake besides the three marked ones. */
  predicate Steady(s: Sys, s': Sys) {
    && Quiet(s, s')
    && (s'.gate.Releasing? && !s'.gate.tx.phase.Entered? ==>
          s.gate.Releasing? && !s.gate.tx.phase.Entered? && s'.gate.tx.epoch == s.gate.tx.epoch)
    && (s.client.hs.HsDone? ==> s'.client.hs.HsDone?)
    && (s'.client.slot == s.client.slot || s.client.hs.HsDone?
        || (!s.client.slot.SlotFree? && s'.client.slot.SlotFree?))
  }

  lemma WriterIsSteady(s: Sys, a: Action, s': Sys)
    requires Do(s, a) == Some(s')
    requires a.Dequeue? || a.Stop? || a.Barrier? || (a.Validate? && a != Validate(LastCheck))
    ensures Steady(s, s')
  {
    hide BufferedAmount, CheckWritable;
  }

  lemma TransactionIsSteady(s: Sys, a: Action, s': Sys)
    requires Do(s, a) == Some(s') && (a.Release? || a.Drain? || a.Finish?) && a != Finish(Revoke)
    requires a == Finish(Unlock) && s.gate.Releasing? && !s.gate.tx.closing ==> s.client.hs.HsDone?
    ensures Steady(s, s')
  {
    hide BufferedAmount;
  }

  lemma ClientIsSteady(s: Sys, a: Action, s': Sys)
    requires Do(s, a) == Some(s')
    requires if s.client.hs.HsDone? then s.core.state != Negotiating else s.client.slot.SlotFree? && !s.gate.Leaving?
    requires a.World? || a.Peer? || a.Negotiate? || a.Wheel? || (a.Lease? && a != Lease(BeginSection))
    ensures Steady(s, s')
  {
    hide BufferedAmount;
  }

  lemma SteadyKeepsEpochs(s: Sys, s': Sys)
    requires EpochsInv(s) && Steady(s, s')
    ensures EpochsInv(s')
  {
  }

  lemma RevokeKeepsEpochs(s: Sys, s': Sys)
    requires Inv(s) && EpochsInv(s) && Do(s, Finish(Revoke)) == Some(s')
    ensures EpochsInv(s')
  {
  }

  lemma BeginKeepsEpochs(s: Sys, s': Sys)
    requires Inv(s) && EpochsInv(s) && DoLease(s, BeginSection) == Some(s')
    ensures EpochsInv(s')
  {
  }

  lemma CheckKeepsEpochs(s: Sys, s': Sys)
    requires Inv(s) && TokensOk(s) && EpochsInv(s) && s.writer.Final? && s' == DoLastCheck(s)
    ensures EpochsInv(s')
  {
    var r := s.writer.req;
    if r.privileged && s'.writer.Sending? {
      assert PrivilegedOk(s, r) && Accounted(s, r);
      if TxAwaits(s.gate, r.id) {
        assert r.epoch == s.gate.tx.epoch;
      } else {
        assert s.client.issued == [];
      }
    }
  }

  lemma OfferKeepsEpochs(s: Sys, o: SendOutcome, s': Sys)
    requires EpochsInv(s) && DoOffer(s, o) == Some(s')
    ensures EpochsInv(s')
  {
  }

  /** An ordinary release holds the slot, which Connect opens only after the handshake. */
  lemma UnlockAfterHandshake(s: Sys)
    requires Inv(s) && EpochsInv(s)
    ensures s.gate.Releasing? && !s.gate.tx.closing ==> s.client.hs.HsDone?
    ensures if s.client.hs.HsDone? then s.core.state != Negotiating else s.client.slot.SlotFree? && !s.gate.Leaving?
  {
  }

  lemma StepKeepsEpochs(s: Sys, a: Action, s': Sys)
    requires Inv(s) && TokensOk(s) && EpochsInv(s) && Do(s, a) == Some(s')
    ensures EpochsInv(s')
  {
    hide Inv, TokensOk, EpochsInv, Steady, DoWorld, DoPeer, DoHandshake, DoLease, DoScroll, DoDequeue;
    hide DoStopping, DoOffer, DoBarrier, DoRelease, DoDrain, DoFinish;
    UnlockAfterHandshake(s);
    if a == Lease(BeginSection) {
      BeginKeepsEpochs(s, s');
    } else if a == Validate(LastCheck) {
      CheckKeepsEpochs(s, s');
    } else if a.OfferFrame? {
      OfferKeepsEpochs(s, a.outcome, s');
    } else if a == Finish(Revoke) {
      RevokeKeepsEpochs(s, s');
    } else {
      if a.Release? || a.Drain? || a.Finish? { TransactionIsSteady(s, a, s'); }
      else if a.Dequeue? || a.Stop? || a.Barrier? || a.Validate? { WriterIsSteady(s, a, s'); }
      else { ClientIsSteady(s, a, s'); }
      SteadyKeepsEpochs(s, s');
    }
  }

  lemma {:induction false} RunKeepsEpochs(s: Sys, run: seq<Action>, s': Sys)
    requires Inv(s) && TurnsInv(s) && EpochsInv(s) && Exec(s, run) == Some(s')
    ensures EpochsInv(s')
    decreases |run|
  {
    hide Inv, Turn, TokensOk, EpochsInv, Do;
    if |run| > 0 {
      var next := Do(s, run[0]).value;
      StepKeepsInv(s, run[0], next);
      StepKeepsTurns(s, run[0], next);
      StepKeepsEpochs(s, run[0], next);
      RunKeepsEpochs(next, run[1..], s');
    }
  }

  /** The other half of RevokedNeverFollows: no neutral report, not even one of a release
      that timed out, ever cuts into the input of a holder that came after it. */
  lemma NeutralNeverCutsIn(run: seq<Action>, s: Sys, i: nat, j: nat)
    requires Reaches(run, s) && i < j < |s.wire.log|
    requires !s.wire.log[i].privileged && s.wire.log[j].privileged
    ensures s.wire.log[i].token < s.wire.log[j].epoch
  {
    hide Do;
    InitInv();
    RunKeepsEpochs(INIT, run, s);
  }

  // --- a live lease is alone -----------------------------------------------------------------

  /** Generation g is live and, from the nth frame on, only its ordinary frames are offered. */
  predicate Alone(s: Sys, g: nat, n: nat) {
    && 0 < g == s.core.activeGen && n <= |s.wire.log|
    && (forall i | n <= i < |s.wire.log| :: !s.wire.log[i].privileged && s.wire.log[i].token == g)
    && (s.writer.Sending? ==> !s.writer.req.privileged && s.writer.req.token == g)
  }

  lemma CheckKeepsAlone(s: Sys, s': Sys, g: nat, n: nat)
    requires Inv(s) && Alone(s, g, n) && s.writer.Final? && s' == DoLastCheck(s)
    ensures Alone(s', g, n)
  {
    var r := s.writer.req;
    if r.privileged { assert PrivilegedOk(s, r) && Accounted(s, r); }
  }

  lemma OfferKeepsAlone(s: Sys, o: SendOutcome, s': Sys, g: nat, n: nat)
    requires Alone(s, g, n) && DoOffer(s, o) == Some(s')
    ensures Alone(s', g, n)
  {
  }

  /** Once a generation is not the live one it never is again. */
  predicate Gone(s: Sys, g: nat) { 0 < g <= s.core.genCounter && g != s.core.activeGen }

  lemma QuietKeepsAlone(s: Sys, s': Sys, g: nat, n: nat)
    requires Alone(s, g, n) && Quiet(s, s') && s'.core.activeGen == g
    ensures Alone(s', g, n)
  {
  }

  lemma LiveIsCounted(s: Sys)
    requires Inv(s)
    ensures CoreOk(s.core) && s.core.activeGen <= s.core.genCounter
  {
  }

  lemma StepIsQuiet(s: Sys, a: Action, s': Sys)
    requires Do(s, a) == Some(s') && a != Validate(LastCheck) && !a.OfferFrame?
    requires s.core.activeGen != 0 && s'.core.activeGen == s.core.activeGen && CoreOk(s.core)
    ensures Quiet(s, s') || a == Lease(BeginSection)
    ensures a == Lease(BeginSection) ==> s'.wire == s.wire && s'.writer == s.writer
  {
    hide DoWorld, DoPeer, DoHandshake, DoScroll, DoDequeue, DoStopping;
    hide DoOffer, DoBarrier, DoRelease, DoDrain, DoFinish, Quiet;
    if a == Lease(BeginSection) {
    } else if a.Release? || a.Drain? || a.Finish? {
      TransactionIsQuiet(s, a, s');
    } else if a.Dequeue? || a.Stop? || a.Barrier? || a.Validate? {
      WriterIsQuiet(s, a, s');
    } else {
      ClientIsQuiet(s, a, s');
    }
  }

  lemma StepKeepsAlone(s: Sys, a: Action, s': Sys, g: nat, n: nat)
    requires Inv(s) && Do(s, a) == Some(s')
    requires Alone(s, g, n) || Gone(s, g)
    ensures Alone(s', g, n) || Gone(s', g)
  {
    hide Inv, TokensOk, Quiet, DoWorld, DoPeer, DoHandshake, DoLease, DoScroll, DoDequeue, DoStopping;
    hide DoOffer, DoBarrier, DoRelease, DoDrain, DoFinish;
    LiveIsCounted(s);
    StepAdvances(s, a, s');
    if Alone(s, g, n) && s'.core.activeGen == g {
      if a == Validate(LastCheck) {
        CheckKeepsAlone(s, s', g, n);
      } else if a.OfferFrame? {
        OfferKeepsAlone(s, a.outcome, s', g, n);
      } else {
        StepIsQuiet(s, a, s');
        if a != Lease(BeginSection) { QuietKeepsAlone(s, s', g, n); }
      }
    }
  }

  lemma {:induction false} RunKeepsAlone(s: Sys, run: seq<Action>, s': Sys, g: nat, n: nat)
    requires Inv(s) && Exec(s, run) == Some(s') && (Alone(s, g, n) || Gone(s, g))
    ensures Alone(s', g, n) || Gone(s', g)
    decreases |run|
  {
    hide Inv, Do, Alone, Gone;
    if |run| > 0 {
      var next := Do(s, run[0]).value;
      StepKeepsInv(s, run[0], next);
      StepKeepsAlone(s, run[0], next, g, n);
      RunKeepsAlone(next, run[1..], s', g, n);
    }
  }

  /** While a lease stays live, starting with no frame past its last validation, nothing
      enters the transport but its own holder's frames: not another holder's, and no
      neutral report. */
  lemma LiveLeaseIsAlone(run: seq<Action>, s: Sys, more: seq<Action>, s': Sys, i: nat)
    requires Reaches(run, s) && s.core.activeGen != 0 && !s.writer.Sending?
    requires Exec(s, more) == Some(s') && s'.core.activeGen == s.core.activeGen
    requires |s.wire.log| <= i < |s'.wire.log|
    ensures !s'.wire.log[i].privileged && s'.wire.log[i].token == s.core.activeGen
  {
    hide Do, Exec;
    ReachableInv(run, s);
    RunKeepsAlone(s, more, s', s.core.activeGen, |s.wire.log|);
  }

  // --- the log only grows -----------------------------------------------------------------

  /** Frames are only appended, and acknowledgements only advance. */
  predicate WireGrows(w: Wire, w': Wire) {
    && |w.log| <= |w'.log| && w'.log[..|w.log|] == w.log && w.acked <= w'.acked
  }

  lemma StepGrows(s: Sys, a: Action, s': Sys)
    requires Do(s, a) == Some(s')
    ensures WireGrows(s.wire, s'.wire)
  {
    hide BufferedAmount, FinalValidate, CheckWritable, BuildPlan;
  }

  lemma {:induction false} RunGrows(s: Sys, run: seq<Action>, s': Sys)
    requires Exec(s, run) == Some(s')
    ensures WireGrows(s.wire, s'.wire)
    decreases |run|
  {
    hide Do;
    if |run| > 0 {
      var next := Do(s, run[0]).value;
      StepGrows(s, run[0], next);
      RunGrows(next, run[1..], s');
      assert s'.wire.log[..|s.wire.log|] == s'.wire.log[..|next.wire.log|][..|s.wire.log|];
    }
  }
}
