/** The RPC client against its history: what a call receives, what goes on the wire and
    what cancellation prevents, told from the run alone rather than from the state. */
module RpcHistory {
  import opened Outcomes
  import opened Rpc

  predicate Registers(a: Action, id: int) { a.Step? && a.id == id && a.a.Register? && a.a.size.Some? }

  predicate Registered(run: seq<Action>, id: int) { exists i | 0 <= i < |run| :: Registers(run[i], id) }

  /** What one event decides for a call whose fate is open: its response, a malformed frame
      or the end of the channel. Events and other calls' responses decide nothing. */
  function Verdict(a: Action, id: int): Option<Reply> {
    match a
    case ChannelBreaks(_) => Some(Broken(Unreachable))
    case Arrives(Response(n, body), _) => if n == id then Some(Matched(n, body)) else None
    case Arrives(Event, _) => None
    case Arrives(_, _) => Some(Broken(BadFrame))
    case _ => None
  }

  /** The first verdict after the call registered. */
  function Fate(run: seq<Action>, id: int): Option<Reply> {
    if |run| == 0 then None
    else
      var rest := run[..|run| - 1];
      if Fate(rest, id).Some? then Fate(rest, id)
      else if Registered(rest, id) then Verdict(run[|run| - 1], id)
      else None
  }

  predicate Delivers(a: Action) { a.Step? && a.a.SendText? && !a.a.outcome.FailedLost? }

  /** The calls whose frames went out, in order. */
  function SentBy(run: seq<Action>): seq<int> {
    if |run| == 0 then []
    else
      var last := run[|run| - 1];
      SentBy(run[..|run| - 1]) + (if Delivers(last) then [last.id] else [])
  }

  predicate Invokes(a: Action, id: int) { a.Step? && a.id == id && a.a.SendText? }

  predicate Invoked(run: seq<Action>, id: int) { exists i | 0 <= i < |run| :: Invokes(run[i], id) }

  lemma Snoc(run: seq<Action>, a: Action)
    ensures (run + [a])[..|run|] == run && (run + [a])[|run|] == a
  {
  }

  lemma RegisteredSnoc(run: seq<Action>, a: Action, id: int)
    ensures Registered(run + [a], id) <==> Registered(run, id) || Registers(a, id)
  {
    var all := run + [a];
    if i :| 0 <= i < |run| && Registers(run[i], id) { assert Registers(all[i], id); }
    if Registers(a, id) { assert Registers(all[|run|], id); }
  }

  lemma InvokedSnoc(run: seq<Action>, a: Action, id: int)
    ensures Invoked(run + [a], id) <==> Invoked(run, id) || Invokes(a, id)
  {
    var all := run + [a];
    if i :| 0 <= i < |run| && Invokes(run[i], id) { assert Invokes(all[i], id); }
    if Invokes(a, id) { assert Invokes(all[|run|], id); }
  }

  lemma FateSnoc(run: seq<Action>, a: Action, id: int)
    ensures Fate(run + [a], id)
         == if Fate(run, id).Some? then Fate(run, id) else if Registered(run, id) then Verdict(a, id) else None
  {
    hide Registered, Verdict;
    Snoc(run, a);
  }

  lemma SentSnoc(run: seq<Action>, a: Action)
    ensures SentBy(run + [a]) == SentBy(run) + (if Delivers(a) then [a.id] else [])
  {
    Snoc(run, a);
  }

  lemma {:induction false} FateNeedsRegistration(run: seq<Action>, id: int)
    requires !Registered(run, id)
    ensures Fate(run, id).None?
  {
    if |run| > 0 {
      var rest := run[..|run| - 1];
      assert run == rest + [run[|run| - 1]];
      RegisteredSnoc(rest, run[|run| - 1], id);
      FateNeedsRegistration(rest, id);
    }
  }

  // --- the state is what the history says ------------------------------------------

  /** Wherever a call's value is, it is the call's fate. */
  ghost predicate FateOk(run: seq<Action>, s: Sys) {
    && (forall id | Registered(run, id) :: id in s.calls && !s.calls[id].stage.Numbered?)
    && (forall id <- s.pending :: Registered(run, id) && Fate(run, id).None?)
    && (forall k | 0 <= k < |s.transit| :: Fate(run, s.transit[k].to) == Some(s.transit[k].reply))
    && (forall id <- s.slots :: Fate(run, id) == Some(s.slots[id]))
    && (forall id <- s.calls :: s.calls[id].taken.Some? ==> Fate(run, id) == s.calls[id].taken)
  }

  predicate Carries(s: Sys, k: nat, id: int)
    requires k < |s.sizes|
  {
    id in s.calls && s.calls[id].invoked && s.sizes[k] == s.calls[id].size
  }

  ghost predicate WireOk(run: seq<Action>, s: Sys) {
    var sent := SentBy(run);
    && |s.sizes| == |sent| && (forall k | 0 <= k < |sent| :: Carries(s, k, sent[k]))
    && (forall j, k | 0 <= j < k < |sent| :: sent[j] != sent[k])
    && (forall id <- s.calls :: s.calls[id].invoked <==> Invoked(run, id))
    && (forall id | Invoked(run, id) :: id in s.calls)
  }

  predicate SizeOk(a: Action, s: Sys) {
    a.Step? && Registers(a, a.id) ==> a.id in s.calls && s.calls[a.id].size == a.a.size.value
  }

  ghost predicate InputsOk(run: seq<Action>, s: Sys) {
    && (forall i | 0 <= i < |run| :: SizeOk(run[i], s))
    && (forall id <- s.calls :: Begin(s.calls[id].ctx) in run)
    && (forall ctx :: ctx in s.expired <==> Expire(ctx) in run)
  }

  lemma SameFate(run: seq<Action>, a: Action, id: int)
    requires Verdict(a, id).None?
    ensures Fate(run + [a], id) == Fate(run, id)
    ensures Registered(run + [a], id) <==> Registered(run, id) || Registers(a, id)
  {
    FateSnoc(run, a, id);
    RegisteredSnoc(run, a, id);
  }

  lemma CallFollowsFate(run: seq<Action>, s: Sys, id: int, b: CallAction, s': Sys)
    requires Inv(s) && FateOk(run, s) && DoCall(s, id, b) == Some(s')
    ensures FateOk(run + [Step(id, b)], s')
  {
    hide Fate, Registered, Buffered, NewDeviceError, PlacesOk, ServedOk, CallOk;
    CallIsOwnStep(s, id, b, s');
    forall i
      ensures Fate(run + [Step(id, b)], i) == Fate(run, i)
      ensures Registered(run + [Step(id, b)], i) <==> Registered(run, i) || Registers(Step(id, b), i)
    {
      SameFate(run, Step(id, b), i);
    }
    if b.Register? && !Registered(run, id) { FateNeedsRegistration(run, id); }
  }

  lemma QuietFollowsFate(run: seq<Action>, s: Sys, a: Action, s': Sys)
    requires Inv(s) && FateOk(run, s) && Do(s, a) == Some(s')
    requires a.Begin? || a.Push? || a.Ack? || a.Expire?
    ensures FateOk(run + [a], s')
  {
    hide Fate, Registered, Buffered, NewDeviceError, PlacesOk, ServedOk, CallOk, Sum;
    forall i
      ensures Fate(run + [a], i) == Fate(run, i)
      ensures Registered(run + [a], i) <==> Registered(run, i)
    {
      SameFate(run, a, i);
    }
    if a.Push? {
      forall i | 0 <= i < |s'.transit|
        ensures s'.transit[i] == s.transit[if i < a.k then i else i + 1] { }
    }
  }

  lemma AnswerFollowsFate(run: seq<Action>, s: Sys, a: Action, s': Sys)
    requires FateOk(run, s) && a.Arrives? && Do(s, a) == Some(s') && (a.m.Event? || a.m.Response?)
    ensures FateOk(run + [a], s')
  {
    hide Fate, Registered, Buffered, Lists;
    forall i
      ensures Fate(run + [a], i)
           == if Fate(run, i).Some? then Fate(run, i) else if Registered(run, i) then Verdict(a, i) else None
      ensures Registered(run + [a], i) <==> Registered(run, i)
    {
      FateSnoc(run, a, i);
      RegisteredSnoc(run, a, i);
    }
  }

  lemma FailFollowsFate(run: seq<Action>, s: Sys, a: Action, kind: Kind, order: seq<int>, s': Sys)
    requires FateOk(run, s) && Lists(order, s.pending) && s' == DoFail(s, kind, order)
    requires !a.Step? && forall id :: Verdict(a, id) == Some(Broken(kind))
    ensures FateOk(run + [a], s')
  {
    hide Fate, Registered, Verdict;
    forall i
      ensures Fate(run + [a], i)
           == if Fate(run, i).Some? then Fate(run, i) else if Registered(run, i) then Verdict(a, i) else None
      ensures Registered(run + [a], i) <==> Registered(run, i)
    {
      FateSnoc(run, a, i);
      RegisteredSnoc(run, a, i);
      assert Verdict(a, i) == Some(Broken(kind));
    }
    forall i | 0 <= i < |order| ensures order[i] in s.pending { assert order[i] in order; }
  }

  lemma StepFollowsFate(run: seq<Action>, s: Sys, a: Action, s': Sys)
    requires Inv(s) && FateOk(run, s) && Do(s, a) == Some(s')
    ensures FateOk(run + [a], s')
  {
    hide FateOk, Inv, Lists, DoCall, DoPush, DoFail;
    match a
    case Step(id, b) => CallFollowsFate(run, s, id, b, s');
    case Arrives(m, order) =>
      if m.Event? || m.Response? {
        AnswerFollowsFate(run, s, a, s');
      } else {
        FailFollowsFate(run, s, a, BadFrame, order, s');
      }
    case ChannelBreaks(order) => FailFollowsFate(run, s, a, Unreachable, order, s');
    case _ => QuietFollowsFate(run, s, a, s');
  }

  lemma CallKeepsWire(run: seq<Action>, s: Sys, id: int, b: CallAction, s': Sys)
    requires CallsOk(s) && s.acked <= |s.sizes| && WireOk(run, s) && DoCall(s, id, b) == Some(s')
    ensures WireOk(run + [Step(id, b)], s')
  {
    hide SentBy, Invoked, Buffered, NewDeviceError;
    CallIsOwnStep(s, id, b, s');
    SentSnoc(run, Step(id, b));
    assert CallOk(s.calls[id]);
    forall i ensures Invoked(run + [Step(id, b)], i) <==> Invoked(run, i) || Invokes(Step(id, b), i) {
      InvokedSnoc(run, Step(id, b), i);
    }
    var sent := SentBy(run);
    forall k | 0 <= k < |sent| ensures Carries(s', k, sent[k]) {
      assert Carries(s, k, sent[k]);
      if sent[k] == id { assert !b.SendText? && !b.Register?; }
    }
  }

  lemma StepKeepsWire(run: seq<Action>, s: Sys, a: Action, s': Sys)
    requires CallsOk(s) && WireOk(run, s) && Do(s, a) == Some(s')
    ensures WireOk(run + [a], s')
  {
    hide SentBy, Invoked, DoCall, Lists, CallOk;
    if a.Step? {
      CallKeepsWire(run, s, a.id, a.a, s');
    } else {
      SentSnoc(run, a);
      forall i ensures Invoked(run + [a], i) <==> Invoked(run, i) { InvokedSnoc(run, a, i); }
      forall k | 0 <= k < |s.sizes| ensures Carries(s', k, SentBy(run)[k]) { assert Carries(s, k, SentBy(run)[k]); }
    }
  }

  lemma IsRegistered(run: seq<Action>, i: nat, id: int)
    requires i < |run| && Registers(run[i], id)
    ensures Registered(run, id)
  {
  }

  lemma StepKeepsSize(run: seq<Action>, s: Sys, a: Action, s': Sys, i: nat)
    requires CallsOk(s) && FateOk(run, s) && InputsOk(run, s) && Do(s, a) == Some(s') && i <= |run|
    ensures SizeOk((run + [a])[i], s')
  {
    hide Fate, Registered, Lists, Buffered, NewDeviceError, CallOk;
    if a.Step? { CallIsOwnStep(s, a.id, a.a, s'); }
    if i < |run| {
      assert SizeOk(run[i], s);
      if run[i].Step? && Registers(run[i], run[i].id) { IsRegistered(run, i, run[i].id); }
    }
  }

  lemma ExpiredSnoc(run: seq<Action>, s: Sys, a: Action, s': Sys)
    requires Do(s, a) == Some(s') && forall ctx :: ctx in s.expired <==> Expire(ctx) in run
    ensures forall ctx :: ctx in s'.expired <==> Expire(ctx) in run + [a]
  {
    hide Lists, Buffered;
    if a.Step? { CallIsOwnStep(s, a.id, a.a, s'); }
    assert (run + [a])[|run|] == a;
  }

  lemma BegunSnoc(run: seq<Action>, s: Sys, a: Action, s': Sys)
    requires Do(s, a) == Some(s') && forall id <- s.calls :: Begin(s.calls[id].ctx) in run
    ensures forall id <- s'.calls :: Begin(s'.calls[id].ctx) in run + [a]
  {
    hide Lists, Buffered, NewDeviceError;
    if a.Step? { CallIsOwnStep(s, a.id, a.a, s'); }
    assert (run + [a])[|run|] == a;
  }

  lemma StepKeepsInputs(run: seq<Action>, s: Sys, a: Action, s': Sys)
    requires CallsOk(s) && FateOk(run, s) && InputsOk(run, s) && Do(s, a) == Some(s')
    ensures InputsOk(run + [a], s')
  {
    hide FateOk, CallsOk, Lists, DoCall, SizeOk;
    forall i | 0 <= i < |run + [a]| ensures SizeOk((run + [a])[i], s') { StepKeepsSize(run, s, a, s', i); }
    ExpiredSnoc(run, s, a, s');
    BegunSnoc(run, s, a, s');
  }

  ghost predicate History(run: seq<Action>, s: Sys) {
    Inv(s) && FateOk(run, s) && WireOk(run, s) && InputsOk(run, s)
  }

  lemma EmptyHistory()
    ensures History([], INIT)
  {
  }

  lemma {:induction false} ExecSplit(s: Sys, run: seq<Action>)
    requires Exec(s, run).Some? && |run| > 0
    ensures var rest := run[..|run| - 1];
            Exec(s, rest).Some? && Do(Exec(s, rest).value, run[|run| - 1]) == Exec(s, run)
    decreases |run|
  {
    hide Do;
    var rest, last := run[..|run| - 1], run[|run| - 1];
    var next := Do(s, run[0]).value;
    if |run| == 1 {
      assert rest == [] && run[1..] == [];
    } else {
      ExecSplit(next, run[1..]);
      assert rest[1..] == run[1..][..|run| - 2];
    }
  }

  lemma EmptyRun(s: Sys)
    requires Reaches([], s)
    ensures s == INIT
  {
  }

  lemma StepHistory(run: seq<Action>, s: Sys, a: Action, s': Sys)
    requires History(run, s) && Do(s, a) == Some(s')
    ensures History(run + [a], s')
  {
    hide Do, FateOk, WireOk, InputsOk;
    StepKeepsInv(s, a, s');
    StepFollowsFate(run, s, a, s');
    StepKeepsWire(run, s, a, s');
    StepKeepsInputs(run, s, a, s');
  }

  lemma {:induction false} RunHasHistory(run: seq<Action>, s: Sys)
    requires Reaches(run, s)
    ensures History(run, s)
    decreases |run|
  {
    hide Do, Inv, FateOk, WireOk, InputsOk, Exec;
    if |run| == 0 {
      EmptyRun(s);
      EmptyHistory();
    } else {
      ExecSplit(INIT, run);
      var rest, last := run[..|run| - 1], run[|run| - 1];
      var before := Exec(INIT, rest).value;
      RunHasHistory(rest, before);
      assert run == rest + [last];
      StepHistory(rest, before, last, s);
    }
  }

  // --- what every run guarantees -----------------------------------------------------

  lemma {:induction false} OpenUntilNow(run: seq<Action>, id: int, i: nat, k: nat)
    requires Fate(run, id).None? && i < k < |run| && Registers(run[i], id)
    ensures Verdict(run[k], id).None?
  {
    hide Verdict, Registers;
    var rest := run[..|run| - 1];
    if k == |run| - 1 {
      assert Registers(rest[i], id);
    } else {
      OpenUntilNow(rest, id, i, k);
    }
  }

  /** Fate is the first verdict after the registration. */
  lemma {:induction false} FateIsFirst(run: seq<Action>, id: int) returns (i: nat, j: nat)
    requires Fate(run, id).Some?
    ensures i < j < |run| && Registers(run[i], id) && Verdict(run[j], id) == Fate(run, id)
    ensures forall k | i < k < j :: Verdict(run[k], id).None?
  {
    hide Verdict, Registers;
    var rest := run[..|run| - 1];
    if Fate(rest, id).Some? {
      i, j := FateIsFirst(rest, id);
    } else {
      i :| 0 <= i < |rest| && Registers(rest[i], id);
      j := |run| - 1;
      forall k | i < k < j ensures Verdict(run[k], id).None? { OpenUntilNow(rest, id, i, k); }
    }
  }

  /** What a call consumed is its fate: the first of its own response, a malformed frame or
      the end of the channel since it registered, body included. */
  lemma ReplyIsItsFate(run: seq<Action>, s: Sys, id: int)
    requires Reaches(run, s) && id in s.calls && s.calls[id].taken.Some?
    ensures Fate(run, id) == s.calls[id].taken
    ensures ReceivedResponse(s.calls[id]) ==>
              exists j | 0 <= j < |run| ::
                run[j].Arrives? && run[j].m == Response(id, s.calls[id].taken.value.body)
  {
    RunHasHistory(run, s);
    var i, j := FateIsFirst(run, id);
    assert Verdict(run[j], id) == s.calls[id].taken;
  }

  /** A waiting call whose fate is open is still registered to be told; once its fate is
      decided, exactly that value is on its way to it or ready. */
  lemma WaitingHearsItsFate(run: seq<Action>, s: Sys, id: int)
    requires Reaches(run, s) && id in s.calls && s.calls[id].stage.Waiting?
    ensures id in s.pending <==> Fate(run, id).None?
    ensures Fate(run, id).Some? ==>
              || (exists k | 0 <= k < |s.transit| :: s.transit[k] == Parcel(id, Fate(run, id).value))
              || (id in s.slots && s.slots[id] == Fate(run, id).value)
  {
    hide Exec, Fate;
    RunHasHistory(run, s);
    assert Served(s, id);
  }

  /** Only calls that registered and have not returned are pending, and their fate is open. */
  lemma PendingIsClean(run: seq<Action>, s: Sys, id: int)
    requires Reaches(run, s) && id in s.pending
    ensures Registered(run, id) && Fate(run, id).None?
    ensures id in s.calls && !s.calls[id].stage.Numbered? && !s.calls[id].stage.Returned?
  {
    hide Exec, Fate, Registered;
    RunHasHistory(run, s);
  }

  /** The wire holds the frames of the calls whose SendText went through, each once, in that
      order and at the length they were encoded with. */
  lemma WireIsExact(run: seq<Action>, s: Sys)
    requires Reaches(run, s)
    ensures var sent := SentBy(run);
            && |s.sizes| == |sent|
            && (forall j, k | 0 <= j < k < |sent| :: sent[j] != sent[k])
            && (forall k, i | 0 <= k < |sent| && 0 <= i < |run| && Registers(run[i], sent[k]) ::
                  run[i].a.size == Some(s.sizes[k]))
    ensures forall id <- s.calls :: s.calls[id].invoked <==> Invoked(run, id)
  {
    hide Exec, SentBy, Invoked;
    RunHasHistory(run, s);
    var sent := SentBy(run);
    forall k, i | 0 <= k < |sent| && 0 <= i < |run| && Registers(run[i], sent[k])
      ensures run[i].a.size == Some(s.sizes[k])
    {
      assert Carries(s, k, sent[k]) && SizeOk(run[i], s);
    }
  }

  // --- cancellation -----------------------------------------------------------------

  /** Cancelled before the last look at its context. */
  predicate Abandoned(s: Sys, id: int) {
    && id in s.calls && s.calls[id].ctx in s.expired && !s.calls[id].invoked
    && match s.calls[id].stage
       case Numbered => true
       case Registered => true
       case Holding => true
       case Measured(_) => true
       case Leaving(marked) => !marked
       case Returned(marked) => !marked
       case _ => false
  }

  lemma AbandonedStays(s: Sys, id: int, a: Action, s': Sys)
    requires Abandoned(s, id) && id <= s.nextId && Do(s, a) == Some(s')
    ensures Abandoned(s', id) && id <= s'.nextId
  {
    hide Lists, Buffered, NewDeviceError;
    if a.Step? { CallIsOwnStep(s, a.id, a.a, s'); }
  }

  lemma {:induction false} AbandonedForever(s: Sys, id: int, more: seq<Action>, s': Sys)
    requires Abandoned(s, id) && id <= s.nextId && Exec(s, more) == Some(s')
    ensures Abandoned(s', id)
    decreases |more|
  {
    hide Do, Abandoned;
    if |more| > 0 {
      AbandonedStays(s, id, more[0], Do(s, more[0]).value);
      AbandonedForever(Do(s, more[0]).value, id, more[1..], s');
    }
  }

  /** Cancellation that wins the last check leaves no bytes: SendText is never invoked for
      that call in any continuation, nothing of it is on the wire, and the caller is told
      so, without the ambiguous-delivery marker. */
  lemma AbandonedCallNeverSent(run: seq<Action>, s: Sys, id: int, more: seq<Action>, s': Sys)
    requires Reaches(run, s) && id in s.calls && s.calls[id].ctx in s.expired
    requires Early(s.calls[id].stage) && !s.calls[id].stage.Cleared?
    requires Exec(s, more) == Some(s')
    ensures id in s'.calls && !s'.calls[id].invoked && !Invoked(run + more, id)
    ensures s'.calls[id].stage.Returned? ==> !s'.calls[id].stage.marked
  {
    hide Do;
    RunHasHistory(run, s);
    assert CallOk(s.calls[id]);
    AbandonedForever(s, id, more, s');
    ExecJoin(INIT, run, more);
    RunHasHistory(run + more, s');
  }

  lemma BegunUnder(s: Sys, a: Action, s': Sys)
    requires Do(s, a) == Some(s')
    ensures s.expired <= s'.expired
    ensures forall id <- s'.calls :: id !in s.calls || s'.calls[id].ctx != s.calls[id].ctx ==>
              s'.calls[id].ctx !in s.expired
  {
    hide Lists, Buffered, NewDeviceError;
    if a.Step? { CallIsOwnStep(s, a.id, a.a, s'); }
  }

  /** A context that has expired gets no further calls numbered. */
  lemma {:induction false} NoCallAfterExpiry(s: Sys, ctx: nat, more: seq<Action>, s': Sys, id: int)
    requires ctx in s.expired && Exec(s, more) == Some(s') && id in s'.calls && s'.calls[id].ctx == ctx
    ensures id in s.calls && s.calls[id].ctx == ctx
    decreases |more|
  {
    hide Do;
    if |more| > 0 {
      var next := Do(s, more[0]).value;
      BegunUnder(s, more[0], next);
      NoCallAfterExpiry(next, ctx, more[1..], s', id);
    }
  }
}
