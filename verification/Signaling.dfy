/** Trickle ICE over the signaling channel (session.go, pumpSignalingEvents): which
    candidates reach the peer connection, and in what order. */
module Signaling {

  type Candidate = nat

  const MAX_PENDING_REMOTE_CANDIDATES := 64

  /** What the signaler hands over; an answer carries whether it will be applied. */
  datatype Event = Answer(applies: bool) | Remote(candidate: Candidate) | Malformed | Unhandled

  /** A call into the peer connection. */
  datatype Call = SetRemoteDescription(applied: bool) | AddICECandidate(candidate: Candidate)

  // --- what is promised -------------------------------------------------------------

  predicate Answered(events: seq<Event>) { Answer(true) in events }

  /** What came before the first successful answer, and what came after it. */
  function Before(events: seq<Event>): seq<Event> {
    if |events| == 0 then []
    else
      var rest := events[..|events| - 1];
      if Answered(rest) then Before(rest)
      else if events[|events| - 1] == Answer(true) then rest
      else events
  }

  function After(events: seq<Event>): seq<Event> {
    if |events| == 0 then []
    else
      var rest := events[..|events| - 1];
      if Answered(rest) then After(rest) + [events[|events| - 1]] else []
  }

  lemma {:induction false} FirstAnswerSplits(events: seq<Event>)
    ensures !Answered(Before(events))
    ensures Answered(events) ==> events == Before(events) + [Answer(true)] + After(events)
    ensures !Answered(events) ==> Before(events) == events
  {
    if |events| > 0 {
      var rest := events[..|events| - 1];
      FirstAnswerSplits(rest);
      assert events == rest + [events[|events| - 1]];
    }
  }

  function Candidates(events: seq<Event>): seq<Candidate> {
    if |events| == 0 then []
    else
      var last := events[|events| - 1];
      Candidates(events[..|events| - 1]) + (if last.Remote? then [last.candidate] else [])
  }

  function Queueable(candidates: seq<Candidate>): seq<Candidate> {
    if |candidates| <= MAX_PENDING_REMOTE_CANDIDATES then candidates else candidates[..MAX_PENDING_REMOTE_CANDIDATES]
  }

  /** The first 64 candidates before the first successful answer, then every later one;
      nothing while there is no such answer. */
  function Applied(events: seq<Event>): seq<Candidate> {
    if Answered(events) then Queueable(Candidates(Before(events))) + Candidates(After(events)) else []
  }

  /** Early candidates for which the queue had no room. */
  function Overflow(events: seq<Event>): nat {
    |Candidates(Before(events))| - |Queueable(Candidates(Before(events)))|
  }

  function Answers(events: seq<Event>): seq<bool> {
    if |events| == 0 then []
    else
      var last := events[|events| - 1];
      Answers(events[..|events| - 1]) + (if last.Answer? then [last.applies] else [])
  }

  function Added(calls: seq<Call>): seq<Candidate> {
    if |calls| == 0 then []
    else
      var last := calls[|calls| - 1];
      Added(calls[..|calls| - 1]) + (if last.AddICECandidate? then [last.candidate] else [])
  }

  function Described(calls: seq<Call>): seq<bool> {
    if |calls| == 0 then []
    else
      var last := calls[|calls| - 1];
      Described(calls[..|calls| - 1]) + (if last.SetRemoteDescription? then [last.applied] else [])
  }

  /** No candidate is added before a remote description was. */
  predicate NoneBeforeAnswer(calls: seq<Call>) {
    forall i | 0 <= i < |calls| && calls[i].AddICECandidate? ::
      exists j :: 0 <= j < i && calls[j] == SetRemoteDescription(true)
  }

  // --- the pump ------------------------------------------------------------------------

  lemma NoEvents()
    ensures !Answered([]) && Candidates([]) == [] && Applied([]) == [] && Answers([]) == [] && Overflow([]) == 0
    ensures Added([]) == [] && Described([]) == [] && NoneBeforeAnswer([])
  {
  }

  lemma CandidatesSnoc(events: seq<Event>, e: Event)
    ensures Candidates(events + [e]) == Candidates(events) + if e.Remote? then [e.candidate] else []
  {
    assert (events + [e])[..|events|] == events;
  }

  lemma AnswersSnoc(events: seq<Event>, e: Event)
    ensures Answers(events + [e]) == Answers(events) + if e.Answer? then [e.applies] else []
  {
    assert (events + [e])[..|events|] == events;
  }

  lemma AppliedSnoc(events: seq<Event>, e: Event)
    ensures Applied(events + [e]) ==
              if Answered(events) then Applied(events) + (if e.Remote? then [e.candidate] else [])
              else if e == Answer(true) then Queueable(Candidates(events)) else []
    ensures !Answered(events) ==> Applied(events) == []
  {
    hide Candidates, Queueable;
    assert (events + [e])[..|events|] == events;
    CandidatesSnoc(After(events), e);
    NoEvents();
    assert e == Answer(true) && !Answered(events) ==>
        After(events + [e]) == [] && Queueable(Candidates(events)) + [] == Queueable(Candidates(events));
  }

  lemma OverflowSnoc(events: seq<Event>, e: Event)
    ensures Overflow(events + [e]) == Overflow(events) +
              if !Answered(events) && e.Remote? && |Candidates(events)| >= MAX_PENDING_REMOTE_CANDIDATES then 1 else 0
  {
    assert (events + [e])[..|events|] == events;
    FirstAnswerSplits(events);
    CandidatesSnoc(events, e);
  }

  /** One more event, in terms of the closed form. */
  lemma EventsStep(events: seq<Event>, e: Event)
    ensures Answered(events + [e]) <==> Answered(events) || e == Answer(true)
    ensures Candidates(events + [e]) == Candidates(events) + if e.Remote? then [e.candidate] else []
    ensures Answers(events + [e]) == Answers(events) + if e.Answer? then [e.applies] else []
    ensures Applied(events + [e]) ==
              if Answered(events) then Applied(events) + (if e.Remote? then [e.candidate] else [])
              else if e == Answer(true) then Queueable(Candidates(events)) else []
    ensures !Answered(events) ==> Applied(events) == []
    ensures Overflow(events + [e]) == Overflow(events) +
              if !Answered(events) && e.Remote? && |Candidates(events)| >= MAX_PENDING_REMOTE_CANDIDATES then 1 else 0
  {
    hide Candidates, Applied, Answers, Overflow;
    CandidatesSnoc(events, e);
    AnswersSnoc(events, e);
    AppliedSnoc(events, e);
    OverflowSnoc(events, e);
  }

  lemma CallsStep(calls: seq<Call>, c: Call)
    ensures Added(calls + [c]) == Added(calls) + if c.AddICECandidate? then [c.candidate] else []
    ensures Described(calls + [c]) == Described(calls) + if c.SetRemoteDescription? then [c.applied] else []
    ensures NoneBeforeAnswer(calls) && (c.SetRemoteDescription? || SetRemoteDescription(true) in calls) ==>
              NoneBeforeAnswer(calls + [c])
  {
    var all := calls + [c];
    assert all[..|calls|] == calls;
    if NoneBeforeAnswer(calls) && (c.SetRemoteDescription? || SetRemoteDescription(true) in calls) {
      forall i | 0 <= i < |all| && all[i].AddICECandidate?
        ensures exists j :: 0 <= j < i && all[j] == SetRemoteDescription(true)
      {
        if i < |calls| {
          var j :| 0 <= j < i && calls[j] == SetRemoteDescription(true);
          assert all[j] == SetRemoteDescription(true);
        } else {
          var j :| 0 <= j < |calls| && calls[j] == SetRemoteDescription(true);
          assert all[j] == SetRemoteDescription(true);
        }
      }
    }
  }

  /** The inner loop: the queued candidates, in arrival order. */
  method Flush(before: seq<Call>, pendingRemote: seq<Candidate>) returns (calls: seq<Call>)
    requires NoneBeforeAnswer(before) && SetRemoteDescription(true) in before
    ensures Added(calls) == Added(before) + pendingRemote && Described(calls) == Described(before)
    ensures NoneBeforeAnswer(calls) && SetRemoteDescription(true) in calls
  {
    hide Added, Described, NoneBeforeAnswer;
    calls := before;
    for i := 0 to |pendingRemote|
      invariant Added(calls) == Added(before) + pendingRemote[..i] && Described(calls) == Described(before)
      invariant NoneBeforeAnswer(calls) && SetRemoteDescription(true) in calls
    {
      assert pendingRemote[..i + 1] == pendingRemote[..i] + [pendingRemote[i]];
      CallsStep(calls, AddICECandidate(pendingRemote[i]));
      calls := calls + [AddICECandidate(pendingRemote[i])];
    }
    assert pendingRemote[..|pendingRemote|] == pendingRemote;
  }

  /** The pump over the events received until the session closes or signaling fails.
      `rejected` counts candidates dropped because the queue was full. */
  method PumpSignalingEvents(events: seq<Event>) returns (calls: seq<Call>, rejected: nat)
    ensures Added(calls) == Applied(events)
    ensures Described(calls) == Answers(events)
    ensures NoneBeforeAnswer(calls)
    ensures rejected == Overflow(events)
  {
    hide Applied, Candidates, Answers, Answered, Overflow, Added, Described, NoneBeforeAnswer;
    NoEvents();
    calls, rejected := [], 0;
    var pendingRemote: seq<Candidate> := [];
    var answerApplied := false;
    for i := 0 to |events|
      invariant answerApplied <==> Answered(events[..i])
      invariant pendingRemote == if answerApplied then [] else Queueable(Candidates(events[..i]))
      invariant Added(calls) == Applied(events[..i]) && Described(calls) == Answers(events[..i])
      invariant NoneBeforeAnswer(calls)
      invariant answerApplied ==> SetRemoteDescription(true) in calls
      invariant rejected == Overflow(events[..i])
    {
      assert events[..i + 1] == events[..i] + [events[i]];
      EventsStep(events[..i], events[i]);
      match events[i]
      case Answer(applies) =>
        CallsStep(calls, SetRemoteDescription(applies));
        calls := calls + [SetRemoteDescription(applies)];
        if applies {
          answerApplied := true;
          calls := Flush(calls, pendingRemote);
          pendingRemote := [];
        }
      case Remote(candidate) =>
        if !answerApplied {
          if |pendingRemote| < MAX_PENDING_REMOTE_CANDIDATES {
            pendingRemote := pendingRemote + [candidate];
          } else {
            rejected := rejected + 1;
          }
        } else {
          CallsStep(calls, AddICECandidate(candidate));
          calls := calls + [AddICECandidate(candidate)];
        }
      case Malformed =>
      case Unhandled =>
    }
    assert events[..|events|] == events;
  }

  // --- noise and interruption ------------------------------------------------------------

  predicate Noise(e: Event) { e.Malformed? || e.Unhandled? }

  function WithoutNoise(events: seq<Event>): seq<Event> {
    if |events| == 0 then []
    else
      var last := events[|events| - 1];
      WithoutNoise(events[..|events| - 1]) + (if Noise(last) then [] else [last])
  }

  /** Messages the client does not understand change nothing, wherever and however many. */
  lemma {:induction false} NoiseIsInvisible(events: seq<Event>)
    ensures Applied(WithoutNoise(events)) == Applied(events)
    ensures Candidates(WithoutNoise(events)) == Candidates(events)
    ensures Answered(WithoutNoise(events)) <==> Answered(events)
  {
    hide Applied, Candidates, Answered, Answers, Overflow;
    if |events| == 0 {
      assert WithoutNoise(events) == events;
    } else {
      var rest, last := events[..|events| - 1], events[|events| - 1];
      NoiseIsInvisible(rest);
      assert events == rest + [last];
      EventsStep(rest, last);
      if Noise(last) {
        assert WithoutNoise(events) == WithoutNoise(rest);
      } else {
        assert WithoutNoise(events) == WithoutNoise(rest) + [last];
        EventsStep(WithoutNoise(rest), last);
      }
    }
  }

  lemma {:induction false} WithoutNoiseJoins(a: seq<Event>, b: seq<Event>)
    ensures WithoutNoise(a + b) == WithoutNoise(a) + WithoutNoise(b)
  {
    if |b| == 0 {
      assert a + b == a;
    } else {
      assert (a + b)[..|a + b| - 1] == a + b[..|b| - 1];
      WithoutNoiseJoins(a, b[..|b| - 1]);
    }
  }

  /** In particular one such message can be inserted or removed anywhere. */
  lemma OneMoreMessage(before: seq<Event>, noise: Event, after: seq<Event>)
    requires Noise(noise)
    ensures Applied(before + [noise] + after) == Applied(before + after)
  {
    NoiseIsInvisible(before + [noise] + after);
    NoiseIsInvisible(before + after);
    WithoutNoiseJoins(before + [noise], after);
    WithoutNoiseJoins(before, after);
    WithoutNoiseJoins(before, [noise]);
    assert WithoutNoise([noise]) == [] by { assert [noise][..0] == []; }
    assert WithoutNoise(before) + [] == WithoutNoise(before);
  }

  /** Stopping the pump early loses only a tail: what it added is a prefix of what it
      would have added. */
  lemma {:induction false} CallsOnlyAccumulate(events: seq<Event>, more: seq<Event>)
    ensures Applied(events) <= Applied(events + more)
    decreases |more|
  {
    hide Applied, Candidates, Answered, Answers, Overflow;
    if |more| == 0 {
      assert events + more == events;
    } else {
      EventsStep(events, more[0]);
      assert events + more == (events + [more[0]]) + more[1..];
      CallsOnlyAccumulate(events + [more[0]], more[1..]);
    }
  }

  // --- the closed form, split at the answer --------------------------------------------

  lemma {:induction false} EventsJoin(a: seq<Event>, b: seq<Event>)
    ensures Candidates(a + b) == Candidates(a) + Candidates(b) && Answers(a + b) == Answers(a) + Answers(b)
    decreases |b|
  {
    hide Candidates, Answers, Applied, Overflow;
    NoEvents();
    if |b| == 0 {
      assert a + b == a;
    } else {
      var rest, e := b[..|b| - 1], b[|b| - 1];
      EventsJoin(a, rest);
      assert b == rest + [e] && a + b == (a + rest) + [e];
      EventsStep(a + rest, e);
      EventsStep(rest, e);
    }
  }

  lemma {:induction false} CallsJoin(a: seq<Call>, b: seq<Call>)
    ensures Added(a + b) == Added(a) + Added(b) && Described(a + b) == Described(a) + Described(b)
    decreases |b|
  {
    hide Added, Described, NoneBeforeAnswer;
    NoEvents();
    if |b| == 0 {
      assert a + b == a;
    } else {
      var rest, c := b[..|b| - 1], b[|b| - 1];
      CallsJoin(a, rest);
      assert b == rest + [c] && a + b == (a + rest) + [c];
      CallsStep(a + rest, c);
      CallsStep(rest, c);
    }
  }

  /** Candidates and Answers pick out exactly the candidates and the answers, in order: they
      distribute over concatenation, and of one event they keep just what it carries. */
  lemma ListsAreExact(a: seq<Event>, b: seq<Event>, e: Event)
    ensures Candidates(a + b) == Candidates(a) + Candidates(b) && Answers(a + b) == Answers(a) + Answers(b)
    ensures Candidates([e]) == (match e case Remote(c) => [c] case _ => [])
    ensures Answers([e]) == (match e case Answer(applies) => [applies] case _ => [])
  {
    hide Candidates, Answers, Applied, Overflow;
    EventsJoin(a, b);
    NoEvents();
    assert [] + [e] == [e];
    EventsStep([], e);
  }

  /** The same of the calls that are made. */
  lemma CallListsAreExact(a: seq<Call>, b: seq<Call>, c: Call)
    ensures Added(a + b) == Added(a) + Added(b) && Described(a + b) == Described(a) + Described(b)
    ensures Added([c]) == (match c case AddICECandidate(n) => [n] case _ => [])
    ensures Described([c]) == (match c case SetRemoteDescription(applied) => [applied] case _ => [])
  {
    hide Added, Described, NoneBeforeAnswer;
    CallsJoin(a, b);
    NoEvents();
    assert [] + [c] == [c];
    CallsStep([], c);
  }

  lemma {:induction false} AfterFirstAnswer(before: seq<Event>, after: seq<Event>)
    requires !Answered(before)
    ensures Before(before + [Answer(true)] + after) == before && After(before + [Answer(true)] + after) == after
    decreases |after|
  {
    var all := before + [Answer(true)] + after;
    if |after| == 0 {
      assert all[..|all| - 1] == before;
    } else {
      assert all[..|all| - 1] == before + [Answer(true)] + after[..|after| - 1];
      AfterFirstAnswer(before, after[..|after| - 1]);
      assert all[|before|] == Answer(true);
    }
  }

  lemma AppliedSplits(before: seq<Event>, after: seq<Event>)
    requires !Answered(before)
    ensures var all := before + [Answer(true)] + after;
            && Applied(all) == Queueable(Candidates(before)) + Candidates(after)
            && Overflow(all) == |Candidates(before)| - |Queueable(Candidates(before))|
  {
    hide Candidates, Queueable, Before, After;
    AfterFirstAnswer(before, after);
    assert (before + [Answer(true)] + after)[|before|] == Answer(true);
  }

  lemma QueueKeepsFirst(candidates: seq<Candidate>)
    ensures Queueable(candidates) == candidates[..if |candidates| > 64 then 64 else |candidates|]
  {
  }

  /** With the first successful answer between them, at most 64 of the candidates before it
      are added, those that came first, and then all that came after it; the rest of the
      early ones overflow. Without such an answer nothing is added. */
  lemma AppliedIsExact(before: seq<Event>, after: seq<Event>)
    requires !Answered(before)
    ensures Applied(before) == []
    ensures var early := Candidates(before);
            var kept := if |early| > 64 then 64 else |early|;
            && Applied(before + [Answer(true)] + after) == early[..kept] + Candidates(after)
            && Overflow(before + [Answer(true)] + after) == |early| - kept
  {
    hide Candidates, Queueable, Before, After, Overflow, Answered;
    AppliedSplits(before, after);
    QueueKeepsFirst(Candidates(before));
  }
}
