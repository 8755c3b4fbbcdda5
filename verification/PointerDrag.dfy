/** Drag gestures (pointer_drag.go, charly_extension.go): evenly spaced integer
    interpolation between two absolute positions, and the validator every gesture passes. */
module PointerDrag {
  import opened Outcomes
  import opened HidProto
  import opened HidCore
  import opened HidProtocol
  import opened HidInvariant
  import opened HidSteps
  import opened HidTheorems
  import opened HidTurns

  const MAX_DRAG_STEPS := 256
  const DEFAULT_DRAG_STEPS := 24

  datatype DragReport = DragReport(x: int, y: int, buttons: int)

  datatype DragError =
    | BadStart | BadDestination | BadSteps
    | NoReports | TooManyReports | BadReport(index: nat) | NoButton

  predicate ValidPointer(r: DragReport) {
    InRange(r.x, r.y) && 0 <= r.buttons <= MAX_ABSOLUTE_BUTTON_MASK
  }

  predicate ValidGesture(x: int, y: int, buttons: int) {
    InRange(x, y) && 1 <= buttons <= MAX_ABSOLUTE_BUTTON_MASK
  }

  /** What the validator accepts: a bounded, non-empty sequence of legal reports that
      presses something. */
  predicate ValidDrag(reports: seq<DragReport>) {
    && 0 < |reports| <= MAX_DRAG_STEPS + 3
    && (forall i | 0 <= i < |reports| :: ValidPointer(reports[i]))
    && (exists i | 0 <= i < |reports| :: reports[i].buttons != 0)
  }

  method ValidatePointerDragReports(reports: seq<DragReport>) returns (err: Option<DragError>)
    ensures err.None? <==> ValidDrag(reports)
    ensures err == Some(NoReports) <==> |reports| == 0
    ensures err == Some(TooManyReports) <==> |reports| > MAX_DRAG_STEPS + 3
    ensures err.Some? && err.value.BadReport? ==>
              var i := err.value.index;
              i < |reports| && !ValidPointer(reports[i]) && forall j | 0 <= j < i :: ValidPointer(reports[j])
  {
    if |reports| == 0 { return Some(NoReports); }
    if |reports| > MAX_DRAG_STEPS + 3 { return Some(TooManyReports); }
    var hasButtonState := false;
    for i := 0 to |reports|
      invariant forall j | 0 <= j < i :: ValidPointer(reports[j])
      invariant hasButtonState <==> exists j | 0 <= j < i :: reports[j].buttons != 0
    {
      if !ValidPointer(reports[i]) { return Some(DragError.BadReport(i)); }
      if reports[i].buttons != 0 { hasButtonState := true; }
    }
    if !hasButtonState { return Some(NoButton); }
    return None;
  }

  // --- what a drag is ------------------------------------------------------------------

  /** The rational point (a*(d-i) + b*i)/d of the segment from a to b, rounded down. */
  predicate OnSegment(v: int, a: int, b: int, i: int, d: int) {
    v * d <= a * (d - i) + b * i < (v + 1) * d
  }

  /** Press at the start, move along the segment to the destination, release there. */
  predicate IsDrag(reports: seq<DragReport>, x1: int, y1: int, x2: int, y2: int, button: int, steps: nat) {
    && |reports| == steps + 3
    && (forall i | 0 <= i <= steps + 1 ::
          reports[i].buttons == button && OnSegment(reports[i].x, x1, x2, i, steps + 1)
          && OnSegment(reports[i].y, y1, y2, i, steps + 1))
    && reports[steps + 2] == DragReport(x2, y2, 0)
  }

  lemma EndsOnSegment(a: int, b: int, d: int)
    requires d > 0
    ensures OnSegment(a, a, b, 0, d) && OnSegment(b, a, b, d, d)
  {
    assert (a + 1) * d == a * d + d && (b + 1) * d == b * d + d;
  }

  lemma Rounds(n: int, d: int)
    requires d > 0
    ensures (n / d) * d <= n < (n / d + 1) * d
  {
  }

  lemma PointOnSegment(v: int, a: int, b: int, i: int, d: int)
    requires d > 0 && v == (a * (d - i) + b * i) / d
    ensures OnSegment(v, a, b, i, d)
  {
    Rounds(a * (d - i) + b * i, d);
  }

  lemma Product(x: int, y: int)
    requires x >= 0 && y >= 0
    ensures x * y >= 0
  {
  }

  lemma Sandwich(v: int, n: int, low: int, high: int, d: int)
    requires d > 0 && v * d <= n < (v + 1) * d && low * d <= n <= high * d
    ensures low <= v <= high
  {
    assert v < low ==> (v + 1) * d <= low * d;
    assert v > high ==> v * d >= (high + 1) * d;
  }

  lemma StaysBetween(v: int, a: int, b: int, i: int, d: int)
    requires d > 0 && 0 <= i <= d && OnSegment(v, a, b, i, d)
    ensures a <= b ==> a <= v <= b
    ensures b <= a ==> b <= v <= a
  {
    var n := a * (d - i) + b * i;
    assert n - a * d == (b - a) * i && b * d - n == (b - a) * (d - i);
    if a <= b {
      Product(b - a, i);
      Product(b - a, d - i);
      Sandwich(v, n, a, b, d);
    } else {
      assert (b - a) * i == -((a - b) * i) && (b - a) * (d - i) == -((a - b) * (d - i));
      Product(a - b, i);
      Product(a - b, d - i);
      Sandwich(v, n, b, a, d);
    }
  }

  lemma DragIsValid(reports: seq<DragReport>, x1: int, y1: int, x2: int, y2: int, button: int, steps: nat)
    requires ValidGesture(x1, y1, button) && ValidGesture(x2, y2, button) && steps <= MAX_DRAG_STEPS
    requires IsDrag(reports, x1, y1, x2, y2, button, steps)
    ensures ValidDrag(reports)
  {
    hide OnSegment;
    forall i | 0 <= i < |reports| ensures ValidPointer(reports[i]) {
      if i <= steps + 1 {
        StaysBetween(reports[i].x, x1, x2, i, steps + 1);
        StaysBetween(reports[i].y, y1, y2, i, steps + 1);
      }
    }
    assert reports[0].buttons != 0;
  }

  method BuildPointerDragReports(x1: int, y1: int, x2: int, y2: int, button: int, steps: int)
    returns (r: Result<seq<DragReport>, DragError>)
    ensures r.Success? <==> ValidGesture(x1, y1, button) && ValidGesture(x2, y2, button) && 0 <= steps <= 256
    ensures r.Success? ==> IsDrag(r.value, x1, y1, x2, y2, button, steps) && ValidDrag(r.value)
    ensures r.Failure? ==> r.error.BadStart? || r.error.BadDestination? || r.error.BadSteps?
  {
    hide OnSegment;
    if !ValidGesture(x1, y1, button) { return Failure(BadStart); }
    if !ValidGesture(x2, y2, button) { return Failure(BadDestination); }
    if steps < 0 || steps > MAX_DRAG_STEPS { return Failure(BadSteps); }

    var reports := [DragReport(x1, y1, button)];
    var denominator := steps + 1;
    EndsOnSegment(x1, x2, denominator);
    EndsOnSegment(y1, y2, denominator);
    for i := 1 to steps + 1
      invariant |reports| == i
      invariant forall k | 0 <= k < i :: reports[k].buttons == button
      invariant forall k | 0 <= k < i :: OnSegment(reports[k].x, x1, x2, k, denominator)
      invariant forall k | 0 <= k < i :: OnSegment(reports[k].y, y1, y2, k, denominator)
    {
      var x := (x1 * (denominator - i) + x2 * i) / denominator;
      var y := (y1 * (denominator - i) + y2 * i) / denominator;
      PointOnSegment(x, x1, x2, i, denominator);
      PointOnSegment(y, y1, y2, i, denominator);
      reports := reports + [DragReport(x, y, button)];
    }
    reports := reports + [DragReport(x2, y2, button), DragReport(x2, y2, 0)];
    DragIsValid(reports, x1, y1, x2, y2, button, steps);
    var err := ValidatePointerDragReports(reports);
    assert err.None?; // the builder's own check of its result never objects
    return Success(reports);
  }

  /** BuildPointerDrag: no steps, or a negative number, asks for the default. */
  method BuildPointerDrag(x1: int, y1: int, x2: int, y2: int, button: int, steps: int)
    returns (r: Result<seq<DragReport>, DragError>)
    ensures var n := if steps > 0 then steps else 24;
            && (r.Success? <==> ValidGesture(x1, y1, button) && ValidGesture(x2, y2, button) && n <= 256)
            && (r.Success? ==> IsDrag(r.value, x1, y1, x2, y2, button, n) && ValidDrag(r.value))
  {
    var n := steps;
    if n <= 0 { n := DEFAULT_DRAG_STEPS; }
    r := BuildPointerDragReports(x1, y1, x2, y2, button, n);
  }

  // --- evenness ------------------------------------------------------------------------

  function Floor(n: int, d: int): int
    requires d > 0
  {
    n / d
  }

  function Ceiling(n: int, d: int): int
    requires d > 0
  {
    -((-n) / d)
  }

  lemma Between(u: int, n: int, d: int, q: int)
    requires d > 0 && u * d <= n < (u + 1) * d && q * d <= n < (q + 1) * d
    ensures u == q
  {
    assert u < q ==> (u + 1) * d <= q * d;
    assert q < u ==> (q + 1) * d <= u * d;
  }

  lemma QuotientIs(n: int, d: int, q: int)
    requires d > 0 && q * d <= n < q * d + d
    ensures n / d == q
  {
    Rounds(n, d);
    assert (q + 1) * d == q * d + d;
    Between(n / d, n, d, q);
  }

  lemma CeilingIs(n: int, d: int)
    requires d > 0
    ensures Ceiling(n, d) == if n % d == 0 then n / d else n / d + 1
  {
    var q, r := n / d, n % d;
    assert n == q * d + r;
    assert (-q) * d == -(q * d) && (-q - 1) * d == -(q * d) - d && (-q + 1) * d == -(q * d) + d;
    QuotientIs(-n, d, if r == 0 then -q else -q - 1);
  }

  /** Two neighbours on a segment differ by the floor or the ceiling of its length over
      the number of moves. */
  lemma EvenMove(u: int, v: int, a: int, b: int, i: int, d: int)
    requires d > 0 && OnSegment(u, a, b, i, d) && OnSegment(v, a, b, i + 1, d)
    ensures v - u == Floor(b - a, d) || v - u == Ceiling(b - a, d)
  {
    var n, delta := a * (d - i) + b * i, b - a;
    assert a * (d - (i + 1)) + b * (i + 1) == n + delta;
    var q, r := delta / d, delta % d;
    assert delta == q * d + r;
    assert (u + q) * d == u * d + q * d;
    var low := u + q;
    if n + delta < (low + 1) * d {
      Between(v, n + delta, d, low);
    } else {
      assert n + delta < (low + 2) * d;
      Between(v, n + delta, d, low + 1);
      assert r > 0;
      CeilingIs(delta, d);
    }
  }

  lemma EndsAt(v: int, a: int, b: int, i: int, d: int)
    requires d > 0 && (i == 0 || i == d) && OnSegment(v, a, b, i, d)
    ensures v == if i == 0 then a else b
  {
    var end := if i == 0 then a else b;
    assert end * d == a * (d - i) + b * i;
    Between(v, end * d, d, end);
  }

  predicate Moves(u: int, v: int, distance: int, moves: int)
    requires moves > 0
  {
    && (v - u == Floor(distance, moves) || v - u == Ceiling(distance, moves))
    && (distance >= 0 ==> v >= u) && (distance <= 0 ==> v <= u)
  }

  lemma Sign(n: int, d: int)
    requires d > 0
    ensures n >= 0 ==> n / d >= 0
    ensures n < 0 ==> n / d <= -1
    ensures n % d >= 0 && (n == 0 ==> n % d == 0)
  {
    Rounds(n, d);
    var q := n / d;
    if q < 0 { Product(-q - 1, d); assert (-q - 1) * d == -((q + 1) * d); }
    if q >= 0 { Product(q, d); }
  }

  lemma Signs(distance: int, d: int)
    requires d > 0
    ensures distance >= 0 ==> Floor(distance, d) >= 0 && Ceiling(distance, d) >= 0
    ensures distance <= 0 ==> Floor(distance, d) <= 0 && Ceiling(distance, d) <= 0
  {
    CeilingIs(distance, d);
    Sign(distance, d);
  }

  /** Every drag starts at the start and releases at the destination; each consecutive
      move is the floor or the ceiling of the distance over steps + 1 on each axis, so
      the path is monotone, and it stays between the endpoints. */
  lemma DragIsEven(reports: seq<DragReport>, x1: int, y1: int, x2: int, y2: int, button: int, steps: nat)
    requires IsDrag(reports, x1, y1, x2, y2, button, steps)
    ensures reports[0] == DragReport(x1, y1, button) && reports[steps + 1] == DragReport(x2, y2, button)
    ensures forall i | 0 <= i <= steps ::
              Moves(reports[i].x, reports[i + 1].x, x2 - x1, steps + 1)
              && Moves(reports[i].y, reports[i + 1].y, y2 - y1, steps + 1)
    ensures forall i | 0 <= i <= steps + 1 ::
              && (x1 <= reports[i].x <= x2 || x2 <= reports[i].x <= x1)
              && (y1 <= reports[i].y <= y2 || y2 <= reports[i].y <= y1)
  {
    hide OnSegment, Floor, Ceiling;
    var d := steps + 1;
    EndsAt(reports[0].x, x1, x2, 0, d);
    EndsAt(reports[0].y, y1, y2, 0, d);
    EndsAt(reports[d].x, x1, x2, d, d);
    EndsAt(reports[d].y, y1, y2, d, d);
    Signs(x2 - x1, d);
    Signs(y2 - y1, d);
    forall i | 0 <= i <= steps
      ensures Moves(reports[i].x, reports[i + 1].x, x2 - x1, d) && Moves(reports[i].y, reports[i + 1].y, y2 - y1, d)
    {
      EvenMove(reports[i].x, reports[i + 1].x, x1, x2, i, d);
      EvenMove(reports[i].y, reports[i + 1].y, y1, y2, i, d);
    }
    forall i | 0 <= i <= steps + 1
      ensures (x1 <= reports[i].x <= x2 || x2 <= reports[i].x <= x1)
              && (y1 <= reports[i].y <= y2 || y2 <= reports[i].y <= y1)
    {
      StaysBetween(reports[i].x, x1, x2, i, d);
      StaysBetween(reports[i].y, y1, y2, i, d);
    }
  }

  // --- on the wire -----------------------------------------------------------------------

  /** The frame a report is narrowed to at the send boundary. */
  function Narrowed(r: DragReport): Report
    requires ValidPointer(r)
  {
    Pointer(r.x, r.y, r.buttons)
  }

  /** Nothing is lost in narrowing: the device shows exactly the validated report. */
  lemma DragReachesDevice(reports: seq<DragReport>, i: nat, d: Device)
    requires ValidDrag(reports) && i < |reports|
    ensures Encode(Narrowed(reports[i])).Success?
    ensures var after := Receive(d, Encode(Narrowed(reports[i])).value);
            && after.x == reports[i].x && after.y == reports[i].y && after.absButtons == reports[i].buttons
            && after.keyboard == d.keyboard && after.relButtons == d.relButtons
  {
    EncodeReachesDevice(Narrowed(reports[i]), d);
  }

  lemma {:induction false} BytesOfDrag(log: seq<Entry>, from: nat)
    requires from <= |log| && forall i | from <= i < |log| :: log[i].report.Pointer?
    ensures Bytes(log, from) == 10 * (|log| - from)
    decreases |log| - from
  {
    if from < |log| { BytesOfDrag(log, from + 1); }
  }

  /** From s to s', the holder of s's lease has offered exactly the first i reports. */
  predicate DragOffered(s: Sys, s': Sys, reports: seq<DragReport>, i: nat)
    requires i < |reports| && forall k | 0 <= k < |reports| :: ValidPointer(reports[k])
  {
    && |s'.wire.log| == |s.wire.log| + i
    && forall k | 0 <= k < i ::
         s'.wire.log[|s.wire.log| + k].token == s.core.activeGen ==>
           s'.wire.log[|s.wire.log| + k].report == Narrowed(reports[k])
  }

  lemma ReachableIndices(run: seq<Action>, s: Sys, more: seq<Action>, s': Sys)
    requires Reaches(run, s) && Exec(s, more) == Some(s')
    ensures IndicesOk(s'.wire)
  {
    hide Do;
    ReachableInv(run, s);
    RunKeepsInv(s, more, s');
  }

  lemma SmallReadPasses(s: Sys)
    requires IndicesOk(s.wire) && s.writer.Buffer? && s.writer.req.report.Pointer?
    requires BufferedAmount(s.wire) <= 10 * (MAX_DRAG_STEPS + 3)
    ensures Do(s, Validate(ReadAmount)) == Some(s.(writer := Final(s.writer.req)))
  {
  }

  /** In every run: from an empty buffer and nothing past its last validation, with the lease
      live throughout and its holder offering only the drag, every frame of any legal drag
      passes the buffer check, however little the peer has acknowledged. Nobody else can
      have used the buffer meanwhile: a live lease is alone. */
  lemma DragFits(run: seq<Action>, s: Sys, more: seq<Action>, s': Sys, reports: seq<DragReport>, i: nat, ctx: nat)
    requires Reaches(run, s) && s.core.activeGen != 0 && !s.writer.Sending?
    requires IndicesOk(s.wire) && BufferedAmount(s.wire) == 0
    requires Exec(s, more) == Some(s') && s'.core.activeGen == s.core.activeGen
    requires ValidDrag(reports) && i < |reports| && DragOffered(s, s', reports, i)
    requires s'.writer.Buffer?
    requires s'.writer.req == SendPointerReport(ctx, s.core.activeGen, reports[i].x, reports[i].y, reports[i].buttons)
    ensures Do(s', Validate(ReadAmount)).Some?
    ensures Do(s', Validate(ReadAmount)).value.writer == Final(s'.writer.req)
  {
    hide Do, Exec;
    var n := |s.wire.log|;
    EmptyBuffer(s.wire);
    RunGrows(s, more, s');
    ReachableIndices(run, s, more, s');
    forall k | n <= k < |s'.wire.log| ensures s'.wire.log[k].report.Pointer? {
      LiveLeaseIsAlone(run, s, more, s', k);
      assert s'.wire.log[n + (k - n)].report == Narrowed(reports[k - n]);
    }
    BytesOfDrag(s'.wire.log, n);
    BytesMonotone(s'.wire.log, n, s'.wire.acked);
    SmallReadPasses(s');
  }
}
