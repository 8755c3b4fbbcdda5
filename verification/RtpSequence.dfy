/** RTP sequence numbers: 16-bit wraparound, a 64-bit duplicate bitmap, and loss as
    expected minus unique (h264.go, rtpSequenceTracker). */
module RtpSequence {
  import opened Words

  const SEQ_WINDOW := 64
  const U16 := 0x1_0000
  const U32 := 0x1_0000_0000
  const U48 := 0x1_0000_0000_0000
  const U64 := 0x1_0000_0000_0000_0000

  type uint16 = n: int | 0 <= n < 0x1_0000

  datatype Tracker = Tracker(
    started: bool, first: uint16, highest: uint16, cycles: nat,
    received: nat, duplicates: nat, reordered: nat, maxJump: nat, recent: nat)

  const FRESH := Tracker(false, 0, 0, 0, 0, 0, 0, 0, 0)

  /** int16(num - highest), the subtraction being modulo 2^16. */
  function Delta(num: uint16, highest: uint16): (d: int)
    ensures -0x8000 <= d < 0x8000
  {
    var u := (num - highest) % U16;
    if u < 0x8000 then u else u - U16
  }

  function Observe(t: Tracker, num: uint16): Tracker {
    var r := t.(received := (t.received + 1) % U64);
    if !t.started then r.(started := true, first := num, highest := num, recent := 1)
    else
      var delta := Delta(num, t.highest);
      if delta > 0 then
        r.(recent := if delta >= SEQ_WINDOW then 1 else SetBit(Shl(t.recent, delta, SEQ_WINDOW), 0),
           maxJump := if delta > t.maxJump then delta else t.maxJump,
           cycles := if num < t.highest then (t.cycles + 1) % U32 else t.cycles,
           highest := num)
      else if delta == 0 then r.(duplicates := (t.duplicates + 1) % U64)
      else
        var back := -delta;
        if back < SEQ_WINDOW && Bit(t.recent, back) then r.(duplicates := (t.duplicates + 1) % U64)
        else if back < SEQ_WINDOW then
          r.(recent := SetBit(t.recent, back), reordered := (t.reordered + 1) % U64)
        else r.(reordered := (t.reordered + 1) % U64)
  }

  function Lost(t: Tracker): nat {
    if !t.started then 0
    else
      var extended := t.cycles * U16 + t.highest;
      if extended < t.first then 0
      else
        var expected := extended - t.first + 1;
        var unique := (t.received - t.duplicates) % U64;
        if expected <= unique then 0 else expected - unique
  }

  /** The tracker, updated packet by packet. */
  class SequenceTracker {
    var started: bool
    var first: uint16
    var highest: uint16
    var cycles: nat
    var received: nat
    var duplicates: nat
    var reordered: nat
    var maxJump: nat
    var recent: nat

    function View(): Tracker
      reads this
    {
      Tracker(started, first, highest, cycles, received, duplicates, reordered, maxJump, recent)
    }

    constructor ()
      ensures View() == FRESH
    {
      started, first, highest, cycles, received := false, 0, 0, 0, 0;
      duplicates, reordered, maxJump, recent := 0, 0, 0, 0;
    }

    method ObservePacket(num: uint16)
      modifies this
      ensures View() == Observe(old(View()), num)
      ensures started && first == if old(started) then old(first) else num
      ensures duplicates == old(duplicates) || duplicates == (old(duplicates) + 1) % U64
    {
      received := (received + 1) % U64;
      if !started {
        started, first, highest, recent := true, num, num, 1;
        return;
      }
      var delta := Delta(num, highest);
      if delta > 0 {
        if delta >= SEQ_WINDOW {
          recent := 1;
        } else {
          recent := SetBit(Shl(recent, delta, SEQ_WINDOW), 0);
        }
        if delta > maxJump { maxJump := delta; }
        if num < highest { cycles := (cycles + 1) % U32; }
        highest := num;
      } else if delta == 0 {
        duplicates := (duplicates + 1) % U64;
      } else {
        var back := -delta;
        if back < SEQ_WINDOW {
          if Bit(recent, back) {
            duplicates := (duplicates + 1) % U64;
            return;
          }
          recent := SetBit(recent, back);
        }
        reordered := (reordered + 1) % U64;
      }
    }

    method LostCount() returns (lost: nat)
      ensures lost == Lost(View())
      ensures !started ==> lost == 0
      ensures lost > 0 ==> first <= cycles * U16 + highest && lost <= cycles * U16 + highest - first + 1
    {
      lost := 0;
      if started {
        var extended := cycles * U16 + highest;
        if extended >= first {
          var expected := extended - first + 1;
          var unique := (received - duplicates) % U64;
          if expected > unique { lost := expected - unique; }
        }
      }
    }
  }

  // --- the unbounded model ------------------------------------------------------

  /** Arrivals as unbounded sequence numbers; the wire carries them modulo 2^16. */
  function Track(arrivals: seq<int>): Tracker {
    if |arrivals| == 0 then FRESH
    else Observe(Track(arrivals[..|arrivals| - 1]), arrivals[|arrivals| - 1] % U16)
  }

  function Max(arrivals: seq<int>): int
    requires |arrivals| > 0
  {
    var last := arrivals[|arrivals| - 1];
    if |arrivals| == 1 then last
    else
      var m := Max(arrivals[..|arrivals| - 1]);
      if last > m then last else m
  }

  /** Each arrival lies within half the 16-bit space of the running maximum, and the
      first is numbered in the first cycle. */
  predicate WithinHalf(arrivals: seq<int>) {
    |arrivals| > 0 ==>
      var rest := arrivals[..|arrivals| - 1];
      var last := arrivals[|arrivals| - 1];
      if |rest| == 0 then 0 <= last < U16
      else WithinHalf(rest) && Max(rest) - 0x8000 <= last <= Max(rest) + 0x7FFF
  }

  /** No arrival is more than 63 behind the running maximum, or before the first. */
  predicate WithinWindow(arrivals: seq<int>) {
    |arrivals| > 1 ==>
      var rest := arrivals[..|arrivals| - 1];
      var last := arrivals[|arrivals| - 1];
      WithinWindow(rest) && Max(rest) - 63 <= last && arrivals[0] <= last
  }

  /** Repeats that arrive no more than 63 behind the maximum: those a 64-bit bitmap can see. */
  function SeenAgain(arrivals: seq<int>): nat {
    if |arrivals| == 0 then 0
    else
      var rest := arrivals[..|arrivals| - 1];
      var last := arrivals[|arrivals| - 1];
      SeenAgain(rest) + (if last in rest && Max(rest) - last < SEQ_WINDOW then 1 else 0)
  }

  predicate MirrorsPosition(t: Tracker, first: int, m: int) {
    t.started && 0 <= m && t.first == first % U16 && t.highest == m % U16 && t.cycles == (m / U16) % U32
  }

  predicate MirrorsCounts(t: Tracker, received: nat, again: nat) {
    t.received == received % U64 && t.duplicates == again % U64
  }

  /** Bit i of the bitmap says whether the number i below the maximum has arrived. */
  predicate MirrorsWindow(recent: nat, arrivals: seq<int>, m: int) {
    && recent < Pow2(SEQ_WINDOW)
    && forall i | 0 <= i < SEQ_WINDOW :: Bit(recent, i) <==> m - i in arrivals
  }

  predicate Mirrors(t: Tracker, arrivals: seq<int>)
    requires |arrivals| > 0
  {
    && MirrorsPosition(t, arrivals[0], Max(arrivals))
    && MirrorsCounts(t, |arrivals|, SeenAgain(arrivals))
    && MirrorsWindow(t.recent, arrivals, Max(arrivals))
  }

  /** Congruence: within half the space, the 16-bit difference is the true one. */
  lemma DeltaIsTrue(e: int, m: int)
    requires m - 0x8000 <= e <= m + 0x7FFF
    ensures Delta(e % U16, m % U16) == e - m
  {
    var a, b := e / U16, m / U16;
    assert e == U16 * a + e % U16 && m == U16 * b + m % U16;
    var d := e % U16 - m % U16;
    assert d == (e - m) - U16 * (a - b);
  }

  lemma DeltaLands(num: uint16, m: int)
    ensures (m + Delta(num, m % U16)) % U16 == num
  {
    var h := m % U16;
    var u := (num - h) % U16;
    assert (num - h) == U16 * ((num - h) / U16) + u;
    assert m == U16 * (m / U16) + h;
  }

  lemma MaxBounds(arrivals: seq<int>, e: int)
    requires |arrivals| > 0 && e in arrivals
    ensures e <= Max(arrivals)
  {
    if |arrivals| > 1 && e != arrivals[|arrivals| - 1] { MaxBounds(arrivals[..|arrivals| - 1], e); }
  }

  lemma MaxIsIn(arrivals: seq<int>)
    requires |arrivals| > 0
    ensures Max(arrivals) in arrivals
  {
    if |arrivals| > 1 { MaxIsIn(arrivals[..|arrivals| - 1]); }
  }

  // --- the tracker mirrors the unbounded model ------------------------------------

  lemma Snoc(rest: seq<int>, last: int)
    ensures (rest + [last])[..|rest|] == rest && (rest + [last])[|rest|] == last
    ensures forall x :: x in rest + [last] <==> x in rest || x == last
    ensures |rest| > 0 ==> Max(rest + [last]) == if last > Max(rest) then last else Max(rest)
    ensures |rest| > 0 ==> (rest + [last])[0] == rest[0]
    ensures SeenAgain(rest + [last])
         == SeenAgain(rest) + (if last in rest && Max(rest) - last < SEQ_WINDOW then 1 else 0)
  {
    var all := rest + [last];
    assert all[..|all| - 1] == rest;
  }

  lemma OneBit(i: nat)
    ensures Bit(1, i) <==> i == 0
    ensures 1 < Pow2(SEQ_WINDOW)
  {
    if i > 0 { ZeroHasNoBit(i - 1); }
    assert Pow2(SEQ_WINDOW) == 2 * Pow2(SEQ_WINDOW - 1);
  }

  lemma ForwardRecent(recent: nat, rest: seq<int>, last: int, i: nat)
    requires |rest| > 0 && last > Max(rest) && i < SEQ_WINDOW
    requires recent < Pow2(SEQ_WINDOW)
    requires forall j | 0 <= j < SEQ_WINDOW :: Bit(recent, j) <==> Max(rest) - j in rest
    ensures var delta := last - Max(rest);
            var next := if delta >= SEQ_WINDOW then 1 else SetBit(Shl(recent, delta, SEQ_WINDOW), 0);
            next < Pow2(SEQ_WINDOW) && (Bit(next, i) <==> last - i in rest + [last])
  {
    hide Bit, Pow2, Shl, SetBit;
    var m, delta := Max(rest), last - Max(rest);
    Snoc(rest, last);
    if last - i in rest { MaxBounds(rest, last - i); }
    if delta >= SEQ_WINDOW {
      OneBit(i);
    } else {
      ShlBits(recent, delta, SEQ_WINDOW, i);
      SetBitBits(Shl(recent, delta, SEQ_WINDOW), 0, i);
      SetBitFits(Shl(recent, delta, SEQ_WINDOW), 0, SEQ_WINDOW);
      if i >= delta { assert last - i == m - (i - delta); }
    }
  }

  lemma Wraps(m: nat, last: int)
    requires m < last <= m + 0x7FFF
    ensures (last / U16) % U32 == if last % U16 < m % U16 then ((m / U16) % U32 + 1) % U32 else (m / U16) % U32
  {
    assert last / U16 == m / U16 + (if last % U16 < m % U16 then 1 else 0);
  }

  lemma Increment(n: nat)
    ensures (n % U64 + 1) % U64 == (n + 1) % U64
  {
  }

  lemma StepPosition(t: Tracker, first: int, m: int, last: int)
    requires MirrorsPosition(t, first, m) && m - 0x8000 <= last <= m + 0x7FFF
    ensures MirrorsPosition(Observe(t, last % U16), first, if last > m then last else m)
  {
    DeltaIsTrue(last, m);
    if last > m { Wraps(m, last); }
  }

  lemma BackWindow(recent: nat, rest: seq<int>, m: int, last: int)
    requires MirrorsWindow(recent, rest, m) && 0 <= m - last < SEQ_WINDOW
    ensures MirrorsWindow(SetBit(recent, m - last), rest + [last], m)
    ensures Bit(recent, m - last) <==> last in rest
  {
    var back := m - last;
    assert Bit(recent, back) <==> m - back in rest;
    SetBitFits(recent, back, SEQ_WINDOW);
    forall i | 0 <= i < SEQ_WINDOW ensures Bit(SetBit(recent, back), i) <==> m - i in rest + [last] {
      SetBitBits(recent, back, i);
    }
  }

  lemma ForwardWindow(recent: nat, rest: seq<int>, last: int)
    requires |rest| > 0 && last > Max(rest) && MirrorsWindow(recent, rest, Max(rest))
    ensures var delta := last - Max(rest);
            var next := if delta >= SEQ_WINDOW then 1 else SetBit(Shl(recent, delta, SEQ_WINDOW), 0);
            MirrorsWindow(next, rest + [last], last)
  {
    var delta := last - Max(rest);
    var next := if delta >= SEQ_WINDOW then 1 else SetBit(Shl(recent, delta, SEQ_WINDOW), 0);
    ForwardRecent(recent, rest, last, 0);
    forall i | 0 <= i < SEQ_WINDOW ensures Bit(next, i) <==> last - i in rest + [last] {
      ForwardRecent(recent, rest, last, i);
    }
  }

  lemma SameWindow(recent: nat, rest: seq<int>, m: int, last: int)
    requires MirrorsWindow(recent, rest, m) && (m - last >= SEQ_WINDOW || last in rest)
    ensures MirrorsWindow(recent, rest + [last], m)
  {
  }

  /** What one packet does to the bitmap, by how far it is ahead. */
  lemma ObserveRecent(t: Tracker, num: uint16, delta: int)
    requires t.started && Delta(num, t.highest) == delta
    ensures delta >= SEQ_WINDOW ==> Observe(t, num).recent == 1
    ensures 0 < delta < SEQ_WINDOW ==> Observe(t, num).recent == SetBit(Shl(t.recent, delta, SEQ_WINDOW), 0)
    ensures delta == 0 || delta <= -SEQ_WINDOW ==> Observe(t, num).recent == t.recent
    ensures -SEQ_WINDOW < delta < 0 ==>
              Observe(t, num).recent == if Bit(t.recent, -delta) then t.recent else SetBit(t.recent, -delta)
  {
    hide Bit, SetBit, Shl, Delta;
  }

  lemma StepWindow(t: Tracker, rest: seq<int>, last: int)
    requires |rest| > 0 && t.started && Delta(last % U16, t.highest) == last - Max(rest)
    requires MirrorsWindow(t.recent, rest, Max(rest))
    ensures MirrorsWindow(Observe(t, last % U16).recent, rest + [last], if last > Max(rest) then last else Max(rest))
    ensures last <= Max(rest) && Max(rest) - last < SEQ_WINDOW ==> (Bit(t.recent, Max(rest) - last) <==> last in rest)
  {
    hide Observe, Bit, SetBit, Shl, Pow2, Max, Delta;
    ObserveRecent(t, last % U16, last - Max(rest));
    var m := Max(rest);
    MaxIsIn(rest);
    if last > m {
      ForwardWindow(t.recent, rest, last);
    } else if m - last < SEQ_WINDOW {
      BackWindow(t.recent, rest, m, last);
      if last in rest { SameWindow(t.recent, rest, m, last); }
    } else {
      SameWindow(t.recent, rest, m, last);
    }
  }

  /** Each packet is counted once, and again as a duplicate when the bitmap has it. */
  lemma ObserveCounts(t: Tracker, num: uint16)
    requires t.started
    ensures Observe(t, num).received == (t.received + 1) % U64
    ensures var back := -Delta(num, t.highest);
            var again := back == 0 || (0 < back < SEQ_WINDOW && Bit(t.recent, back));
            Observe(t, num).duplicates == if again then (t.duplicates + 1) % U64 else t.duplicates
  {
    hide Bit, SetBit, Shl, Delta;
  }

  lemma StepCounts(t: Tracker, rest: seq<int>, last: int)
    requires |rest| > 0 && t.started && Delta(last % U16, t.highest) == last - Max(rest)
    requires MirrorsCounts(t, |rest|, SeenAgain(rest))
    requires last <= Max(rest) && Max(rest) - last < SEQ_WINDOW ==> (Bit(t.recent, Max(rest) - last) <==> last in rest)
    ensures MirrorsCounts(Observe(t, last % U16), |rest| + 1, SeenAgain(rest + [last]))
  {
    hide Observe, Max, SeenAgain, Bit, Delta;
    ObserveCounts(t, last % U16);
    Snoc(rest, last);
    MaxIsIn(rest);
    Increment(|rest|);
    Increment(SeenAgain(rest));
    assert last in rest ==> last <= Max(rest) by { if last in rest { MaxBounds(rest, last); } }
  }

  lemma StepMirrors(t: Tracker, rest: seq<int>, last: int)
    requires |rest| > 0 && Mirrors(t, rest)
    requires Max(rest) - 0x8000 <= last <= Max(rest) + 0x7FFF
    ensures Mirrors(Observe(t, last % U16), rest + [last])
  {
    DeltaIsTrue(last, Max(rest));
    Snoc(rest, last);
    StepPosition(t, rest[0], Max(rest), last);
    StepWindow(t, rest, last);
    StepCounts(t, rest, last);
  }

  lemma FirstMirrors(first: int)
    requires 0 <= first < U16
    ensures Mirrors(Track([first]), [first])
  {
    hide Bit, Pow2;
    forall i | 0 <= i < SEQ_WINDOW ensures Bit(1, i) <==> first - i in [first] { OneBit(i); }
    OneBit(0);
    assert [first][..0] == [] && Track([]) == FRESH;
    assert Track([first]) == Observe(FRESH, first % U16);
    assert SeenAgain([first]) == SeenAgain([]) == 0;
  }

  /** Whatever the number of wraps, cycles, highest and the bitmap are those of the
      unbounded run, and `duplicates` counts the repeats the bitmap can see. */
  lemma {:induction false} TrackMirrors(arrivals: seq<int>)
    requires |arrivals| > 0 && WithinHalf(arrivals)
    ensures Mirrors(Track(arrivals), arrivals)
  {
    hide Mirrors, Observe, Max;
    var rest, last := arrivals[..|arrivals| - 1], arrivals[|arrivals| - 1];
    assert arrivals == rest + [last];
    if |rest| == 0 {
      FirstMirrors(last);
    } else {
      TrackMirrors(rest);
      StepMirrors(Track(rest), rest, last);
      assert Track(arrivals) == Observe(Track(rest), last % U16);
    }
  }

  // --- loss -------------------------------------------------------------------------

  function Distinct(arrivals: seq<int>): set<int> { set e | e in arrivals }

  /** The numbers from the first to the highest that never arrived. */
  function Missing(arrivals: seq<int>): set<int>
    requires |arrivals| > 0
  {
    set n | arrivals[0] <= n <= Max(arrivals) && n !in arrivals
  }

  function Range(a: int, b: int): (r: set<int>)
    requires a <= b + 1
    ensures |r| == b - a + 1
    ensures forall n :: n in r <==> a <= n <= b
    decreases b - a + 1
  {
    if a > b then {} else Range(a, b - 1) + {b}
  }

  /** Arrivals minus the repeats the bitmap saw: at least the distinct numbers, and
      exactly those when nothing is further back than the bitmap reaches. */
  lemma {:induction false} UniqueCount(arrivals: seq<int>)
    ensures |arrivals| - SeenAgain(arrivals) >= |Distinct(arrivals)|
    ensures WithinWindow(arrivals) ==> |arrivals| - SeenAgain(arrivals) == |Distinct(arrivals)|
  {
    if |arrivals| == 0 {
      assert Distinct(arrivals) == {};
    } else {
      var rest, last := arrivals[..|arrivals| - 1], arrivals[|arrivals| - 1];
      UniqueCount(rest);
      assert arrivals == rest + [last];
      assert Distinct(arrivals) == Distinct(rest) + {last};
      if last in rest { assert Distinct(arrivals) == Distinct(rest); }
    }
  }

  lemma {:induction false} WindowStaysAbove(arrivals: seq<int>, e: int)
    requires |arrivals| > 0 && WithinWindow(arrivals) && e in arrivals
    ensures arrivals[0] <= e
  {
    if |arrivals| > 1 && e != arrivals[|arrivals| - 1] { WindowStaysAbove(arrivals[..|arrivals| - 1], e); }
  }

  lemma SubsetSize(a: set<int>, b: set<int>)
    requires a <= b
    ensures |a| <= |b|
  {
    assert b == a + (b - a);
  }

  /** Missing, distinct and expected numbers add up. */
  lemma MissingCount(arrivals: seq<int>)
    requires |arrivals| > 0
    ensures |Missing(arrivals)| + |Distinct(arrivals)| >= Max(arrivals) - arrivals[0] + 1
    ensures WithinWindow(arrivals) ==> |Missing(arrivals)| + |Distinct(arrivals)| == Max(arrivals) - arrivals[0] + 1
  {
    hide Max, WithinWindow;
    var first, m := arrivals[0], Max(arrivals);
    MaxBounds(arrivals, first);
    var seen := set n | first <= n <= m && n in arrivals;
    assert Range(first, m) == Missing(arrivals) + seen && Missing(arrivals) !! seen;
    SubsetSize(seen, Distinct(arrivals));
    if WithinWindow(arrivals) {
      forall e | e in arrivals ensures e in seen {
        WindowStaysAbove(arrivals, e);
        MaxBounds(arrivals, e);
      }
      assert seen == Distinct(arrivals);
    }
  }

  lemma FirstIsFirst(arrivals: seq<int>)
    requires |arrivals| > 0 && WithinHalf(arrivals)
    ensures 0 <= arrivals[0] < U16
  {
    if |arrivals| > 1 { FirstIsFirst(arrivals[..|arrivals| - 1]); }
  }

  lemma CountersMirror(arrivals: seq<int>)
    requires |arrivals| > 0 && WithinHalf(arrivals)
    ensures MirrorsPosition(Track(arrivals), arrivals[0], Max(arrivals))
    ensures MirrorsCounts(Track(arrivals), |arrivals|, SeenAgain(arrivals))
  {
    TrackMirrors(arrivals);
  }

  lemma Extended(m: nat)
    ensures (m / U16) % U32 * U16 + m % U16 == m % U48
  {
    var q := m / U16;
    assert q == U32 * (q / U32) + q % U32;
    assert m == U48 * (q / U32) + ((q % U32) * U16 + m % U16);
  }

  lemma SmallDifference(a: nat, b: nat)
    requires b <= a < U64
    ensures (a % U64 - b % U64) % U64 == a - b
  {
  }

  lemma LostOf(t: Tracker, first: nat, m: nat, received: nat, again: nat)
    requires MirrorsPosition(t, first, m) && MirrorsCounts(t, received, again)
    requires first < U16 && again <= received < U64
    ensures var expected := m % U48 - first + 1;
            Lost(t) == if expected <= received - again then 0 else expected - (received - again)
  {
    Extended(m);
    assert (t.received - t.duplicates) % U64 == received - again by { SmallDifference(received, again); }
  }

  /** lost(), in terms of the unbounded run: the expected count is cut to 48 bits. */
  lemma LostFormula(arrivals: seq<int>)
    requires |arrivals| > 0 && WithinHalf(arrivals) && |arrivals| < U64
    ensures 0 <= Max(arrivals) && 0 <= arrivals[0] < U16
    ensures SeenAgain(arrivals) <= |arrivals|
    ensures var expected := Max(arrivals) % U48 - arrivals[0] + 1;
            var unique := |arrivals| - SeenAgain(arrivals);
            Lost(Track(arrivals)) == if expected <= unique then 0 else expected - unique
  {
    CountersMirror(arrivals);
    FirstIsFirst(arrivals);
    UniqueCount(arrivals);
    MaxBounds(arrivals, arrivals[0]);
    LostOf(Track(arrivals), arrivals[0], Max(arrivals), |arrivals|, SeenAgain(arrivals));
  }

  lemma CutDown(m: nat)
    ensures m % U48 <= m
    ensures m < U48 ==> m % U48 == m
    ensures m >= U48 ==> m % U48 <= m - U48
  {
  }

  /** Loss is never overstated, however late packets come. */
  lemma LostNeverOverstated(arrivals: seq<int>)
    requires |arrivals| > 0 && WithinHalf(arrivals) && |arrivals| < U64
    ensures Lost(Track(arrivals)) <= |Missing(arrivals)|
  {
    LostFormula(arrivals);
    UniqueCount(arrivals);
    MissingCount(arrivals);
    CutDown(Max(arrivals));
  }

  /** When no arrival is more than 63 behind or before the first, loss is exactly the
      number missing, across wraps, as long as the 32-bit cycle counter has not itself
      wrapped; after that it is exact only if nothing is missing. */
  lemma LostIsExact(arrivals: seq<int>)
    requires |arrivals| > 0 && WithinHalf(arrivals) && WithinWindow(arrivals) && |arrivals| < U64
    ensures Lost(Track(arrivals)) == |Missing(arrivals)| <==> (Max(arrivals) < U48 || Missing(arrivals) == {})
  {
    LostFormula(arrivals);
    UniqueCount(arrivals);
    MissingCount(arrivals);
    CutDown(Max(arrivals));
    if |Missing(arrivals)| == 0 { assert Missing(arrivals) == {}; }
  }

  /** Arrivals as far apart as the tracker can follow, each the last plus 0x7FFF. */
  function Ramp(n: nat): seq<int> { seq(n, i => i * 0x7FFF) }

  lemma {:induction false} RampIsTracked(n: nat)
    requires n > 0
    ensures WithinHalf(Ramp(n)) && WithinWindow(Ramp(n)) && Max(Ramp(n)) == (n - 1) * 0x7FFF
  {
    var rest := Ramp(n)[..n - 1];
    assert rest == Ramp(n - 1);
    if n > 1 { RampIsTracked(n - 1); }
  }

  /** The condition is needed: these 2^33 packets and a few more are all within the
      window, and yet the loss reported is less than the number missing. */
  lemma LossIsCutOff(n: nat)
    requires (n - 1) * 0x7FFF >= U48 && n < U64
    ensures WithinHalf(Ramp(n)) && WithinWindow(Ramp(n))
    ensures Lost(Track(Ramp(n))) < |Missing(Ramp(n))|
  {
    var a := Ramp(n);
    RampIsTracked(n);
    assert 1 in Missing(a);
    LostIsExact(a);
    LostNeverOverstated(a);
  }

  /** Such runs exist: 8590196746 packets suffice. */
  lemma LossCanBeCutOff()
    ensures var a := Ramp(8590196746); WithinHalf(a) && WithinWindow(a) && |a| < U64 && Lost(Track(a)) < |Missing(a)|
  {
    hide Track, Lost, Missing, WithinHalf, WithinWindow, Max;
    LossIsCutOff(8590196746);
  }

  // --- order ------------------------------------------------------------------------

  /** The kth arrival is a new maximum. */
  predicate Ahead(arrivals: seq<int>, k: nat)
    requires k < |arrivals|
  {
    k == 0 || arrivals[k] > Max(arrivals[..k])
  }

  /** It repeats a number no more than 63 behind the maximum of those before it. */
  predicate Repeats(arrivals: seq<int>, k: nat)
    requires k < |arrivals|
  {
    k > 0 && arrivals[k] in arrivals[..k] && Max(arrivals[..k]) - arrivals[k] < SEQ_WINDOW
  }

  /** The positions of the arrivals that came after a larger number and were not seen before. */
  function LateAt(arrivals: seq<int>): set<nat> {
    set k: nat | k < |arrivals| && !Ahead(arrivals, k) && !Repeats(arrivals, k)
  }

  function AheadAt(arrivals: seq<int>): set<nat> {
    set k: nat | k < |arrivals| && Ahead(arrivals, k)
  }

  /** The most any arrival, the first excepted, advanced the maximum. */
  function LargestStep(arrivals: seq<int>): nat {
    if |arrivals| <= 1 then 0
    else
      var rest := arrivals[..|arrivals| - 1];
      var step := arrivals[|arrivals| - 1] - Max(rest);
      if step > LargestStep(rest) then step else LargestStep(rest)
  }

  lemma SamePrefixes(rest: seq<int>, last: int, k: nat)
    requires k < |rest|
    ensures Ahead(rest + [last], k) == Ahead(rest, k) && Repeats(rest + [last], k) == Repeats(rest, k)
  {
    assert (rest + [last])[..k] == rest[..k];
  }

  lemma LastPosition(rest: seq<int>, last: int)
    ensures var all, n := rest + [last], |rest|;
            && Ahead(all, n) == (n == 0 || last > Max(rest))
            && Repeats(all, n) == (n > 0 && last in rest && Max(rest) - last < SEQ_WINDOW)
  {
    hide Max;
    assert (rest + [last])[..|rest|] == rest;
  }

  lemma AheadSnoc(rest: seq<int>, last: int)
    ensures AheadAt(rest + [last]) == AheadAt(rest) + (if Ahead(rest + [last], |rest|) then {|rest|} else {})
  {
    hide Ahead, Repeats;
    forall k: nat | k < |rest| ensures Ahead(rest + [last], k) == Ahead(rest, k) { SamePrefixes(rest, last, k); }
  }

  lemma LateSnoc(rest: seq<int>, last: int)
    ensures var all, n := rest + [last], |rest|;
            LateAt(all) == LateAt(rest) + (if Ahead(all, n) || Repeats(all, n) then {} else {n})
  {
    hide Ahead, Repeats;
    var all := rest + [last];
    forall k: nat | k < |rest| ensures k in LateAt(all) <==> k in LateAt(rest) { SamePrefixes(rest, last, k); }
  }

  lemma OrderSnoc(rest: seq<int>, last: int)
    ensures var n := |rest|;
            var ahead, again := n == 0 || last > Max(rest), n > 0 && last in rest && Max(rest) - last < SEQ_WINDOW;
            && AheadAt(rest + [last]) == AheadAt(rest) + (if ahead then {n} else {})
            && LateAt(rest + [last]) == LateAt(rest) + (if ahead || again then {} else {n})
  {
    hide Max, Ahead, Repeats, AheadAt, LateAt;
    LastPosition(rest, last);
    AheadSnoc(rest, last);
    LateSnoc(rest, last);
  }

  lemma PositionsOnly(arrivals: seq<int>)
    ensures |arrivals| !in LateAt(arrivals) && |arrivals| !in AheadAt(arrivals)
  {
  }

  lemma ObserveOrder(t: Tracker, num: uint16)
    requires t.started
    ensures var back := -Delta(num, t.highest);
            var again := back == 0 || (0 < back < SEQ_WINDOW && Bit(t.recent, back));
            Observe(t, num).reordered == if back <= 0 || again then t.reordered else (t.reordered + 1) % U64
    ensures var step := Delta(num, t.highest);
            Observe(t, num).maxJump == if step > 0 && step > t.maxJump then step else t.maxJump
  {
    hide Bit, SetBit, Shl, Delta;
  }

  lemma StepOrder(t: Tracker, rest: seq<int>, last: int)
    requires |rest| > 0 && Mirrors(t, rest) && Max(rest) - 0x8000 <= last <= Max(rest) + 0x7FFF
    requires t.reordered == |LateAt(rest)| % U64 && t.maxJump == LargestStep(rest)
    ensures Observe(t, last % U16).reordered == |LateAt(rest + [last])| % U64
    ensures Observe(t, last % U16).maxJump == LargestStep(rest + [last])
  {
    hide Observe, Max, LateAt, Bit, Delta, Ahead, Repeats, SeenAgain;
    DeltaIsTrue(last, Max(rest));
    StepWindow(t, rest, last);
    ObserveOrder(t, last % U16);
    Snoc(rest, last);
    OrderSnoc(rest, last);
    MaxIsIn(rest);
    Increment(|LateAt(rest)|);
    PositionsOnly(rest);
  }

  lemma FirstOrder(first: int)
    requires 0 <= first < U16
    ensures Track([first]).reordered == 0 && Track([first]).maxJump == 0
    ensures LateAt([first]) == {} && LargestStep([first]) == 0
  {
    assert [first][..0] == [] && Track([]) == FRESH;
    assert Track([first]) == Observe(FRESH, first % U16);
  }

  lemma {:induction false} OrderMirrors(arrivals: seq<int>)
    requires |arrivals| > 0 && WithinHalf(arrivals)
    ensures Track(arrivals).reordered == |LateAt(arrivals)| % U64
    ensures Track(arrivals).maxJump == LargestStep(arrivals)
  {
    hide Mirrors, Observe, Max;
    var rest, last := arrivals[..|arrivals| - 1], arrivals[|arrivals| - 1];
    assert arrivals == rest + [last];
    if |rest| == 0 {
      assert rest + [last] == [last];
      FirstOrder(last);
    } else {
      OrderMirrors(rest);
      TrackMirrors(rest);
      StepOrder(Track(rest), rest, last);
      assert Track(arrivals) == Observe(Track(rest), last % U16);
    }
  }

  lemma NoRepeats()
    ensures SeenAgain([]) == 0
  {
  }

  lemma {:induction false} EveryArrivalCounts(arrivals: seq<int>)
    ensures |arrivals| == |AheadAt(arrivals)| + |LateAt(arrivals)| + SeenAgain(arrivals)
  {
    hide Max, SeenAgain;
    if |arrivals| == 0 {
      assert LateAt(arrivals) == {} && AheadAt(arrivals) == {};
      NoRepeats();
    } else {
      var rest, last := arrivals[..|arrivals| - 1], arrivals[|arrivals| - 1];
      assert arrivals == rest + [last];
      EveryArrivalCounts(rest);
      OrderSnoc(rest, last);
      Snoc(rest, last);
      PositionsOnly(rest);
      if last in rest { MaxBounds(rest, last); }
    }
  }

  /** `reordered` counts exactly the arrivals that came after a larger number and were not
      recognized as repeats; and every arrival is either ahead, such a late one, or a repeat. */
  lemma ReorderedIsExact(arrivals: seq<int>)
    requires |arrivals| > 0 && WithinHalf(arrivals)
    ensures Track(arrivals).reordered == |LateAt(arrivals)| % U64
    ensures |arrivals| == |AheadAt(arrivals)| + |LateAt(arrivals)| + SeenAgain(arrivals)
  {
    hide Track, Observe;
    OrderMirrors(arrivals);
    EveryArrivalCounts(arrivals);
  }

  lemma {:induction false} LargestStepBounds(arrivals: seq<int>, k: nat)
    requires 0 < k < |arrivals|
    ensures arrivals[k] - Max(arrivals[..k]) <= LargestStep(arrivals)
  {
    hide Max;
    var rest := arrivals[..|arrivals| - 1];
    if k < |rest| {
      LargestStepBounds(rest, k);
      assert rest[..k] == arrivals[..k];
    }
  }

  lemma {:induction false} LargestStepIsTaken(arrivals: seq<int>) returns (k: nat)
    requires LargestStep(arrivals) > 0
    ensures 0 < k < |arrivals| && arrivals[k] - Max(arrivals[..k]) == LargestStep(arrivals)
  {
    hide Max;
    var rest := arrivals[..|arrivals| - 1];
    if LargestStep(arrivals) > LargestStep(rest) {
      k := |rest|;
    } else {
      k := LargestStepIsTaken(rest);
      assert rest[..k] == arrivals[..k];
    }
  }

  /** `maxJump` is the largest advance of the running maximum: no arrival advanced it
      further, and some arrival did advance it so far. */
  lemma MaxJumpIsExact(arrivals: seq<int>)
    requires |arrivals| > 0 && WithinHalf(arrivals)
    ensures forall k | 0 < k < |arrivals| :: arrivals[k] - Max(arrivals[..k]) <= Track(arrivals).maxJump
    ensures Track(arrivals).maxJump > 0 ==>
              exists k | 0 < k < |arrivals| :: arrivals[k] - Max(arrivals[..k]) == Track(arrivals).maxJump
  {
    hide Track, Observe, Max;
    OrderMirrors(arrivals);
    forall k | 0 < k < |arrivals| ensures arrivals[k] - Max(arrivals[..k]) <= LargestStep(arrivals) {
      LargestStepBounds(arrivals, k);
    }
    if LargestStep(arrivals) > 0 { var k := LargestStepIsTaken(arrivals); }
  }

  /** No stream of 16-bit numbers is left out: each is some arrivals within half the space. */
  lemma {:induction false} EveryStreamIsTracked(wire: seq<uint16>) returns (arrivals: seq<int>)
    ensures WithinHalf(arrivals) && |arrivals| == |wire|
    ensures forall i | 0 <= i < |wire| :: arrivals[i] % U16 == wire[i]
  {
    hide Max;
    if |wire| == 0 {
      arrivals := [];
    } else {
      var n := |wire| - 1;
      var rest := EveryStreamIsTracked(wire[..n]);
      var last := if n == 0 then wire[n] else Max(rest) + Delta(wire[n], Max(rest) % U16);
      arrivals := rest + [last];
      assert arrivals[..n] == rest;
      if n > 0 { DeltaLands(wire[n], Max(rest)); }
    }
  }
}
