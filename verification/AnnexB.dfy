/** Annex-B byte streams (video.go): the splitter and the builder, and that they undo
    each other. Byte stream format of Annex B.1 of ITU-T H.264. */
module AnnexB {
  import opened Words

  const START_CODE: seq<byte> := [0, 0, 0, 1]

  /** A three-byte start code at position i. */
  predicate CodeAt(data: seq<byte>, i: int) {
    0 <= i && i + 3 <= |data| && data[i] == 0 && data[i + 1] == 0 && data[i + 2] == 1
  }

  /** Contains no 00 00 01. */
  predicate CodeFree(data: seq<byte>) {
    forall i | 0 <= i < |data| :: !CodeAt(data, i)
  }

  predicate AllCodeFree(nalus: seq<seq<byte>>) {
    forall i | 0 <= i < |nalus| :: CodeFree(nalus[i])
  }

  /** The first start code at or after `from`, or -1. */
  predicate IsFirst(data: seq<byte>, from: nat, at: int) {
    && (at == -1 || (from <= at && CodeAt(data, at)))
    && forall i | from <= i < (if at == -1 then |data| else at) :: !CodeAt(data, i)
  }

  method IndexStartCode(data: seq<byte>, from: nat) returns (at: int)
    ensures IsFirst(data, from, at)
  {
    var i := from;
    while i + 3 <= |data|
      invariant from <= i
      invariant forall k | from <= k < i :: !CodeAt(data, k)
    {
      if data[i] == 0 && data[i + 1] == 0 && data[i + 2] == 1 {
        return i;
      }
      i := i + 1;
    }
    at := -1;
  }

  // --- specification ------------------------------------------------------------

  function Find(data: seq<byte>): (at: int)
    ensures IsFirst(data, 0, at)
  {
    if |data| < 3 then -1
    else if CodeAt(data, 0) then 0
    else
      var r := Find(data[1..]);
      assert forall i | 0 < i < |data| :: CodeAt(data, i) == CodeAt(data[1..], i - 1);
      if r == -1 then -1 else r + 1
  }

  function PieceEnd(tail: seq<byte>, next: nat): (end: nat)
    requires next < |tail|
    ensures end <= next
  {
    if next > 0 && tail[next - 1] == 0 then next - 1 else next
  }

  /** The NAL units of what follows a start code: up to the next start code, less the
      one zero byte that belongs to a four-byte code. */
  function Pieces(tail: seq<byte>): seq<seq<byte>>
    decreases |tail|
  {
    var next := Find(tail);
    if next == -1 then [tail]
    else [tail[..PieceEnd(tail, next)]] + Pieces(tail[next + 3..])
  }

  function Split(data: seq<byte>): seq<seq<byte>> {
    var first := Find(data);
    if first == -1 then [] else Pieces(data[first + 3..])
  }

  function Build(nalus: seq<seq<byte>>): seq<byte> {
    if |nalus| == 0 then [] else START_CODE + nalus[0] + Build(nalus[1..])
  }

  lemma FirstIsUnique(data: seq<byte>, a: int, b: int)
    requires IsFirst(data, 0, a) && IsFirst(data, 0, b)
    ensures a == b
  {
  }

  lemma FirstInSuffix(data: seq<byte>, from: nat, at: int)
    requires from <= |data| && IsFirst(data, from, at)
    ensures Find(data[from..]) == if at == -1 then -1 else at - from
  {
    var tail := data[from..];
    assert forall i | 0 <= i < |tail| :: CodeAt(tail, i) == CodeAt(data, from + i);
    FirstIsUnique(tail, Find(tail), if at == -1 then -1 else at - from);
  }

  // --- the loops ------------------------------------------------------------------

  /** Where the unit starting at `start` ends when the next start code is at `next`. */
  function UnitEnd(data: seq<byte>, start: nat, next: nat): (end: nat)
    requires start <= next < |data|
    ensures start <= end <= next
  {
    if next > start && data[next - 1] == 0 then next - 1 else next
  }

  /** What the units from the start code at `idx` on still amount to; -1 is no start code. */
  function Remaining(data: seq<byte>, idx: int): seq<seq<byte>>
    requires idx == -1 || CodeAt(data, idx)
  {
    if idx == -1 then [] else Pieces(data[idx + 3..])
  }

  /** One turn of the splitter's loop. */
  lemma RemainingStep(data: seq<byte>, idx: nat, next: int)
    requires CodeAt(data, idx) && IsFirst(data, idx + 3, next)
    ensures next == -1 ==> Remaining(data, idx) == [data[idx + 3..]]
    ensures next != -1 ==> Remaining(data, idx) == [data[idx + 3..UnitEnd(data, idx + 3, next)]] + Remaining(data, next)
  {
    var tail := data[idx + 3..];
    FirstInSuffix(data, idx + 3, next);
    if next != -1 {
      assert tail[..PieceEnd(tail, next - idx - 3)] == data[idx + 3..UnitEnd(data, idx + 3, next)];
      assert tail[next - idx..] == data[next + 3..];
    }
  }

  lemma MoveAcross(whole: seq<seq<byte>>, done: seq<seq<byte>>, x: seq<byte>,
        rest: seq<seq<byte>>, todo: seq<seq<byte>>)
    requires whole == done + todo && todo == [x] + rest
    ensures whole == (done + [x]) + rest
  {
  }

  lemma RemainingAtEnds(data: seq<byte>, idx: int)
    requires IsFirst(data, 0, idx)
    ensures Remaining(data, idx) == Split(data)
    ensures Remaining(data, -1) == []
  {
    FirstIsUnique(data, idx, Find(data));
  }

  method SplitAnnexB(data: seq<byte>) returns (nalus: seq<seq<byte>>)
    ensures nalus == Split(data)
  {
    hide Split, Remaining;
    nalus := [];
    var idx := IndexStartCode(data, 0);
    RemainingAtEnds(data, idx);
    while idx != -1
      invariant idx == -1 || CodeAt(data, idx)
      invariant Split(data) == nalus + Remaining(data, idx)
      decreases if idx == -1 then 0 else |data| - idx
    {
      var contentStart := idx + 3;
      var next := IndexStartCode(data, contentStart);
      RemainingStep(data, idx, next);
      if next == -1 {
        nalus := nalus + [data[contentStart..]];
        return;
      }
      var end := next;
      if end > contentStart && data[end - 1] == 0 {
        end := end - 1;
      }
      MoveAcross(Split(data), nalus, data[contentStart..end], Remaining(data, next), Remaining(data, idx));
      nalus := nalus + [data[contentStart..end]];
      idx := next;
    }
  }

  method BuildAnnexB(nalus: seq<seq<byte>>) returns (out: seq<byte>)
    ensures out == Build(nalus)
  {
    out := [];
    var i := 0;
    while i < |nalus|
      invariant 0 <= i <= |nalus|
      invariant Build(nalus) == out + Build(nalus[i..])
    {
      assert nalus[i..][1..] == nalus[i + 1..];
      out := out + START_CODE;
      out := out + nalus[i];
      i := i + 1;
    }
    assert nalus[i..] == [];
  }

  // --- round trips ----------------------------------------------------------------

  /** After a code-free unit, the builder's next start code is found one byte in. */
  lemma NextCode(n: seq<byte>, rest: seq<byte>)
    requires CodeFree(n)
    ensures Find(n + (START_CODE + rest)) == |n| + 1
  {
    var t := n + (START_CODE + rest);
    assert t[|n|] == 0 && t[|n| + 1] == 0 && t[|n| + 2] == 0 && t[|n| + 3] == 1;
    forall i | 0 <= i < |n| + 1 ensures !CodeAt(t, i) {
      if i + 3 <= |n| { assert CodeAt(t, i) == CodeAt(n, i); }
    }
    FirstIsUnique(t, Find(t), |n| + 1);
  }

  lemma {:induction false} PiecesOfBuild(nalus: seq<seq<byte>>)
    requires |nalus| > 0 && AllCodeFree(nalus)
    ensures Pieces(nalus[0] + Build(nalus[1..])) == nalus
  {
    var n, rest := nalus[0], nalus[1..];
    var tail := n + Build(rest);
    if |rest| == 0 {
      assert tail == n;
      FirstIsUnique(n, Find(n), -1);
    } else {
      var more := rest[0] + Build(rest[1..]);
      assert tail == n + (START_CODE + more);
      NextCode(n, more);
      assert tail[..|n|] == n && tail[|n| + 4..] == more;
      PiecesOfBuild(rest);
    }
  }

  /** Building and splitting gives back the units, empty ones and trailing zeros
      included, whenever none of them contains a start code. */
  lemma SplitOfBuild(nalus: seq<seq<byte>>)
    requires AllCodeFree(nalus)
    ensures Split(Build(nalus)) == nalus
  {
    if |nalus| > 0 {
      var more := nalus[0] + Build(nalus[1..]);
      assert Build(nalus) == [] + (START_CODE + more);
      NextCode([], more);
      assert Build(nalus)[4..] == more;
      PiecesOfBuild(nalus);
    }
  }

  lemma {:induction false} PiecesAreCodeFree(tail: seq<byte>)
    ensures AllCodeFree(Pieces(tail))
    decreases |tail|
  {
    var next := Find(tail);
    if next != -1 {
      var piece := tail[..PieceEnd(tail, next)];
      assert forall i | 0 <= i < |piece| :: CodeAt(piece, i) ==> CodeAt(tail, i);
      PiecesAreCodeFree(tail[next + 3..]);
    }
  }

  lemma SplitIsCodeFree(data: seq<byte>)
    ensures AllCodeFree(Split(data))
  {
    var first := Find(data);
    if first != -1 { PiecesAreCodeFree(data[first + 3..]); }
  }

  /** Any byte string whatever: rebuilding its units loses none of them. */
  lemma SplitBuildSplit(data: seq<byte>)
    ensures Split(Build(Split(data))) == Split(data)
  {
    SplitIsCodeFree(data);
    SplitOfBuild(Split(data));
  }

  /** And the condition on the units is needed: splitting inverts building exactly on
      the code-free lists. */
  lemma SplitOfBuildOnlyIf(nalus: seq<seq<byte>>)
    ensures Split(Build(nalus)) == nalus <==> AllCodeFree(nalus)
  {
    SplitIsCodeFree(Build(nalus));
    if AllCodeFree(nalus) { SplitOfBuild(nalus); }
  }

  // --- streams with either start code -------------------------------------------------

  const SHORT_CODE: seq<byte> := [0, 0, 1]

  /** A unit behind a three-byte (short) or a four-byte start code. */
  datatype Coded = Coded(short: bool, unit: seq<byte>)

  function Stream(cs: seq<Coded>): seq<byte> {
    if |cs| == 0 then []
    else (if cs[0].short then SHORT_CODE else START_CODE) + cs[0].unit + Stream(cs[1..])
  }

  function Units(cs: seq<Coded>): seq<seq<byte>> {
    seq(|cs|, i requires 0 <= i < |cs| => cs[i].unit)
  }

  predicate EndsInZero(unit: seq<byte>) { |unit| > 0 && unit[|unit| - 1] == 0 }

  /** No unit contains a start code, and none that ends in zero stands before a short one. */
  predicate Unambiguous(cs: seq<Coded>) {
    && (forall i | 0 <= i < |cs| :: CodeFree(cs[i].unit))
    && (forall i | 0 < i < |cs| :: cs[i].short ==> !EndsInZero(cs[i - 1].unit))
  }

  /** After a code-free unit that does not end in zero, a short code is found right behind it. */
  lemma NextShort(n: seq<byte>, rest: seq<byte>)
    requires CodeFree(n)
    ensures Find(n + (SHORT_CODE + rest)) == |n|
  {
    var t := n + (SHORT_CODE + rest);
    assert t[|n|] == 0 && t[|n| + 1] == 0 && t[|n| + 2] == 1;
    forall i | 0 <= i < |n| ensures !CodeAt(t, i) {
      if i + 3 <= |n| { assert CodeAt(t, i) == CodeAt(n, i); }
    }
    FirstIsUnique(t, Find(t), |n|);
  }

  lemma UnitsCons(c: Coded, cs: seq<Coded>)
    ensures Units([c] + cs) == [c.unit] + Units(cs)
  {
  }

  lemma CodeFreeHasNone(unit: seq<byte>)
    requires CodeFree(unit)
    ensures Find(unit) == -1
  {
    FirstIsUnique(unit, Find(unit), -1);
  }

  lemma RestUnambiguous(cs: seq<Coded>)
    requires |cs| > 0 && Unambiguous(cs)
    ensures Unambiguous(cs[1..])
  {
    hide CodeFree;
    var rest := cs[1..];
    assert forall i | 0 <= i < |rest| :: rest[i] == cs[i + 1];
  }

  /** The first unit's own code does not matter. */
  lemma SameUnits(c: Coded, rest: seq<Coded>)
    requires Unambiguous([c] + rest)
    ensures Unambiguous([Coded(false, c.unit)] + rest)
  {
    hide CodeFree;
    var a, b := [c] + rest, [Coded(false, c.unit)] + rest;
    assert forall i | 0 <= i < |b| :: b[i].unit == a[i].unit;
    assert forall i | 0 < i < |b| :: b[i] == a[i];
  }

  /** One unit is cut off exactly in front of the next code. */
  lemma CutsAt(unit: seq<byte>, c: Coded, rest: seq<byte>)
    requires CodeFree(unit) && (c.short ==> !EndsInZero(unit))
    ensures var tail := unit + ((if c.short then SHORT_CODE else START_CODE) + c.unit + rest);
            Pieces(tail) == [unit] + Pieces(c.unit + rest)
  {
    hide Find, CodeFree;
    var more := c.unit + rest;
    var tail := unit + ((if c.short then SHORT_CODE else START_CODE) + c.unit + rest);
    if c.short {
      assert tail == unit + (SHORT_CODE + more);
      NextShort(unit, more);
      assert |unit| > 0 ==> tail[|unit| - 1] == unit[|unit| - 1];
      assert tail[..|unit|] == unit && tail[|unit| + 3..] == more;
    } else {
      assert tail == unit + (START_CODE + more);
      NextCode(unit, more);
      assert tail[..|unit|] == unit && tail[|unit| + 4..] == more;
    }
  }

  lemma {:induction false} PiecesOfStream(unit: seq<byte>, cs: seq<Coded>)
    requires Unambiguous([Coded(false, unit)] + cs)
    ensures Pieces(unit + Stream(cs)) == [unit] + Units(cs)
    decreases |cs|
  {
    hide Find, CodeFree;
    var all := [Coded(false, unit)] + cs;
    var tail := unit + Stream(cs);
    assert all[0].unit == unit;
    if |cs| == 0 {
      assert tail == unit;
      CodeFreeHasNone(unit);
    } else {
      var c, rest := cs[0], cs[1..];
      assert all[1] == c && cs == [c] + rest;
      RestUnambiguous(all);
      assert all[1..] == [c] + rest;
      SameUnits(c, rest);
      PiecesOfStream(c.unit, rest);
      UnitsCons(c, rest);
      CutsAt(unit, c, Stream(rest));
    }
  }

  lemma StreamCons(c: Coded, rest: seq<Coded>)
    ensures Stream([c] + rest) == (if c.short then SHORT_CODE else START_CODE) + (c.unit + Stream(rest))
  {
    assert ([c] + rest)[1..] == rest;
  }

  /** The first unit starts right behind the first code, whatever leads it. */
  lemma StartsAt(lead: seq<byte>, c: Coded, more: seq<byte>)
    requires CodeFree(lead)
    ensures Split(lead + ((if c.short then SHORT_CODE else START_CODE) + more)) == Pieces(more)
  {
    hide Find, CodeFree, Pieces;
    if c.short {
      var data := lead + (SHORT_CODE + more);
      NextShort(lead, more);
      assert data[|lead| + 3..] == more;
    } else {
      var data := lead + (START_CODE + more);
      NextCode(lead, more);
      assert data[|lead| + 4..] == more;
    }
  }

  /** Whatever code-free bytes lead it, a stream whose units stand behind either kind of start
      code is split into exactly its units. */
  lemma SplitOfStream(lead: seq<byte>, cs: seq<Coded>)
    requires CodeFree(lead) && Unambiguous(cs)
    ensures Split(lead + Stream(cs)) == Units(cs)
  {
    hide CodeFree, Find, Unambiguous, Pieces;
    if |cs| == 0 {
      assert lead + Stream(cs) == lead;
      CodeFreeHasNone(lead);
    } else {
      hide Stream, Units, Split;
      var c, rest := cs[0], cs[1..];
      assert cs == [c] + rest;
      SameUnits(c, rest);
      PiecesOfStream(c.unit, rest);
      UnitsCons(c, rest);
      StreamCons(c, rest);
      StartsAt(lead, c, c.unit + Stream(rest));
    }
  }

  lemma PrefixIsCodeFree(data: seq<byte>, end: nat)
    requires end <= |data| && forall i | 0 <= i < end :: i + 3 <= end ==> !CodeAt(data, i)
    ensures CodeFree(data[..end])
  {
    assert forall i | 0 <= i < end :: CodeAt(data[..end], i) ==> CodeAt(data, i);
  }

  /** The code that was found at `next`, in front of which the unit ends at `end`. */
  lemma CodeBetween(tail: seq<byte>, next: nat, end: nat)
    requires CodeAt(tail, next) && end == PieceEnd(tail, next)
    ensures tail == tail[..end] + ((if end == next then SHORT_CODE else START_CODE) + tail[next + 3..])
    ensures end == next ==> !EndsInZero(tail[..end])
  {
    assert tail == tail[..end] + (tail[end..next + 3] + tail[next + 3..]);
    if end == next {
      assert tail[end..next + 3] == SHORT_CODE;
      assert end > 0 ==> tail[..end][end - 1] == tail[end - 1];
    } else {
      assert tail[end..next + 3] == START_CODE;
    }
  }

  lemma WholeIsCodeFree(tail: seq<byte>)
    requires Find(tail) == -1
    ensures CodeFree(tail)
  {
  }

  lemma Prepend(unit: seq<byte>, c: Coded, rest: seq<Coded>)
    requires CodeFree(unit) && (c.short ==> !EndsInZero(unit)) && Unambiguous([Coded(false, c.unit)] + rest)
    ensures Unambiguous([Coded(false, unit)] + ([c] + rest))
  {
    hide CodeFree;
    var a, b := [Coded(false, c.unit)] + rest, [Coded(false, unit)] + ([c] + rest);
    assert forall i | 1 <= i < |b| :: b[i].unit == a[i - 1].unit;
    assert forall i | 2 <= i < |b| :: b[i] == a[i - 1];
  }

  lemma LoneUnit(unit: seq<byte>)
    requires CodeFree(unit)
    ensures unit + Stream([]) == unit && Units([]) == [] && Unambiguous([])
    ensures Unambiguous([Coded(false, unit)] + [])
  {
    hide CodeFree;
    var one := [Coded(false, unit)] + [];
    assert one[0].unit == unit;
  }

  lemma {:induction false} StreamOfPieces(tail: seq<byte>) returns (unit: seq<byte>, cs: seq<Coded>)
    ensures tail == unit + Stream(cs) && Unambiguous([Coded(false, unit)] + cs)
    ensures Pieces(tail) == [unit] + Units(cs)
    decreases |tail|
  {
    hide CodeFree, Find, Unambiguous, Stream, Units;
    var next := Find(tail);
    if next == -1 {
      unit, cs := tail, [];
      WholeIsCodeFree(tail);
      LoneUnit(tail);
    } else {
      var end := PieceEnd(tail, next);
      unit := tail[..end];
      var u, rest := StreamOfPieces(tail[next + 3..]);
      var c := Coded(end == next, u);
      cs := [c] + rest;
      CodeBetween(tail, next, end);
      PrefixIsCodeFree(tail, end);
      assert cs[1..] == rest;
      StreamCons(c, rest);
      UnitsCons(c, rest);
      Prepend(unit, c, rest);
    }
  }

  /** And every byte string is such a stream: it is some code-free lead followed by its units,
      each behind a start code of one kind or the other. With SplitOfStream this says what
      the splitter returns on every input. */
  lemma StreamOfSplit(data: seq<byte>) returns (lead: seq<byte>, cs: seq<Coded>)
    ensures data == lead + Stream(cs) && CodeFree(lead) && Unambiguous(cs)
    ensures Units(cs) == Split(data)
  {
    hide CodeFree, Find, Unambiguous, Stream, Units, Pieces;
    var first := Find(data);
    if first == -1 {
      lead, cs := data, [];
      WholeIsCodeFree(data);
      LoneUnit(data);
    } else {
      var end := PieceEnd(data, first);
      lead := data[..end];
      var u, rest := StreamOfPieces(data[first + 3..]);
      var c := Coded(end == first, u);
      cs := [c] + rest;
      CodeBetween(data, first, end);
      PrefixIsCodeFree(data, end);
      StreamCons(c, rest);
      UnitsCons(c, rest);
      Prepend(lead, c, rest);
      RestUnambiguous([Coded(false, lead)] + cs);
      assert ([Coded(false, lead)] + cs)[1..] == cs;
    }
  }

  /** The builder always writes four-byte codes. */
  lemma {:induction false} BuildIsStream(nalus: seq<seq<byte>>)
    ensures Build(nalus) == Stream(seq(|nalus|, i requires 0 <= i < |nalus| => Coded(false, nalus[i])))
  {
    var cs := seq(|nalus|, i requires 0 <= i < |nalus| => Coded(false, nalus[i]));
    if |nalus| > 0 {
      BuildIsStream(nalus[1..]);
      assert cs[1..] == seq(|nalus[1..]|, i requires 0 <= i < |nalus[1..]| => Coded(false, nalus[1..][i]));
    }
  }
}
