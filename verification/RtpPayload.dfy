/** What one RTP payload says about the H.264 stream (h264.go, classifyRTPPayload):
    single NAL units, STAP-A aggregates and FU-A fragments. */
module RtpPayload {
  import opened Words

  const STAP_A := 24
  const FU_A := 28

  datatype Class = Empty | SingleNALU | StapA | FuA | Other

  /** `mask` is the 32-bit naluTypeMask: bit N is set when NAL type N is carried. */
  datatype Info = Info(cls: Class, mask: nat, fuStart: bool, fuEnd: bool, malformed: bool)

  function NalType(header: byte): (t: nat)
    ensures t < 32
  {
    header % 32
  }

  function AddType(mask: nat, t: nat): nat { SetBit(mask, t % 32) }

  predicate Carries(i: Info, t: nat) { Bit(i.mask, t % 32) }

  function UnitSize(payload: seq<byte>, offset: nat): nat
    requires offset + 2 <= |payload|
  {
    256 * payload[offset] as int + payload[offset + 1] as int
  }

  /** The rest of the STAP-A walk from `offset`. */
  function Walk(payload: seq<byte>, offset: nat, mask: nat): Info
    decreases |payload| - offset
  {
    if offset >= |payload| then Info(StapA, mask, false, false, false)
    else if offset + 2 > |payload| then Info(StapA, mask, false, false, true)
    else
      var size := UnitSize(payload, offset);
      if size == 0 || offset + 2 + size > |payload| then Info(StapA, mask, false, false, true)
      else Walk(payload, offset + 2 + size, AddType(mask, NalType(payload[offset + 2])))
  }

  method ClassifySTAPA(payload: seq<byte>) returns (info: Info)
    ensures info == Walk(payload, 1, 0)
    ensures info.cls == StapA && !info.fuStart && !info.fuEnd
  {
    var mask, malformed := 0, false;
    var offset := 1;
    while offset < |payload|
      invariant 1 <= offset
      invariant Walk(payload, 1, 0) == Walk(payload, offset, mask)
      decreases |payload| - offset
    {
      if offset + 2 > |payload| {
        malformed := true;
        break;
      }
      var size := UnitSize(payload, offset);
      if size == 0 || offset + 2 + size > |payload| {
        malformed := true;
        break;
      }
      mask := AddType(mask, NalType(payload[offset + 2]));
      offset := offset + 2 + size;
    }
    info := Info(StapA, mask, false, false, malformed);
  }

  function ClassifyFUA(payload: seq<byte>): Info {
    if |payload| < 2 then Info(FuA, 0, false, false, true)
    else Info(FuA, AddType(0, NalType(payload[1])), payload[1] >= 128, (payload[1] / 64) % 2 == 1, false)
  }

  function Classified(payload: seq<byte>): Info {
    if |payload| == 0 then Info(Empty, 0, false, false, false)
    else
      var t := NalType(payload[0]);
      if 1 <= t <= 23 then Info(SingleNALU, AddType(0, t), false, false, false)
      else if t == STAP_A then Walk(payload, 1, 0)
      else if t == FU_A then ClassifyFUA(payload)
      else Info(Other, 0, false, false, false)
  }

  method ClassifyRTPPayload(payload: seq<byte>) returns (info: Info)
    ensures info == Classified(payload)
    ensures info.cls == Empty <==> payload == []
    ensures info.cls == SingleNALU ==> info.mask == AddType(0, NalType(payload[0])) && !info.malformed
    ensures info.fuStart || info.fuEnd ==> info.cls == FuA && |payload| >= 2
  {
    hide Walk, AddType;
    if |payload| == 0 { return Info(Empty, 0, false, false, false); }
    var t := NalType(payload[0]);
    if 1 <= t <= 23 {
      info := Info(SingleNALU, AddType(0, t), false, false, false);
    } else if t == STAP_A {
      info := ClassifySTAPA(payload);
    } else if t == FU_A {
      info := ClassifyFUA(payload);
    } else {
      info := Info(Other, 0, false, false, false);
    }
  }

  // --- the aggregation format of section 5.7.1 of RFC 6184 ------------------------

  /** Units an aggregate can hold: non-empty, with a size that fits 16 bits. */
  predicate Aggregable(units: seq<seq<byte>>) {
    forall i | 0 <= i < |units| :: 0 < |units[i]| < 0x1_0000
  }

  function Prefixed(unit: seq<byte>): seq<byte>
    requires |unit| < 0x1_0000
  {
    [|unit| / 256, |unit| % 256] + unit
  }

  function Aggregate(units: seq<seq<byte>>): seq<byte>
    requires Aggregable(units)
  {
    if |units| == 0 then [] else Prefixed(units[0]) + Aggregate(units[1..])
  }

  predicate HasType(units: seq<seq<byte>>, t: nat)
    requires Aggregable(units)
  {
    exists i | 0 <= i < |units| :: NalType(units[i][0]) == t
  }

  lemma ReadPrefixed(payload: seq<byte>, offset: nat, unit: seq<byte>, rest: seq<byte>)
    requires 0 < |unit| < 0x1_0000 && offset <= |payload|
    requires payload[offset..] == Prefixed(unit) + rest
    ensures offset + 2 + |unit| <= |payload| && UnitSize(payload, offset) == |unit|
    ensures payload[offset + 2] == unit[0]
    ensures payload[offset + 2 + |unit|..] == rest
  {
    var tail := payload[offset..];
    assert |tail| == 2 + |unit| + |rest|;
    assert tail[0] == payload[offset] && tail[1] == payload[offset + 1] && tail[2] == payload[offset + 2];
    assert tail[2 + |unit|..] == payload[offset + 2 + |unit|..];
  }

  lemma HasTypeStep(units: seq<seq<byte>>, t: nat)
    requires Aggregable(units) && |units| > 0
    ensures HasType(units, t) <==> NalType(units[0][0]) == t || HasType(units[1..], t)
  {
    var rest := units[1..];
    if HasType(rest, t) {
      var i :| 0 <= i < |rest| && NalType(rest[i][0]) == t;
      assert units[i + 1] == rest[i];
    }
    if HasType(units, t) && NalType(units[0][0]) != t {
      var i :| 0 <= i < |units| && NalType(units[i][0]) == t;
      assert rest[i - 1] == units[i];
    }
  }

  lemma NoTypes(units: seq<seq<byte>>, t: nat)
    requires |units| == 0
    ensures !HasType(units, t)
  {
  }

  /** The walk over a well-formed aggregate ends well-formed, with its types added. */
  lemma {:induction false} WalkAggregate(payload: seq<byte>, offset: nat, mask: nat, units: seq<seq<byte>>, t: nat)
    requires Aggregable(units) && offset <= |payload| && payload[offset..] == Aggregate(units) && t < 32
    ensures !Walk(payload, offset, mask).malformed
    ensures Bit(Walk(payload, offset, mask).mask, t) <==> Bit(mask, t) || HasType(units, t)
    decreases |units|
  {
    hide Bit, SetBit, HasType;
    if |units| == 0 {
      NoTypes(units, t);
    } else {
      var u, rest := units[0], units[1..];
      ReadPrefixed(payload, offset, u, Aggregate(rest));
      WalkAggregate(payload, offset + 2 + |u|, AddType(mask, NalType(u[0])), rest, t);
      SetBitBits(mask, NalType(u[0]), t);
      HasTypeStep(units, t);
    }
  }

  /** A walk that ends well-formed has read an aggregate. */
  lemma {:induction false} WalkDecodes(payload: seq<byte>, offset: nat, mask: nat) returns (units: seq<seq<byte>>)
    requires offset <= |payload| && !Walk(payload, offset, mask).malformed
    ensures Aggregable(units) && payload[offset..] == Aggregate(units)
    decreases |payload| - offset
  {
    if offset == |payload| {
      units := [];
    } else {
      var size := UnitSize(payload, offset);
      var u := payload[offset + 2..offset + 2 + size];
      var rest := WalkDecodes(payload, offset + 2 + size, AddType(mask, NalType(payload[offset + 2])));
      units := [u] + rest;
      assert units[1..] == rest;
      assert payload[offset..] == [payload[offset], payload[offset + 1]] + u + payload[offset + 2 + size..];
      assert Prefixed(u) == [payload[offset], payload[offset + 1]] + u;
    }
  }

  predicate IsAggregate(body: seq<byte>, units: seq<seq<byte>>) {
    Aggregable(units) && body == Aggregate(units)
  }

  lemma {:induction false} StaysStapA(payload: seq<byte>, offset: nat, mask: nat)
    ensures var i := Walk(payload, offset, mask); i.cls == StapA && !i.fuStart && !i.fuEnd
    decreases |payload| - offset
  {
    if offset + 2 <= |payload| {
      var size := UnitSize(payload, offset);
      if size > 0 && offset + 2 + size <= |payload| {
        StaysStapA(payload, offset + 2 + size, AddType(mask, NalType(payload[offset + 2])));
      }
    }
  }

  /** A STAP-A payload is reported well-formed exactly when what follows its header byte
      is a concatenation of non-empty length-prefixed units, and then the mask is
      exactly the set of their types. */
  lemma StapAExact(payload: seq<byte>)
    requires |payload| >= 1 && NalType(payload[0]) == STAP_A
    ensures Classified(payload).cls == StapA
    ensures !Classified(payload).malformed <==> exists units :: IsAggregate(payload[1..], units)
    ensures forall units, t | IsAggregate(payload[1..], units) && t < 32 ::
              Carries(Classified(payload), t) <==> HasType(units, t)
  {
    hide Walk, Bit, Aggregate, HasType;
    StaysStapA(payload, 1, 0);
    if !Classified(payload).malformed {
      var units := WalkDecodes(payload, 1, 0);
      assert IsAggregate(payload[1..], units);
    }
    forall units | IsAggregate(payload[1..], units) ensures !Classified(payload).malformed {
      WalkAggregate(payload, 1, 0, units, 0);
    }
    forall units, t | IsAggregate(payload[1..], units) && t < 32
      ensures Carries(Classified(payload), t) <==> HasType(units, t)
    {
      WalkAggregate(payload, 1, 0, units, t);
      ZeroHasNoBit(t);
    }
  }

  /** The FU indicator and header of section 5.8 of RFC 6184, for a fragment of a unit of type t. */
  function Fragment(refIdc: nat, start: bool, end: bool, t: nat, data: seq<byte>): seq<byte>
    requires refIdc < 4 && t < 32
  {
    [32 * refIdc + FU_A, (if start then 128 else 0) + (if end then 64 else 0) + t] + data
  }

  lemma FragmentHeaders(refIdc: nat, start: bool, end: bool, t: nat, data: seq<byte>)
    requires refIdc < 4 && t < 32
    ensures var f := Fragment(refIdc, start, end, t, data);
            && |f| >= 2 && NalType(f[0]) == FU_A && NalType(f[1]) == t
            && (f[1] >= 128) == start && ((f[1] / 64) % 2 == 1) == end
  {
  }

  lemma OneBit(t: nat, u: nat)
    requires t < 32 && u < 32
    ensures Bit(AddType(0, t), u) <==> u == t
  {
    hide Bit, SetBit;
    ZeroHasNoBit(u);
    SetBitBits(0, t, u);
  }

  /** Every fragment, not only the first, identifies the type of the unit it belongs to. */
  lemma FragmentNamesItsUnit(refIdc: nat, start: bool, end: bool, t: nat, data: seq<byte>, u: nat)
    requires refIdc < 4 && t < 32 && u < 32
    ensures var i := Classified(Fragment(refIdc, start, end, t, data));
            i.cls == FuA && !i.malformed && i.fuStart == start && i.fuEnd == end && (Carries(i, u) <==> u == t)
  {
    FragmentHeaders(refIdc, start, end, t, data);
    OneBit(t, u);
  }

  /** The first byte decides: types 1 to 23 are single units of exactly that type, 24 is a
      STAP-A, 28 is an FU-A, which needs its second byte, and nothing else says anything
      about a type. */
  lemma ClassIsByType(payload: seq<byte>, t: nat)
    requires t < 32
    ensures Classified(payload).cls.Empty? <==> payload == []
    ensures payload != [] ==>
              var i, first := Classified(payload), NalType(payload[0]);
              && (i.cls.SingleNALU? <==> 1 <= first <= 23) && (i.cls.StapA? <==> first == 24)
              && (i.cls.FuA? <==> first == 28) && (i.cls.Other? <==> first == 0 || first in {25, 26, 27, 29, 30, 31})
              && (i.cls.SingleNALU? ==> (Carries(i, t) <==> t == first))
              && (i.cls.FuA? ==> (Carries(i, t) <==> |payload| >= 2 && t == NalType(payload[1])))
    ensures var i := Classified(payload);
            && (i.cls.Empty? || i.cls.Other? ==> !Carries(i, t))
            && (i.malformed ==> i.cls.StapA? || (i.cls.FuA? && |payload| == 1))
            && (i.cls.FuA? && |payload| == 1 ==> i.malformed)
            && (i.fuStart || i.fuEnd ==> i.cls.FuA? && |payload| >= 2)
  {
    hide Walk, AddType, Bit;
    ZeroHasNoBit(t);
    if payload != [] {
      OneBit(NalType(payload[0]), t);
      StaysStapA(payload, 1, 0);
      if |payload| >= 2 { OneBit(NalType(payload[1]), t); }
    }
  }
}
