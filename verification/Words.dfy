/** Bytes, and fixed-width machine words as natural numbers: the shifts and single-bit
    operations the RTP trackers use. */
module Words {

  type byte = b: int | 0 <= b < 256

  function Pow2(n: nat): (p: nat)
    ensures p >= 1
  {
    if n == 0 then 1 else 2 * Pow2(n - 1)
  }

  /** w & (1 << i) != 0 */
  predicate Bit(w: nat, i: nat) {
    if i == 0 then w % 2 == 1 else Bit(w / 2, i - 1)
  }

  /** w | (1 << i) */
  function SetBit(w: nat, i: nat): nat {
    if Bit(w, i) then w else w + Pow2(i)
  }

  /** w << d, in a word of the given width. */
  function Shl(w: nat, d: nat, width: nat): nat {
    (w * Pow2(d)) % Pow2(width)
  }

  lemma {:induction false} ZeroHasNoBit(i: nat)
    ensures !Bit(0, i)
  {
    if i > 0 { ZeroHasNoBit(i - 1); }
  }

  lemma {:induction false} AddBit(w: nat, i: nat, j: nat)
    requires !Bit(w, i)
    ensures Bit(w + Pow2(i), j) <==> j == i || Bit(w, j)
  {
    if i == 0 {
      assert (w + 1) / 2 == w / 2;
    } else {
      var p := Pow2(i - 1);
      assert (w + 2 * p) / 2 == w / 2 + p && (w + 2 * p) % 2 == w % 2;
      if j > 0 { AddBit(w / 2, i - 1, j - 1); }
    }
  }

  lemma SetBitBits(w: nat, i: nat, j: nat)
    ensures Bit(SetBit(w, i), j) <==> j == i || Bit(w, j)
  {
    if !Bit(w, i) { AddBit(w, i, j); }
  }

  lemma {:induction false} SetBitFits(w: nat, i: nat, n: nat)
    requires w < Pow2(n) && i < n
    ensures SetBit(w, i) < Pow2(n)
  {
    if i == 0 {
      assert Pow2(n) == 2 * Pow2(n - 1);
    } else {
      SetBitFits(w / 2, i - 1, n - 1);
    }
  }

  lemma {:induction false} TimesPowBit(w: nat, d: nat, j: nat)
    ensures Bit(w * Pow2(d), j) <==> j >= d && Bit(w, j - d)
  {
    if d > 0 {
      var v := w * Pow2(d - 1);
      assert w * Pow2(d) == 2 * v;
      if j > 0 { TimesPowBit(w, d - 1, j - 1); }
    }
  }

  lemma ModUnique(w: nat, m: nat, a: nat, r: nat)
    requires m >= 1 && w == m * a + r && r < m
    ensures w % m == r && w / m == a
  {
    var d: int := w / m - a;
    assert w == m * (w / m) + w % m;
    assert m * d == r - w % m;
    assert d >= 1 ==> m * d >= m;
    assert d <= -1 ==> m * d + m <= 0;
  }

  lemma HalveMod(w: nat, m: nat)
    requires m >= 1
    ensures (w % (2 * m)) / 2 == (w / 2) % m && (w % (2 * m)) % 2 == w % 2
  {
    var q, r := w / 2, w % 2;
    var a, b := q / m, q % m;
    assert q == m * a + b;
    assert w == (2 * m) * a + (2 * b + r);
    assert 0 <= 2 * b + r < 2 * m;
    ModUnique(w, 2 * m, a, 2 * b + r);
  }

  lemma {:induction false} ModBit(w: nat, n: nat, j: nat)
    requires j < n
    ensures Bit(w % Pow2(n), j) <==> Bit(w, j)
  {
    HalveMod(w, Pow2(n - 1));
    if j > 0 { ModBit(w / 2, n - 1, j - 1); }
  }

  /** Shifting moves every bit up and forgets those that leave the word. */
  lemma ShlBits(w: nat, d: nat, width: nat, j: nat)
    requires j < width
    ensures Bit(Shl(w, d, width), j) <==> j >= d && Bit(w, j - d)
    ensures Shl(w, d, width) < Pow2(width)
  {
    ModBit(w * Pow2(d), width, j);
    TimesPowBit(w, d, j);
  }
}
