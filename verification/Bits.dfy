/** Bit fields of a 32-bit header word. */
module Bits {

  /** A header word as its bits, least significant first. */
  type Word = w: seq<bool> | |w| == 32 witness seq(32, _ => false)

  function Pow2(n: nat): (p: nat)
    ensures p > 0
  {
    if n == 0 then 1 else 2 * Pow2(n - 1)
  }

  /** The number a run of bits stands for. */
  function Num(bits: seq<bool>): nat {
    if bits == [] then 0 else (if bits[0] then 1 else 0) + 2 * Num(bits[1..])
  }

  /** The low n bits of v: what `v & mask` keeps of it. */
  function LowBits(v: nat, n: nat): (bits: seq<bool>)
    ensures |bits| == n
  {
    if n == 0 then [] else [v % 2 == 1] + LowBits(v / 2, n - 1)
  }

  /** Shift right by lo and mask n bits. */
  function Field(w: Word, lo: nat, n: nat): nat
    requires lo + n <= 32
  {
    Num(w[lo..lo + n])
  }

  /** Clear the n bits from lo on, then OR in the low n bits of v. */
  function SetField(w: Word, lo: nat, n: nat, v: nat): Word
    requires lo + n <= 32
  {
    w[..lo] + LowBits(v, n) + w[lo + n..]
  }

  lemma {:induction false} NumOfLowBits(v: nat, n: nat)
    ensures Num(LowBits(v, n)) == v % Pow2(n)
  {
    if n > 0 {
      NumOfLowBits(v / 2, n - 1);
      ModHalves(v, Pow2(n - 1));
    }
  }

  lemma {:induction false} MulStep(d: nat, a: int, b: int)
    requires a < b
    ensures d * a + d <= d * b
    decreases b - a
  {
    if a + 1 < b {
      MulStep(d, a, b - 1);
    }
    assert d * b == d * (b - 1) + d;
  }

  lemma Division(x: nat, d: nat) returns (q: nat, r: nat)
    requires d > 0
    ensures x == d * q + r && r < d && r == x % d
  {
    q, r := x / d, x % d;
  }

  lemma ModUnique(x: nat, d: nat, q: nat, r: nat)
    requires r < d && x == d * q + r
    ensures x % d == r
  {
    var q', r' := Division(x, d);
    if q < q' {
      MulStep(d, q, q');
    } else if q' < q {
      MulStep(d, q', q);
    }
  }

  lemma ModHalves(v: nat, p: nat)
    requires p > 0
    ensures v % (2 * p) == v % 2 + 2 * ((v / 2) % p)
  {
    var q, r := Division(v / 2, p);
    assert (2 * p) * q == 2 * (p * q);
    ModUnique(v, 2 * p, q, 2 * r + v % 2);
  }

  lemma {:induction false} LowBitsOfNum(bits: seq<bool>)
    ensures LowBits(Num(bits), |bits|) == bits
    ensures Num(bits) < Pow2(|bits|)
  {
    if bits != [] {
      LowBitsOfNum(bits[1..]);
      assert Num(bits) / 2 == Num(bits[1..]);
      assert bits == [bits[0]] + bits[1..];
    }
  }

  /** Writing a field makes it read back the written value, truncated to the field's width. */
  lemma FieldAfterSet(w: Word, lo: nat, n: nat, v: nat)
    requires lo + n <= 32
    ensures Field(SetField(w, lo, n, v), lo, n) == v % Pow2(n)
  {
    assert SetField(w, lo, n, v)[lo..lo + n] == LowBits(v, n);
    NumOfLowBits(v, n);
  }

  /** Writing a field leaves every field that does not overlap it as it was. */
  lemma OtherFieldAfterSet(w: Word, lo: nat, n: nat, v: nat, lo': nat, n': nat)
    requires lo + n <= 32 && lo' + n' <= 32
    requires lo + n <= lo' || lo' + n' <= lo
    ensures Field(SetField(w, lo, n, v), lo', n') == Field(w, lo', n')
  {
    assert SetField(w, lo, n, v)[lo'..lo' + n'] == w[lo'..lo' + n'];
  }
}
