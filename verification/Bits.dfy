/** Bits and bytes of unsigned numbers: powers of two, bitwise `|` and `^`, little-endian bytes. */
module Bits {

  type byte = x: int | 0 <= x < 256

  function Pow2(k: nat): (p: nat)
    ensures p > 0
  {
    if k == 0 then 1 else 2 * Pow2(k - 1)
  }

  lemma {:induction false} Pow2Grows(i: nat, j: nat)
    requires i <= j
    ensures Pow2(i) <= Pow2(j) && (i < j ==> 2 * Pow2(i) <= Pow2(j))
  {
    if i < j {
      Pow2Grows(i, j - 1);
    }
  }

  lemma Pow2Seven(k: nat)
    ensures Pow2(k + 7) == 128 * Pow2(k)
  {
    assert Pow2(k + 7) == 2 * Pow2(k + 6) == 4 * Pow2(k + 5) == 8 * Pow2(k + 4);
    assert Pow2(k + 4) == 2 * Pow2(k + 3) == 4 * Pow2(k + 2) == 8 * Pow2(k + 1);
  }

  const WORD: nat := 0x1_0000_0000_0000_0000

  /** What the common widths hold. */
  lemma WidthsAre()
    ensures Pow2(8) == 0x100 && Pow2(16) == 0x1_0000 && Pow2(32) == 0x1_0000_0000 && Pow2(64) == WORD
  {
    assert Pow2(8) == 0x100;
    hide Pow2;
    EightMore(8);
    EightMore(16);
    EightMore(24);
    EightMore(32);
    EightMore(40);
    EightMore(48);
    EightMore(56);
  }

  /** The `k` low bits, which a cast to a `k`-bit type keeps. */
  function Low(x: nat, k: nat): nat {
    if k == 0 then 0 else x % 2 + 2 * Low(x / 2, k - 1)
  }

  lemma {:induction false} LowFacts(x: nat, k: nat)
    ensures Low(x, k) < Pow2(k) && Low(x, k) <= x && (x < Pow2(k) ==> Low(x, k) == x)
    decreases k
  {
    if k > 0 {
      LowFacts(x / 2, k - 1);
    }
  }

  function Or(a: nat, b: nat): nat
    decreases a + b
  {
    if a == 0 && b == 0 then 0 else (if a % 2 == 1 || b % 2 == 1 then 1 else 0) + 2 * Or(a / 2, b / 2)
  }

  function Xor(a: nat, b: nat): nat
    decreases a + b
  {
    if a == 0 && b == 0 then 0 else (if a % 2 != b % 2 then 1 else 0) + 2 * Xor(a / 2, b / 2)
  }

  lemma {:induction false} OrZero(a: nat)
    ensures Or(0, a) == a == Or(a, 0)
  {
    if a > 0 {
      OrZero(a / 2);
    }
  }

  /** `x << k`, without a limit to the width. */
  function Shift(x: nat, k: nat): nat { if k == 0 then x else 2 * Shift(x, k - 1) }

  lemma {:induction false} ShiftOne(k: nat)
    ensures Shift(1, k) == Pow2(k) && Shift(127, k) == 127 * Pow2(k) && Shift(0, k) == 0
  {
    if k > 0 {
      ShiftOne(k - 1);
    }
  }

  lemma {:induction false} ShiftSum(x: nat, y: nat, k: nat)
    ensures Shift(x + y, k) == Shift(x, k) + Shift(y, k) && Shift(128 * x, k) == 128 * Shift(x, k)
  {
    if k > 0 {
      ShiftSum(x, y, k - 1);
    }
  }

  lemma {:induction false} ShiftGrows(x: nat, y: nat, k: nat)
    requires x <= y
    ensures Shift(x, k) <= Shift(y, k)
  {
    if k > 0 {
      ShiftGrows(x, y, k - 1);
    }
  }

  lemma ShiftSeven(x: nat, k: nat)
    ensures Shift(x, k + 7) == 128 * Shift(x, k)
  {
    assert Shift(x, k + 7) == 2 * Shift(x, k + 6) == 4 * Shift(x, k + 5) == 8 * Shift(x, k + 4);
    assert Shift(x, k + 4) == 2 * Shift(x, k + 3) == 4 * Shift(x, k + 2) == 8 * Shift(x, k + 1);
  }

  /** Bits below position `k` are left alone by what is put at `k` and above. */
  lemma {:induction false} OrHigh(a: nat, b: nat, c: nat, k: nat)
    requires a < Pow2(k)
    ensures Or(a + Shift(b, k), Shift(c, k)) == a + Shift(Or(b, c), k)
    decreases k
  {
    if k > 0 {
      OrHigh(a / 2, b, c, k - 1);
      Halves(a, Shift(b, k - 1), Shift(c, k - 1));
    }
  }

  lemma Halves(a: nat, x: nat, y: nat)
    ensures Or(a + 2 * x, 2 * y) == a % 2 + 2 * Or(a / 2 + x, y)
  {
    assert (a + 2 * x) / 2 == a / 2 + x && (2 * y) / 2 == y;
  }

  /** Bits below position `k` and bits from there on do not meet. */
  lemma OrDisjoint(a: nat, b: nat, k: nat)
    requires a < Pow2(k)
    ensures Or(a, Shift(b, k)) == a + Shift(b, k)
  {
    hide Or, Shift, Pow2;
    OrHigh(a, 0, b, k);
    ShiftOne(k);
    OrZero(b);
  }

  lemma {:induction false} OrAtMost(a: nat, b: nat)
    ensures Or(a, b) <= a + b
    decreases a + b
  {
    if a + b > 0 {
      OrAtMost(a / 2, b / 2);
    }
  }

  lemma {:induction false} OrBelow(a: nat, b: nat, k: nat)
    requires a < Pow2(k) && b < Pow2(k)
    ensures Or(a, b) < Pow2(k)
    decreases k
  {
    if k > 0 {
      OrBelow(a / 2, b / 2, k - 1);
    }
  }

  lemma {:induction false} XorZero(a: nat)
    ensures Xor(a, 0) == a
  {
    if a > 0 {
      XorZero(a / 2);
    }
  }

  /** `^` with all ones is the complement. */
  lemma {:induction false} XorOnes(a: nat, k: nat)
    requires a < Pow2(k)
    ensures Xor(a, Pow2(k) - 1) == Pow2(k) - 1 - a
    decreases k
  {
    if k > 0 {
      XorOnes(a / 2, k - 1);
    }
  }

  /** The `w` low bytes of `n`, least significant first. */
  function LittleEndian(n: nat, w: nat): (s: seq<byte>)
    ensures |s| == w
  {
    if w == 0 then [] else [n % 256] + LittleEndian(n / 256, w - 1)
  }

  function FromLittleEndian(s: seq<byte>): nat {
    if s == [] then 0 else s[0] + 256 * FromLittleEndian(s[1..])
  }

  /** Reading the bytes back. */
  lemma {:induction false} BytesRoundTrip(n: nat, w: nat)
    requires n < Pow2(8 * w)
    ensures FromLittleEndian(LittleEndian(n, w)) == n
    decreases w
  {
    if w > 0 {
      EightMore(8 * (w - 1));
      BytesRoundTrip(n / 256, w - 1);
    }
  }

  lemma LowByte(b: byte, n: nat)
    ensures (b + 256 * n) % 256 == b && (b + 256 * n) / 256 == n
  {
  }

  /** Writing them again. */
  lemma {:induction false} BytesAgain(s: seq<byte>)
    ensures LittleEndian(FromLittleEndian(s), |s|) == s
  {
    if s != [] {
      BytesAgain(s[1..]);
      LowByte(s[0], FromLittleEndian(s[1..]));
    }
  }

  lemma EightMore(k: nat)
    ensures Pow2(k + 8) == 256 * Pow2(k)
  {
    Pow2Seven(k);
  }

  lemma {:induction false} FromLittleEndianBelow(s: seq<byte>)
    ensures FromLittleEndian(s) < Pow2(8 * |s|)
  {
    if s != [] {
      FromLittleEndianBelow(s[1..]);
      EightMore(8 * (|s| - 1));
    }
  }
}
