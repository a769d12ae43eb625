/** KzAlgorithm/Jeaiii.h: integers to decimal text without divisions by ten, two digits at a time from the
    end. The text's place is computed in advance from an estimate of the number of digits. */
module Jeaiii {
  import opened Bits
  import opened Decimal

  /** `g_powers_of_10`; entry 0 is 0. */
  const POWERS_OF_10: seq<nat> := [
    0, 10, 100, 1000, 10000, 100000, 1000000, 10000000, 100000000, 1000000000, 10000000000, 100000000000,
    1000000000000, 10000000000000, 100000000000000, 1000000000000000, 10000000000000000, 100000000000000000,
    1000000000000000000, 10000000000000000000]

  /** 64 minus the leading zeros. */
  function BitLength(n: nat): nat { if n == 0 then 0 else 1 + BitLength(n / 2) }

  function Ten(k: nat): (p: nat)
    ensures p > 0
  {
    if k == 0 then 1 else 10 * Ten(k - 1)
  }

  lemma {:induction false} BitLengthIs(n: nat)
    requires n > 0
    ensures BitLength(n) > 0 && Pow2(BitLength(n) - 1) <= n < Pow2(BitLength(n))
  {
    if n > 1 {
      BitLengthIs(n / 2);
    }
  }

  lemma WordBits(n: nat)
    requires n < WORD
    ensures BitLength(n) <= 64
  {
    if n > 0 {
      WidthsAre();
      BitLengthIs(n);
      if BitLength(n) > 64 {
        Pow2Grows(64, BitLength(n) - 1);
      }
    }
  }

  lemma TableIs(t: nat)
    requires 0 < t < 20
    ensures POWERS_OF_10[t] == Ten(t)
  {
    assert Ten(1) == 10 && Ten(2) == 100 && Ten(3) == 1000 && Ten(4) == 10000 && Ten(5) == 100000;
    assert Ten(6) == 1000000 && Ten(7) == 10000000 && Ten(8) == 100000000 && Ten(9) == 1000000000;
    assert Ten(10) == 10000000000 && Ten(11) == 100000000000 && Ten(12) == 1000000000000;
    assert Ten(13) == 10000000000000 && Ten(14) == 100000000000000 && Ten(15) == 1000000000000000;
    assert Ten(16) == 10000000000000000 && Ten(17) == 100000000000000000;
    assert Ten(18) == 1000000000000000000 && Ten(19) == 10000000000000000000;
  }

  /** `count_digits`: the logarithm to base 10 is estimated by 1233/4096 of the bit length. */
  function CountDigits(n: nat): nat
    requires n < WORD
  {
    if n == 0 then 1
    else
      WordBits(n);
      var t := BitLength(n) * 1233 / 4096;
      t + if n >= POWERS_OF_10[t] then 1 else 0
  }

  // Ten bits are a little more than three digits.

  lemma TenMore(k: nat)
    ensures Pow2(k + 10) == 1024 * Pow2(k)
  {
    Pow2Seven(k);
    assert Pow2(k + 10) == 2 * Pow2(k + 9) == 4 * Pow2(k + 8) == 8 * Pow2(k + 7);
  }

  lemma ThreeMore(k: nat)
    ensures Ten(k + 3) == 1000 * Ten(k)
  {
    assert Ten(k + 3) == 10 * Ten(k + 2) == 100 * Ten(k + 1);
  }

  /** Up to sixty bits, ten bits never get further ahead of three digits than 168 parts in a thousand. */
  lemma Ahead(q: nat)
    requires q <= 6
    ensures Ten(3 * q) <= Pow2(10 * q) && 1000 * Pow2(10 * q) <= 1168 * Ten(3 * q)
  {
    hide Pow2, Ten;
    if q <= 3 {
      Thirty();
    } else {
      Thirty();
      Sixty();
    }
  }

  lemma Thirty()
    ensures Pow2(0) == Ten(0) == 1 && Pow2(10) == 1024 && Ten(3) == 1000 && Pow2(20) == 1048576 && Ten(6) == 1000000
    ensures Pow2(30) == 1073741824 && Ten(9) == 1000000000
  {
    assert Pow2(0) == 1 && Ten(0) == 1;
    hide Pow2, Ten;
    TenMore(0);
    TenMore(10);
    TenMore(20);
    ThreeMore(0);
    ThreeMore(3);
    ThreeMore(6);
  }

  lemma Sixty()
    ensures Pow2(40) == 1099511627776 && Ten(12) == 1000000000000 && Pow2(50) == 1125899906842624 && Ten(15) == 1000000000000000
    ensures Pow2(60) == 1152921504606846976 && Ten(18) == 1000000000000000000
  {
    hide Pow2, Ten;
    Thirty();
    TenMore(30);
    TenMore(40);
    TenMore(50);
    ThreeMore(9);
    ThreeMore(12);
    ThreeMore(15);
  }

  /** The estimate goes up by three every ten bits. */
  lemma Tens(bits: nat)
    requires 0 < bits <= 64
    ensures var q, r := bits / 10, bits % 10;
            bits * 1233 / 4096 == (3 * q + if r <= 3 then 0 else if r <= 6 then 1 else 2) < 20
  {
  }

  /** For each bit length the estimate is the number of digits of the smallest or one less than that of the
      largest number of that length. */
  lemma Estimate(bits: nat)
    requires 0 < bits <= 64
    ensures var t := bits * 1233 / 4096;
            t < 20 && Pow2(bits) <= Ten(t + 1) && (t > 0 ==> Ten(t - 1) <= Pow2(bits - 1))
  {
    hide Pow2, Ten;
    Tens(bits);
    var q := bits / 10;
    Ahead(q);
    Steps(10 * q, 3 * q, bits % 10);
  }

  lemma Steps(b: nat, d: nat, r: nat)
    requires r < 10 && Ten(d) <= Pow2(b) && 1000 * Pow2(b) <= 1168 * Ten(d) && (b == 0 <==> d == 0)
    ensures var t := d + if r <= 3 then 0 else if r <= 6 then 1 else 2;
            Pow2(b + r) <= Ten(t + 1) && (t > 0 && b + r > 0 ==> Ten(t - 1) <= Pow2(b + r - 1))
  {
    assert Pow2(b + 1) == 2 * Pow2(b) && Pow2(b + 2) == 4 * Pow2(b) && Pow2(b + 3) == 8 * Pow2(b);
    assert Pow2(b + 4) == 16 * Pow2(b) && Pow2(b + 5) == 32 * Pow2(b) && Pow2(b + 6) == 64 * Pow2(b);
    assert Pow2(b + 7) == 128 * Pow2(b) && Pow2(b + 8) == 256 * Pow2(b) && Pow2(b + 9) == 512 * Pow2(b);
    assert Ten(d + 1) == 10 * Ten(d) && Ten(d + 2) == 100 * Ten(d) && Ten(d + 3) == 1000 * Ten(d);
    if b > 0 {
      assert Pow2(b) == 2 * Pow2(b - 1) && Ten(d) == 10 * Ten(d - 1);
    }
  }

  // ---------------------------------------------------------------- counting digits

  /** A number between consecutive powers of ten has that many digits. */
  lemma {:induction false} DigitsIs(n: nat, d: nat)
    requires d > 0 && n < Ten(d) && (d > 1 ==> Ten(d - 1) <= n)
    ensures |Dec(n)| == d
    decreases d
  {
    if d > 1 {
      if d > 2 {
        assert Ten(d - 1) == 10 * Ten(d - 2);
      }
      DigitsIs(n / 10, d - 1);
    }
  }

  /** The estimate, corrected by one table lookup, is right for every 64-bit number. */
  lemma CountDigitsExact(n: nat)
    requires n < WORD
    ensures CountDigits(n) == |Dec(n)|
  {
    if n > 0 {
      WordBits(n);
      BitLengthIs(n);
      var bits := BitLength(n);
      var t := bits * 1233 / 4096;
      Estimate(bits);
      if t > 0 {
        TableIs(t);
      }
      if n >= POWERS_OF_10[t] {
        DigitsIs(n, t + 1);
      } else {
        DigitsIs(n, t);
      }
    }
  }

  // ---------------------------------------------------------------- two digits at a time

  lemma {:induction false} OrCommutes(a: nat, b: nat)
    ensures Or(a, b) == Or(b, a)
    decreases a + b
  {
    if a + b > 0 {
      OrCommutes(a / 2, b / 2);
    }
  }

  /** The 16-bit word that `write_pair` stores; multiplying by 103/1024 stands for dividing by ten. */
  function PairWord(n: nat): nat
    requires n < 100
  {
    var q := n * 103 / 1024;
    var r := n - q * 10;
    Or(Or(0x3030, q), r * 256)
  }

  lemma Tenth(n: nat)
    requires n < 100
    ensures n * 103 / 1024 == n / 10 && n - n / 10 * 10 == n % 10
  {
  }

  lemma ShiftByte(x: nat)
    ensures Shift(x, 8) == 256 * x
  {
    assert Shift(x, 8) == 2 * Shift(x, 7) == 4 * Shift(x, 6) == 8 * Shift(x, 5) == 16 * Shift(x, 4);
    assert Shift(x, 4) == 2 * Shift(x, 3) == 4 * Shift(x, 2) == 8 * Shift(x, 1);
  }

  lemma Nibbles()
    ensures Pow2(4) == 16 && Pow2(8) == 256 && Shift(3, 4) == 0x30 && Shift(0x303, 4) == 0x3030
  {
  }

  lemma OrPair(q: nat, r: nat)
    requires q < 10 && r < 10
    ensures Or(Or(0x3030, q), r * 256) == 0x30 + q + 256 * (0x30 + r)
  {
    hide Pow2, Or, Shift;
    Nibbles();
    ShiftByte(r);
    ShiftByte(0x30);
    ShiftByte(0x30 + r);
    OrCommutes(0x3030, q);
    OrDisjoint(q, 0x303, 4);
    OrHigh(0x30 + q, 0x30, r, 8);
    OrCommutes(0x30, r);
    OrDisjoint(r, 3, 4);
  }

  /** The word holds the two digits, the first in its low byte. */
  lemma PairWordIs(n: nat)
    requires n < 100
    ensures PairWord(n) % 256 == 0x30 + n / 10 && PairWord(n) / 256 == 0x30 + n % 10
  {
    hide Or;
    Tenth(n);
    OrPair(n / 10, n % 10);
  }

  /** `write_pair`: two digits, by one store of the word in little-endian order. */
  method WritePair(buffer: array<char>, pos: nat, n: nat)
    requires n < 100 && pos + 2 <= buffer.Length
    modifies buffer
    ensures buffer[..] == old(buffer[..pos]) + [Digit(n / 10), Digit(n % 10)] + old(buffer[pos + 2..])
  {
    hide PairWord;
    PairWordIs(n);
    var val := PairWord(n);
    buffer[pos] := (val % 256) as char;
    buffer[pos + 1] := (val / 256) as char;
    assert buffer[pos] == Digit(n / 10) && buffer[pos + 1] == Digit(n % 10);
  }

  lemma LastDigits(n: nat)
    ensures n < 10 ==> Dec(n) == [Digit(n)]
    ensures 10 <= n < 100 ==> Dec(n) == [Digit(n / 10), Digit(n % 10)]
    ensures n >= 100 ==> Dec(n) == Dec(n / 100) + [Digit(n % 100 / 10), Digit(n % 100 % 10)]
  {
    assert n / 10 / 10 == n / 100 && n / 10 % 10 == n % 100 / 10 && n % 10 == n % 100 % 10;
  }

  /** Two more digits in front of those done. */
  method StoreTwo(buffer: array<char>, ghost was: string, pos: nat, n: nat, ghost done: string) returns (ghost done': string)
    requires n < 100 && pos + 2 + |done| <= |was| == buffer.Length
    requires buffer[..] == was[..pos + 2] + done + was[pos + 2 + |done|..]
    modifies buffer
    ensures done' == [Digit(n / 10), Digit(n % 10)] + done
    ensures buffer[..] == was[..pos] + done' + was[pos + |done'|..]
  {
    WritePair(buffer, pos, n);
    done' := [Digit(n / 10), Digit(n % 10)] + done;
  }

  /** The loop of `to_chars`, which leaves one or two digits to write. */
  method PairsFromEnd(buffer: array<char>, ghost start: nat, end: nat, n: nat) returns (pos: nat, left: nat, ghost done: string)
    requires 0 < n && start + |Dec(n)| == end <= buffer.Length
    modifies buffer
    ensures 0 < left < 100 && pos == start + |Dec(left)| && Dec(left) + done == Dec(n)
    ensures buffer[..] == old(buffer[..pos]) + done + old(buffer[pos + |done|..])
  {
    hide Dec;
    pos, left, done := end, n, "";
    ghost var was: string := buffer[..];
    while left >= 100
      invariant 0 < left && pos == start + |Dec(left)| && Dec(left) + done == Dec(n)
      invariant buffer[..] == was[..pos] + done + was[pos + |done|..]
    {
      LastDigits(left);
      var remainder := left % 100;
      ghost var more, later := Dec(left / 100), done;
      left := left / 100;
      pos := pos - 2;
      done := StoreTwo(buffer, was, pos, remainder, done);
      assert more + ([Digit(remainder / 10), Digit(remainder % 10)] + later)
          == (more + [Digit(remainder / 10), Digit(remainder % 10)]) + later;
    }
  }

  /** `to_chars` of an unsigned number, from `start` on: the text ends `CountDigits` characters later and
      nothing else is touched. */
  method ToChars(buffer: array<char>, start: nat, n: nat) returns (end: nat)
    requires n < WORD && start + |Dec(n)| <= buffer.Length
    modifies buffer
    ensures end == start + |Dec(n)|
    ensures buffer[..] == old(buffer[..start]) + Dec(n) + old(buffer[end..])
  {
    hide Dec, CountDigits;
    LastDigits(n);
    if n == 0 {
      buffer[start] := '0';
      return start + 1;
    }
    CountDigitsExact(n);
    var len := CountDigits(n);
    ghost var was, done: string := buffer[..], "";
    var pos, left;
    pos, left, done := PairsFromEnd(buffer, start, start + len, n);
    LastDigits(left);
    if left < 10 {
      pos := pos - 1;
      buffer[pos] := Digit(left);
      assert buffer[..] == was[..start] + ([Digit(left)] + done) + was[start + len..];
    } else {
      pos := pos - 2;
      done := StoreTwo(buffer, was, pos, left, done);
    }
    return start + len;
  }

  function SignedDec(n: int): string { if n < 0 then "-" + Dec(-n) else Dec(n) }

  lemma Negated(n: int)
    requires n < 0 < n + WORD
    ensures (0 - (n + WORD)) % WORD == -n
  {
  }

  /** `to_chars` of a signed number: the cast and the subtraction wrap around at 2^64. */
  method ToCharsSigned(buffer: array<char>, start: nat, n: int) returns (end: nat)
    requires -(WORD / 2) <= n < WORD / 2 && start + |SignedDec(n)| <= buffer.Length
    modifies buffer
    ensures end == start + |SignedDec(n)|
    ensures buffer[..] == old(buffer[..start]) + SignedDec(n) + old(buffer[end..])
  {
    hide Dec, CountDigits;
    if n < 0 {
      buffer[start] := '-';
      Negated(n);
      var magnitude := (0 - (n + WORD)) % WORD;
      end := ToChars(buffer, start + 1, magnitude);
    } else {
      end := ToChars(buffer, start, n);
    }
  }

  /** What is printed parses back: an optional sign and a canonical string of digits with the number's value. */
  lemma PrintedParsesBack(n: int)
    ensures var s := SignedDec(n);
            if n < 0 then s[0] == '-' && Canonical(s[1..]) && ValueOf(s[1..]) == -n else Canonical(s) && ValueOf(s) == n
  {
    DecExact(Dec(if n < 0 then -n else n), if n < 0 then -n else n);
    if n < 0 {
      assert SignedDec(n)[1..] == Dec(-n);
    }
  }
}
