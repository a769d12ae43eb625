/** The two wire formats of KzRpc/Serializer.h. `varint` says which: base-128 numbers with ZigZag for
    signed ones, or fixed-width little-endian numbers. */
module WireFormat {
  import opened Bits

  datatype Error = Ok | EndOfBuffer | VarintOverflow

  /** What reading from the front of a text gives: a value and how many bytes it took, or why not. */
  datatype Outcome<T> = Got(value: T, used: nat) | Failed(error: Error)

  // ---------------------------------------------------------------- integers

  datatype Width = W8 | W16 | W32 | W64

  function Bytes(w: Width): (n: nat)
    ensures n > 0
  {
    match w case W8 => 1 case W16 => 2 case W32 => 4 case W64 => 8
  }

  function Modulus(w: Width): nat {
    match w
    case W8 => 0x100
    case W16 => 0x1_0000
    case W32 => 0x1_0000_0000
    case W64 => 0x1_0000_0000_0000_0000
  }

  lemma ModulusIs(w: Width)
    ensures Modulus(w) == Pow2(8 * Bytes(w))
  {
    hide Pow2;
    WidthsAre();
  }

  predicate InRange(v: int, w: Width, signed: bool) {
    if signed then -(Modulus(w) / 2) <= v < Modulus(w) / 2 else 0 <= v < Modulus(w)
  }

  /** Two's complement. */
  function ToUnsigned(v: int, w: Width): (n: nat)
    requires v + Modulus(w) >= 0
  {
    if v < 0 then v + Modulus(w) else v
  }

  function ToSigned(n: nat, w: Width): int {
    if n >= Modulus(w) / 2 then n - Modulus(w) else n
  }

  /** The shift by one loses the top bit; the arithmetic shift of the sign gives all zeros or all ones. */
  function ZigZag(v: int, w: Width): nat
    requires InRange(v, w, true)
  {
    Xor(Low(2 * ToUnsigned(v, w), 8 * Bytes(w)), if v < 0 then Modulus(w) - 1 else 0)
  }

  function UnZigZag(n: nat, w: Width): int {
    ToSigned(Xor(n / 2, if n % 2 == 1 then Modulus(w) - 1 else 0), w)
  }

  /** ZigZag counts 0, -1, 1, -2, 2, ... */
  lemma ZigZagIs(v: int, w: Width)
    requires InRange(v, w, true)
    ensures ZigZag(v, w) == (if v >= 0 then 2 * v else -2 * v - 1) < Modulus(w)
  {
    var bits, u := 8 * Bytes(w), ToUnsigned(v, w);
    ModulusIs(w);
    if v >= 0 {
      LowFacts(2 * u, bits);
      XorZero(2 * u);
    } else {
      LowDrops(2 * v + Modulus(w), bits);
      XorOnes(2 * v + Modulus(w), bits);
    }
  }

  lemma {:induction false} LowDrops(x: nat, k: nat)
    requires x < Pow2(k)
    ensures Low(x + Pow2(k), k) == x
    decreases k
  {
    if k > 0 {
      assert (x + 2 * Pow2(k - 1)) / 2 == x / 2 + Pow2(k - 1);
      LowDrops(x / 2, k - 1);
    }
  }

  lemma UnZigZagIs(n: nat, w: Width)
    requires n < Modulus(w)
    ensures UnZigZag(n, w) == (if n % 2 == 0 then n / 2 else -(n / 2) - 1) && InRange(UnZigZag(n, w), w, true)
  {
    ModulusIs(w);
    XorZero(n / 2);
    XorOnes(n / 2, 8 * Bytes(w));
  }

  /** ZigZag and its inverse. */
  lemma ZigZagInverse(v: int, n: nat, w: Width)
    requires InRange(v, w, true) && n < Modulus(w)
    ensures UnZigZag(ZigZag(v, w), w) == v
    ensures InRange(UnZigZag(n, w), w, true) && ZigZag(UnZigZag(n, w), w) == n
  {
    hide ZigZag, UnZigZag;
    ZigZagIs(v, w);
    UnZigZagIs(ZigZag(v, w), w);
    UnZigZagIs(n, w);
    ZigZagIs(UnZigZag(n, w), w);
  }

  // ---------------------------------------------------------------- base-128 numbers

  /** Seven bits a byte, lowest first; all but the last have the top bit set. */
  function Varint(n: nat): (s: seq<byte>)
    ensures s != []
  {
    if n < 128 then [n] else [n % 128 + 128] + Varint(n / 128)
  }

  /** The loop of `read_varint`: what has been read of the number, and at which bit the next byte goes. */
  function VarintFrom(s: seq<byte>, bits: nat, result: nat, shift: nat): Outcome<nat> {
    if s == [] then Failed(EndOfBuffer)
    else if shift >= bits then Failed(VarintOverflow)
    else
      var r := Or(result, Low(Shift(s[0] % 128, shift), bits));
      if s[0] < 128 then Got(r, 1) else OneMore(VarintFrom(s[1..], bits, r, shift + 7))
  }

  function OneMore<T>(o: Outcome<T>): Outcome<T> { if o.Got? then o.(used := o.used + 1) else o }

  /** Seven bits, put at `shift` above what has been read. */
  lemma PutSeven(c: nat, shift: nat, bits: nat, result: nat)
    requires c < 128 && result < Pow2(shift)
    ensures var r := Or(result, Low(Shift(c, shift), bits));
            r < Pow2(shift + 7) && (result < Pow2(bits) ==> r < Pow2(bits))
    ensures Shift(c, shift) < Pow2(bits) ==> Or(result, Low(Shift(c, shift), bits)) == result + Shift(c, shift)
  {
    hide Pow2, Or, Low, Shift;
    var x := Shift(c, shift);
    LowFacts(x, bits);
    OrAtMost(result, Low(x, bits));
    Pow2Seven(shift);
    ShiftGrows(c, 127, shift);
    ShiftOne(shift);
    if result < Pow2(bits) {
      OrBelow(result, Low(x, bits), bits);
    }
    OrDisjoint(result, c, shift);
  }

  /** What the rest of a number adds. */
  lemma Scaled(n: nat, shift: nat)
    ensures Shift(n, shift) == Shift(n % 128, shift) + Shift(n / 128, shift + 7)
    ensures n >= 128 ==> Shift(n / 128, shift + 7) >= Pow2(shift + 7)
  {
    hide Shift, Pow2;
    ShiftSum(128 * (n / 128), n % 128, shift);
    ShiftSum(n / 128, 0, shift);
    ShiftSeven(n / 128, shift);
    ShiftOne(shift + 7);
    if n >= 128 {
      ShiftGrows(1, n / 128, shift + 7);
    }
  }

  lemma {:induction false} VarintRoundTrip(n: nat, rest: seq<byte>, bits: nat, result: nat, shift: nat)
    requires result < Pow2(shift) && shift < bits && result + Shift(n, shift) < Pow2(bits)
    ensures VarintFrom(Varint(n) + rest, bits, result, shift) == Got(result + Shift(n, shift), |Varint(n)|)
    decreases n
  {
    hide Pow2, Or, Low, Shift;
    Scaled(n, shift);
    PutSeven(n % 128, shift, bits, result);
    if n < 128 {
      assert n % 128 == n;
    } else {
      if shift + 7 >= bits {
        Pow2Grows(bits, shift + 7);
      }
      assert (Varint(n) + rest)[1..] == Varint(n / 128) + rest;
      VarintRoundTrip(n / 128, rest, bits, result + Shift(n % 128, shift), shift + 7);
    }
  }

  /** A number that has been read is not longer than what has been read, nor wider than its type. */
  lemma {:induction false} VarintBounds(s: seq<byte>, bits: nat, result: nat, shift: nat)
    requires result < Pow2(shift) && result < Pow2(bits) && VarintFrom(s, bits, result, shift).Got?
    ensures var o := VarintFrom(s, bits, result, shift);
            0 < o.used <= |s| && o.value < Pow2(shift + 7 * o.used) && o.value < Pow2(bits)
    decreases |s|
  {
    hide Pow2, Or, Low, Shift;
    PutSeven(s[0] % 128, shift, bits, result);
    if s[0] >= 128 {
      VarintBounds(s[1..], bits, Or(result, Low(Shift(s[0] % 128, shift), bits)), shift + 7);
    }
  }

  lemma {:induction false} VarintLength(n: nat, k: nat)
    requires k > 0 && n < Pow2(7 * k)
    ensures |Varint(n)| <= k
    decreases k
  {
    if n >= 128 {
      Pow2Seven(7 * (k - 1));
      VarintLength(n / 128, k - 1);
    }
  }

  // ---------------------------------------------------------------- values and their encoding

  datatype Type = BoolT | IntT(width: Width, signed: bool) | FloatT(width: Width) | StrT | VecT(elem: Type)

  /** A floating-point number is the bytes it has in memory. */
  datatype Value = Bool(b: bool) | Int(i: int) | Float(image: seq<byte>) | Str(chars: seq<byte>) | Vec(items: seq<Value>)

  predicate HasType(t: Type, v: Value) {
    match t
    case BoolT => v.Bool?
    case IntT(w, signed) => v.Int? && InRange(v.i, w, signed)
    case FloatT(w) => v.Float? && |v.image| == Bytes(w)
    case StrT => v.Str? && |v.chars| < Modulus(W64)
    case VecT(elem) => v.Vec? && |v.items| < Modulus(W64) && AllHaveType(elem, v.items)
  }

  predicate AllHaveType(t: Type, vs: seq<Value>) { forall i | 0 <= i < |vs| :: HasType(t, vs[i]) }

  function EncodeInt(i: int, w: Width, signed: bool, varint: bool): (s: seq<byte>)
    requires InRange(i, w, signed)
    ensures s != []
  {
    if varint then Varint(if signed then ZigZag(i, w) else i) else LittleEndian(ToUnsigned(i, w), Bytes(w))
  }

  /** In the fixed format a size is cast to 32 bits. */
  function EncodeSize(n: nat, varint: bool): (s: seq<byte>)
    ensures s != []
  {
    if varint then Varint(n) else LittleEndian(Low(n, 32), 4)
  }

  /** `operator<<`. A vector without elements leaves no trace. */
  function Encode(t: Type, v: Value, varint: bool): seq<byte>
    requires HasType(t, v)
    decreases t, 0
  {
    match t
    case BoolT => [if v.b then 1 else 0]
    case IntT(w, signed) => EncodeInt(v.i, w, signed, varint)
    case FloatT(_) => v.image
    case StrT => EncodeSize(|v.chars|, varint) + v.chars
    case VecT(elem) => if v.items == [] then [] else EncodeSize(|v.items|, varint) + EncodeAll(elem, v.items, varint)
  }

  function EncodeAll(t: Type, vs: seq<Value>, varint: bool): seq<byte>
    requires AllHaveType(t, vs)
    decreases t, |vs| + 1
  {
    if vs == [] then [] else Encode(t, vs[0], varint) + EncodeAll(t, vs[1..], varint)
  }

  function FixedFrom(s: seq<byte>, w: nat): Outcome<nat> {
    if |s| < w then Failed(EndOfBuffer) else Got(FromLittleEndian(s[..w]), w)
  }

  function NatFrom(s: seq<byte>, w: nat, varint: bool): Outcome<nat> {
    if varint then VarintFrom(s, 8 * w, 0, 0) else FixedFrom(s, w)
  }

  function IntOf(n: nat, w: Width, signed: bool, varint: bool): int {
    if !signed then n else if varint then UnZigZag(n, w) else ToSigned(n, w)
  }

  function DecodeInt(s: seq<byte>, w: Width, signed: bool, varint: bool): Outcome<int> {
    match NatFrom(s, Bytes(w), varint)
    case Got(n, used) => Got(IntOf(n, w, signed, varint), used)
    case Failed(e) => Failed(e)
  }

  function DecodeSize(s: seq<byte>, varint: bool): Outcome<nat> { NatFrom(s, if varint then 8 else 4, varint) }

  lemma SizeUsed(s: seq<byte>, varint: bool)
    requires DecodeSize(s, varint).Got?
    ensures 0 < DecodeSize(s, varint).used <= |s|
  {
    if varint {
      VarintBounds(s, 64, 0, 0);
    }
  }

  /** `operator>>`, element by element. */
  function Decode(t: Type, s: seq<byte>, varint: bool): Outcome<Value>
    decreases t, 0, 0
  {
    match t
    case BoolT => if s == [] then Failed(EndOfBuffer) else Got(Bool(s[0] != 0), 1)
    case IntT(w, signed) =>
      (match DecodeInt(s, w, signed, varint)
       case Got(i, used) => Got(Int(i), used)
       case Failed(e) => Failed(e))
    case FloatT(w) => if |s| < Bytes(w) then Failed(EndOfBuffer) else Got(Float(s[..Bytes(w)]), Bytes(w))
    case StrT =>
      (match DecodeSize(s, varint)
       case Got(n, k) =>
         SizeUsed(s, varint);
         if |s| - k < n then Failed(EndOfBuffer) else Got(Str(s[k..k + n]), k + n)
       case Failed(e) => Failed(e))
    case VecT(elem) =>
      (match DecodeSize(s, varint)
       case Got(n, k) =>
         SizeUsed(s, varint);
         if n > |s| - k then Failed(EndOfBuffer) else AsVector(DecodeMany(elem, n, s[k..], varint), k)
       case Failed(e) => Failed(e))
  }

  function AsVector(o: Outcome<seq<Value>>, k: nat): Outcome<Value> {
    match o case Got(vs, used) => Got(Vec(vs), k + used) case Failed(e) => Failed(e)
  }

  function DecodeMany(t: Type, n: nat, s: seq<byte>, varint: bool): Outcome<seq<Value>>
    decreases t, 1, n
  {
    if n == 0 then Got([], 0)
    else
      match Decode(t, s, varint)
      case Got(v, k) => if k > |s| then Failed(EndOfBuffer) else InFront(v, k, DecodeMany(t, n - 1, s[k..], varint))
      case Failed(e) => Failed(e)
  }

  function InFront(v: Value, k: nat, o: Outcome<seq<Value>>): Outcome<seq<Value>> {
    match o case Got(vs, used) => Got([v] + vs, k + used) case Failed(e) => Failed(e)
  }

  // ---------------------------------------------------------------- what comes back

  /** No vector anywhere in the value is empty. */
  predicate NoEmptyVector(v: Value) {
    v.Vec? ==> v.items != [] && forall i | 0 <= i < |v.items| :: NoEmptyVector(v.items[i])
  }

  /** The fixed format has 32 bits for a size. */
  predicate SizesFit(v: Value, varint: bool) {
    match v
    case Str(chars) => varint || |chars| < Modulus(W32)
    case Vec(items) => (varint || |items| < Modulus(W32)) && forall i | 0 <= i < |items| :: SizesFit(items[i], varint)
    case _ => true
  }

  predicate Storable(v: Value, varint: bool) { NoEmptyVector(v) && SizesFit(v, varint) }

  lemma NatRoundTrip(n: nat, w: Width, varint: bool, rest: seq<byte>)
    requires n < Modulus(w)
    ensures var s := if varint then Varint(n) else LittleEndian(n, Bytes(w));
            NatFrom(s + rest, Bytes(w), varint) == Got(n, |s|)
  {
    ModulusIs(w);
    if varint {
      VarintRoundTrip(n, rest, 8 * Bytes(w), 0, 0);
    } else {
      BytesRoundTrip(n, Bytes(w));
      assert (LittleEndian(n, Bytes(w)) + rest)[..Bytes(w)] == LittleEndian(n, Bytes(w));
    }
  }

  lemma NatBounds(s: seq<byte>, w: Width, varint: bool)
    requires NatFrom(s, Bytes(w), varint).Got?
    ensures var o := NatFrom(s, Bytes(w), varint);
            0 < o.used <= |s| && o.value < Modulus(w) && o.used >= if varint then |Varint(o.value)| else Bytes(w)
  {
    ModulusIs(w);
    if varint {
      VarintBounds(s, 8 * Bytes(w), 0, 0);
      var o := NatFrom(s, Bytes(w), varint);
      VarintLength(o.value, o.used);
    } else {
      FromLittleEndianBelow(s[..Bytes(w)]);
    }
  }

  lemma IntRoundTrip(i: int, w: Width, signed: bool, varint: bool, rest: seq<byte>)
    requires InRange(i, w, signed)
    ensures DecodeInt(EncodeInt(i, w, signed, varint) + rest, w, signed, varint) == Got(i, |EncodeInt(i, w, signed, varint)|)
  {
    if signed && varint {
      ZigZagIs(i, w);
      ZigZagInverse(i, 0, w);
      NatRoundTrip(ZigZag(i, w), w, varint, rest);
    } else {
      NatRoundTrip(ToUnsigned(i, w), w, varint, rest);
    }
  }

  /** Whatever an integer is read from, it is in range and took at least its own encoding's length. */
  lemma IntBounds(s: seq<byte>, w: Width, signed: bool, varint: bool)
    requires DecodeInt(s, w, signed, varint).Got?
    ensures var o := DecodeInt(s, w, signed, varint);
            0 < o.used <= |s| && InRange(o.value, w, signed) && o.used >= |EncodeInt(o.value, w, signed, varint)|
  {
    NatBounds(s, w, varint);
    var n := NatFrom(s, Bytes(w), varint).value;
    if signed && varint {
      UnZigZagIs(n, w);
      ZigZagInverse(0, n, w);
    }
  }

  lemma SizeRoundTrip(n: nat, varint: bool, rest: seq<byte>)
    requires n < Modulus(if varint then W64 else W32)
    ensures DecodeSize(EncodeSize(n, varint) + rest, varint) == Got(n, |EncodeSize(n, varint)|)
  {
    ModulusIs(W32);
    LowFacts(n, 32);
    NatRoundTrip(n, if varint then W64 else W32, varint, rest);
  }

  lemma SizeBounds(s: seq<byte>, varint: bool)
    requires DecodeSize(s, varint).Got?
    ensures var o := DecodeSize(s, varint);
            0 < o.used <= |s| && o.value < Modulus(if varint then W64 else W32) && o.used >= |EncodeSize(o.value, varint)|
  {
    NatBounds(s, if varint then W64 else W32, varint);
  }

  lemma ScalarBack(t: Type, v: Value, varint: bool, rest: seq<byte>)
    requires HasType(t, v) && (t.BoolT? || t.IntT? || t.FloatT?)
    ensures var s := Encode(t, v, varint); s != [] && Decode(t, s + rest, varint) == Got(v, |s|)
  {
    hide EncodeInt, DecodeInt;
    match t
    case BoolT =>
    case IntT(w, signed) => IntRoundTrip(v.i, w, signed, varint, rest);
    case FloatT(w) => assert (v.image + rest)[..Bytes(w)] == v.image;
  }

  lemma StringBack(chars: seq<byte>, varint: bool, rest: seq<byte>)
    requires HasType(StrT, Str(chars)) && SizesFit(Str(chars), varint)
    ensures var s := Encode(StrT, Str(chars), varint); s != [] && Decode(StrT, s + rest, varint) == Got(Str(chars), |s|)
  {
    hide EncodeSize, DecodeSize;
    var s, size, n := Encode(StrT, Str(chars), varint), EncodeSize(|chars|, varint), |chars|;
    SizeRoundTrip(n, varint, chars + rest);
    assert s + rest == size + (chars + rest);
    assert (s + rest)[|size|..|size| + n] == chars;
  }

  lemma VectorBack(elem: Type, vs: seq<Value>, varint: bool, rest: seq<byte>)
    requires HasType(VecT(elem), Vec(vs)) && SizesFit(Vec(vs), varint) && vs != []
    requires var all := EncodeAll(elem, vs, varint);
             |all| >= |vs| && DecodeMany(elem, |vs|, all + rest, varint) == Got(vs, |all|)
    ensures var t, v := VecT(elem), Vec(vs); var s := Encode(t, v, varint);
            s != [] && Decode(t, s + rest, varint) == Got(v, |s|)
  {
    hide EncodeSize, DecodeSize, EncodeAll, DecodeMany, AllHaveType;
    var size, all := EncodeSize(|vs|, varint), EncodeAll(elem, vs, varint);
    var s := size + all + rest;
    SizeRoundTrip(|vs|, varint, all + rest);
    assert s == size + (all + rest) && s[|size|..] == all + rest;
  }

  lemma {:induction false} StorableComesBack(t: Type, v: Value, varint: bool, rest: seq<byte>)
    requires HasType(t, v) && Storable(v, varint)
    ensures var s := Encode(t, v, varint); s != [] && Decode(t, s + rest, varint) == Got(v, |s|)
    decreases t, 0
  {
    hide Encode, Decode;
    match t
    case StrT => StringBack(v.chars, varint, rest);
    case VecT(elem) =>
      AllComeBack(elem, v.items, varint, rest);
      VectorBack(elem, v.items, varint, rest);
    case _ => ScalarBack(t, v, varint, rest);
  }

  lemma {:induction false} AllComeBack(t: Type, vs: seq<Value>, varint: bool, rest: seq<byte>)
    requires AllHaveType(t, vs) && forall i | 0 <= i < |vs| :: Storable(vs[i], varint)
    ensures var s := EncodeAll(t, vs, varint); |s| >= |vs| && DecodeMany(t, |vs|, s + rest, varint) == Got(vs, |s|)
    decreases t, |vs| + 1
  {
    hide Encode, Decode, HasType, Storable;
    if vs != [] {
      var s0, s1 := Encode(t, vs[0], varint), EncodeAll(t, vs[1..], varint);
      StorableComesBack(t, vs[0], varint, s1 + rest);
      AllComeBack(t, vs[1..], varint, rest);
      TwoParts(s0, s1, rest);
      assert vs == [vs[0]] + vs[1..];
    }
  }

  lemma TwoParts(s0: seq<byte>, s1: seq<byte>, rest: seq<byte>)
    ensures (s0 + s1) + rest == s0 + (s1 + rest) && (s0 + (s1 + rest))[|s0|..] == s1 + rest
  {
  }

  /** The length of the shortest text that decodes to the value: every size written, even if it is 0. */
  function FullLength(t: Type, v: Value, varint: bool): nat
    requires HasType(t, v)
    decreases t, 0
  {
    match t
    case BoolT => 1
    case IntT(w, signed) => |EncodeInt(v.i, w, signed, varint)|
    case FloatT(w) => Bytes(w)
    case StrT => |EncodeSize(|v.chars|, varint)| + |v.chars|
    case VecT(elem) => |EncodeSize(|v.items|, varint)| + FullLengths(elem, v.items, varint)
  }

  function FullLengths(t: Type, vs: seq<Value>, varint: bool): nat
    requires AllHaveType(t, vs)
    decreases t, |vs| + 1
  {
    if vs == [] then 0 else FullLength(t, vs[0], varint) + FullLengths(t, vs[1..], varint)
  }

  /** What is written falls short of that exactly if some vector is empty. */
  lemma {:induction false} EncodedLength(t: Type, v: Value, varint: bool)
    requires HasType(t, v)
    ensures |Encode(t, v, varint)| <= FullLength(t, v, varint)
    ensures |Encode(t, v, varint)| == FullLength(t, v, varint) <==> NoEmptyVector(v)
    decreases t, 0
  {
    if t.VecT? {
      EncodedLengths(t.elem, v.items, varint);
    }
  }

  lemma {:induction false} EncodedLengths(t: Type, vs: seq<Value>, varint: bool)
    requires AllHaveType(t, vs)
    ensures |EncodeAll(t, vs, varint)| <= FullLengths(t, vs, varint)
    ensures |EncodeAll(t, vs, varint)| == FullLengths(t, vs, varint) <==> forall i | 0 <= i < |vs| :: NoEmptyVector(vs[i])
    decreases t, |vs| + 1
  {
    if vs != [] {
      EncodedLength(t, vs[0], varint);
      EncodedLengths(t, vs[1..], varint);
      assert forall i | 1 <= i < |vs| :: vs[i] == vs[1..][i - 1];
      assert (forall i | 0 <= i < |vs[1..]| :: NoEmptyVector(vs[1..][i])) <==> forall i | 1 <= i < |vs| :: NoEmptyVector(vs[i]);
    }
  }

  /** Whatever a value is read from, it has its type, its sizes fit, and it took its full length. */
  lemma {:induction false} ValueBounds(t: Type, s: seq<byte>, varint: bool)
    requires Decode(t, s, varint).Got?
    ensures var o := Decode(t, s, varint);
            o.used <= |s| && HasType(t, o.value) && SizesFit(o.value, varint) && o.used >= FullLength(t, o.value, varint) > 0
    decreases t, 0, 0
  {
    match t
    case BoolT =>
    case IntT(w, signed) => IntBounds(s, w, signed, varint);
    case FloatT(w) =>
    case StrT => SizeBounds(s, varint);
    case VecT(elem) =>
      SizeBounds(s, varint);
      var o := DecodeSize(s, varint);
      ManyBounds(elem, o.value, s[o.used..], varint);
  }

  lemma {:induction false} ManyBounds(t: Type, n: nat, s: seq<byte>, varint: bool)
    requires DecodeMany(t, n, s, varint).Got?
    ensures var o := DecodeMany(t, n, s, varint);
            && o.used <= |s| && |o.value| == n && AllHaveType(t, o.value)
            && (forall i | 0 <= i < n :: SizesFit(o.value[i], varint)) && o.used >= FullLengths(t, o.value, varint)
    decreases t, 1, n
  {
    if n > 0 {
      ValueBounds(t, s, varint);
      var o := Decode(t, s, varint);
      ManyBounds(t, n - 1, s[o.used..], varint);
      var vs := DecodeMany(t, n, s, varint).value;
      assert vs[1..] == DecodeMany(t, n - 1, s[o.used..], varint).value;
    }
  }

  /** Serializing and deserializing, whatever follows: the value comes back, and exactly what was written
      is consumed, if and only if no vector in it is empty and, in the fixed format, every size is below 2^32. */
  lemma RoundTrip(t: Type, v: Value, varint: bool, rest: seq<byte>)
    requires HasType(t, v)
    ensures var s := Encode(t, v, varint); Decode(t, s + rest, varint) == Got(v, |s|) <==> Storable(v, varint)
  {
    var s := Encode(t, v, varint);
    if Storable(v, varint) {
      StorableComesBack(t, v, varint, rest);
    }
    if Decode(t, s + rest, varint) == Got(v, |s|) {
      ValueBounds(t, s + rest, varint);
      EncodedLength(t, v, varint);
    }
  }

  // ---------------------------------------------------------------- sequences of fields

  predicate FieldsHaveTypes(ts: seq<Type>, vs: seq<Value>) {
    |ts| == |vs| && forall i | 0 <= i < |vs| :: HasType(ts[i], vs[i])
  }

  function EncodeFields(ts: seq<Type>, vs: seq<Value>, varint: bool): seq<byte>
    requires FieldsHaveTypes(ts, vs)
  {
    if vs == [] then [] else Encode(ts[0], vs[0], varint) + EncodeFields(ts[1..], vs[1..], varint)
  }

  /** One `operator>>` after the other, up to the first that fails. */
  function DecodeFields(ts: seq<Type>, s: seq<byte>, varint: bool): Outcome<seq<Value>> {
    if ts == [] then Got([], 0)
    else
      match Decode(ts[0], s, varint)
      case Got(v, k) => if k > |s| then Failed(EndOfBuffer) else InFront(v, k, DecodeFields(ts[1..], s[k..], varint))
      case Failed(e) => Failed(e)
  }

  lemma {:induction false} FieldsComeBack(ts: seq<Type>, vs: seq<Value>, varint: bool, rest: seq<byte>)
    requires FieldsHaveTypes(ts, vs) && forall i | 0 <= i < |vs| :: Storable(vs[i], varint)
    ensures var s := EncodeFields(ts, vs, varint); DecodeFields(ts, s + rest, varint) == Got(vs, |s|)
    decreases |vs|
  {
    hide Encode, Decode, HasType, Storable;
    if vs != [] {
      var s0, s1 := Encode(ts[0], vs[0], varint), EncodeFields(ts[1..], vs[1..], varint);
      StorableComesBack(ts[0], vs[0], varint, s1 + rest);
      FieldsComeBack(ts[1..], vs[1..], varint, rest);
      assert (s0 + s1) + rest == s0 + (s1 + rest) && (s0 + (s1 + rest))[|s0|..] == s1 + rest;
      assert vs == [vs[0]] + vs[1..];
    }
  }

  function FieldLengths(ts: seq<Type>, vs: seq<Value>, varint: bool): nat
    requires FieldsHaveTypes(ts, vs)
  {
    if vs == [] then 0 else FullLength(ts[0], vs[0], varint) + FieldLengths(ts[1..], vs[1..], varint)
  }

  lemma {:induction false} FieldBounds(ts: seq<Type>, s: seq<byte>, varint: bool)
    requires DecodeFields(ts, s, varint).Got?
    ensures var o := DecodeFields(ts, s, varint);
            && FieldsHaveTypes(ts, o.value) && o.used >= FieldLengths(ts, o.value, varint)
            && forall i | 0 <= i < |ts| :: SizesFit(o.value[i], varint)
    decreases |ts|
  {
    hide Decode, HasType, SizesFit, FullLength;
    if ts != [] {
      ValueBounds(ts[0], s, varint);
      var k, vs := Decode(ts[0], s, varint).used, DecodeFields(ts, s, varint).value;
      FieldBounds(ts[1..], s[k..], varint);
      assert vs[1..] == DecodeFields(ts[1..], s[k..], varint).value;
    }
  }

  lemma {:induction false} EncodedFieldLengths(ts: seq<Type>, vs: seq<Value>, varint: bool)
    requires FieldsHaveTypes(ts, vs)
    ensures |EncodeFields(ts, vs, varint)| <= FieldLengths(ts, vs, varint)
    ensures |EncodeFields(ts, vs, varint)| == FieldLengths(ts, vs, varint) ==> forall i | 0 <= i < |vs| :: NoEmptyVector(vs[i])
    decreases |vs|
  {
    hide Encode, HasType, NoEmptyVector, FullLength;
    if vs != [] {
      EncodedLength(ts[0], vs[0], varint);
      EncodedFieldLengths(ts[1..], vs[1..], varint);
      assert forall i | 1 <= i < |vs| :: vs[i] == vs[1..][i - 1];
    }
  }

  /** The same for a message of any fields: all of them come back and exactly what was written is consumed,
      if and only if each of them can be stored. */
  lemma FieldsRoundTrip(ts: seq<Type>, vs: seq<Value>, varint: bool, rest: seq<byte>)
    requires FieldsHaveTypes(ts, vs)
    ensures var s := EncodeFields(ts, vs, varint);
            DecodeFields(ts, s + rest, varint) == Got(vs, |s|) <==> forall i | 0 <= i < |vs| :: Storable(vs[i], varint)
  {
    hide NoEmptyVector, SizesFit, HasType;
    var s := EncodeFields(ts, vs, varint);
    if forall i | 0 <= i < |vs| :: Storable(vs[i], varint) {
      FieldsComeBack(ts, vs, varint, rest);
    }
    if DecodeFields(ts, s + rest, varint) == Got(vs, |s|) {
      FieldBounds(ts, s + rest, varint);
      EncodedFieldLengths(ts, vs, varint);
    }
  }

  // ---------------------------------------------------------------- one copy for a whole vector

  predicate TriviallyCopyable(t: Type) { t.IntT? || t.FloatT? }

  function SizeOf(t: Type): (n: nat)
    requires TriviallyCopyable(t)
    ensures n == 1 || n == 2 || n == 4 || n == 8
  {
    Bytes(t.width)
  }

  /** How an element lies in memory. */
  function Flat(t: Type, v: Value): (s: seq<byte>)
    requires TriviallyCopyable(t) && HasType(t, v)
    ensures |s| == SizeOf(t)
  {
    if t.IntT? then LittleEndian(ToUnsigned(v.i, t.width), Bytes(t.width)) else v.image
  }

  function Unflat(t: Type, s: seq<byte>): Value
    requires TriviallyCopyable(t) && |s| == SizeOf(t)
  {
    if t.IntT? then Int(IntOf(FromLittleEndian(s), t.width, t.signed, false)) else Float(s)
  }

  lemma Slot(k: nat, n: nat, w: nat)
    requires (w == 1 || w == 2 || w == 4 || w == 8) && k < n * w
    ensures k / w < n && k % w < w
    ensures k < w ==> k / w == 0 && k % w == k
    ensures k >= w ==> (k - w) / w == k / w - 1 && (k - w) % w == k % w && k - w < (n - 1) * w
  {
  }

  /** Byte `k` of the elements as they lie in memory, one after the other. */
  function MemoryByte(t: Type, vs: seq<Value>, k: nat): byte
    requires TriviallyCopyable(t) && AllHaveType(t, vs) && k < |vs| * SizeOf(t)
  {
    var w := SizeOf(t);
    Slot(k, |vs|, w);
    Flat(t, vs[k / w])[k % w]
  }

  /** The bytes that one copy appends. */
  function MemoryImage(t: Type, vs: seq<Value>): seq<byte>
    requires TriviallyCopyable(t) && AllHaveType(t, vs)
  {
    seq(|vs| * SizeOf(t), k requires 0 <= k < |vs| * SizeOf(t) => MemoryByte(t, vs, k))
  }

  lemma MemoryStep(t: Type, vs: seq<Value>, k: nat)
    requires TriviallyCopyable(t) && AllHaveType(t, vs) && k < |vs| * SizeOf(t)
    ensures vs != [] && (k < SizeOf(t) ==> MemoryByte(t, vs, k) == Flat(t, vs[0])[k])
    ensures k >= SizeOf(t) ==> k - SizeOf(t) < |vs[1..]| * SizeOf(t) && MemoryByte(t, vs, k) == MemoryByte(t, vs[1..], k - SizeOf(t))
  {
    hide HasType, Flat, SizeOf;
    Slot(k, |vs|, SizeOf(t));
  }

  lemma {:induction false} EncodedByte(t: Type, vs: seq<Value>, k: nat)
    requires TriviallyCopyable(t) && AllHaveType(t, vs)
    ensures |EncodeAll(t, vs, false)| == |vs| * SizeOf(t)
    ensures k < |vs| * SizeOf(t) ==> EncodeAll(t, vs, false)[k] == MemoryByte(t, vs, k)
    decreases |vs|
  {
    hide HasType, Encode, Flat, SizeOf, MemoryByte;
    if vs != [] {
      var w := SizeOf(t);
      FlatIsEncoding(t, vs[0]);
      OneLess(|vs|, w);
      EncodedByte(t, vs[1..], if k < w then 0 else k - w);
      if k < |vs| * w {
        MemoryStep(t, vs, k);
      }
    }
  }

  lemma OneLess(n: nat, w: nat)
    requires n > 0
    ensures n * w == w + (n - 1) * w
  {
  }

  lemma AtLeastOnce(n: nat, w: nat)
    requires n > 0
    ensures n * w >= w
  {
  }

  lemma FlatIsEncoding(t: Type, v: Value)
    requires TriviallyCopyable(t) && HasType(t, v)
    ensures Encode(t, v, false) == Flat(t, v)
  {
  }

  /** Writing: the one copy appends what writing the elements one by one appends. */
  lemma BulkWrite(t: Type, vs: seq<Value>)
    requires TriviallyCopyable(t) && AllHaveType(t, vs)
    ensures MemoryImage(t, vs) == EncodeAll(t, vs, false)
  {
    EncodedByte(t, vs, 0);
    forall k: nat | k < |vs| * SizeOf(t)
      ensures EncodeAll(t, vs, false)[k] == MemoryByte(t, vs, k)
    {
      EncodedByte(t, vs, k);
    }
  }

  lemma ElementFits(i: nat, n: nat, w: nat)
    requires i < n && (w == 1 || w == 2 || w == 4 || w == 8)
    ensures i * w <= (i + 1) * w <= n * w && (i + 1) * w - i * w == w
  {
  }

  /** Element `i` of the vector that one copy from `s` fills. */
  function Element(t: Type, n: nat, s: seq<byte>, i: nat): Value
    requires TriviallyCopyable(t) && n * SizeOf(t) <= |s| && i < n
  {
    ElementFits(i, n, SizeOf(t));
    Unflat(t, s[i * SizeOf(t)..(i + 1) * SizeOf(t)])
  }

  function FromImage(t: Type, n: nat, s: seq<byte>): seq<Value>
    requires TriviallyCopyable(t) && n * SizeOf(t) <= |s|
  {
    seq(n, i requires 0 <= i < n => Element(t, n, s, i))
  }

  lemma OneElement(t: Type, s: seq<byte>)
    requires TriviallyCopyable(t)
    ensures Decode(t, s, false) == if |s| < SizeOf(t) then Failed(EndOfBuffer) else Got(Unflat(t, s[..SizeOf(t)]), SizeOf(t))
  {
  }

  lemma NextElement(t: Type, n: nat, s: seq<byte>, i: nat)
    requires TriviallyCopyable(t) && n * SizeOf(t) <= |s| && i + 1 < n
    ensures SizeOf(t) <= |s| && (n - 1) * SizeOf(t) <= |s| - SizeOf(t)
    ensures Element(t, n - 1, s[SizeOf(t)..], i) == Element(t, n, s, i + 1)
  {
    var w := SizeOf(t);
    OneLess(n, w);
    OneLess(i + 1, w);
    OneLess(i + 2, w);
    ElementFits(i + 1, n, w);
    ElementFits(i, n - 1, w);
    SliceLater(s, w, i * w);
  }

  lemma SliceLater(s: seq<byte>, w: nat, a: nat)
    requires w + a + w <= |s|
    ensures s[w..][a..a + w] == s[w + a..w + a + w]
  {
  }

  lemma FirstAndRest(t: Type, n: nat, s: seq<byte>)
    requires TriviallyCopyable(t) && n > 0 && n * SizeOf(t) <= |s|
    ensures SizeOf(t) <= |s| && (n - 1) * SizeOf(t) <= |s| - SizeOf(t)
    ensures FromImage(t, n, s) == [Unflat(t, s[..SizeOf(t)])] + FromImage(t, n - 1, s[SizeOf(t)..])
  {
    hide Unflat;
    OneLess(n, SizeOf(t));
    var all, rest := FromImage(t, n, s), FromImage(t, n - 1, s[SizeOf(t)..]);
    assert s[0 * SizeOf(t)..1 * SizeOf(t)] == s[..SizeOf(t)];
    forall i: nat | i < |rest|
      ensures var j := i + 1; rest[i] == all[j]
    {
      NextElement(t, n, s, i);
    }
  }

  /** Reading the elements one by one from any bytes gives what one copy gives, or fails the same way. */
  lemma {:induction false} BulkElements(t: Type, n: nat, s: seq<byte>)
    requires TriviallyCopyable(t)
    ensures DecodeMany(t, n, s, false) ==
            if n * SizeOf(t) > |s| then Failed(EndOfBuffer) else Got(FromImage(t, n, s), n * SizeOf(t))
    decreases n
  {
    hide Decode;
    if n > 0 {
      var w := SizeOf(t);
      OneElement(t, s);
      OneLess(n, w);
      AtLeastOnce(n, w);
      if |s| >= w {
        BulkElements(t, n - 1, s[w..]);
        if n * w <= |s| {
          FirstAndRest(t, n, s);
        }
      }
    } else {
      assert FromImage(t, 0, s) == [];
    }
  }

  /** The fast path of the vector reader. */
  function DecodeByCopy(t: Type, s: seq<byte>): Outcome<Value>
    requires TriviallyCopyable(t)
  {
    match DecodeSize(s, false)
    case Got(n, k) =>
      SizeUsed(s, false);
      if n * SizeOf(t) > |s| - k then Failed(EndOfBuffer) else Got(Vec(FromImage(t, n, s[k..])), k + n * SizeOf(t))
    case Failed(e) => Failed(e)
  }

  /** Reading: a vector read in one copy is the vector read element by element, from any bytes. */
  lemma BulkRead(t: Type, s: seq<byte>)
    requires TriviallyCopyable(t)
    ensures Decode(VecT(t), s, false) == DecodeByCopy(t, s)
  {
    hide DecodeSize, DecodeMany, FromImage, SizeOf;
    if DecodeSize(s, false).Got? {
      SizeUsed(s, false);
      var o := DecodeSize(s, false);
      BulkElements(t, o.value, s[o.used..]);
      NotLess(o.value, SizeOf(t));
    }
  }

  lemma NotLess(n: nat, w: nat)
    requires w > 0
    ensures n * w >= n
  {
  }

  // ---------------------------------------------------------------- sums of positions and sizes

  /** No object in memory is larger. */
  const MAX_VIEW: nat := 0x8000_0000_0000_0000

  /** `check_bounds`: the sum of two 64-bit numbers wraps around. */
  predicate InBounds(pos: nat, len: nat, size: nat) { (pos + len) % WORD <= size }

  /** For every string met when a `t` is read from position `at` on, its size and the position behind the
      size add up to less than 2^64. */
  predicate SizesInRange(t: Type, s: seq<byte>, at: nat, varint: bool)
    decreases t, 0, 0
  {
    match t
    case StrT => (match DecodeSize(s, varint) case Got(n, k) => at + k + n < WORD case Failed(_) => true)
    case VecT(elem) =>
      (match DecodeSize(s, varint)
       case Got(n, k) => SizeUsed(s, varint); n <= |s| - k ==> ManyInRange(elem, n, s[k..], at + k, varint)
       case Failed(_) => true)
    case _ => true
  }

  predicate ManyInRange(t: Type, n: nat, s: seq<byte>, at: nat, varint: bool)
    decreases t, 1, n
  {
    n > 0 ==>
      && SizesInRange(t, s, at, varint)
      && match Decode(t, s, varint)
         case Got(_, k) => k <= |s| ==> ManyInRange(t, n - 1, s[k..], at + k, varint)
         case Failed(_) => true
  }

  /** What the string reader does: it cuts a view out of the text and moves to a position, or refuses. */
  datatype StringRead = Cut(start: nat, len: nat, pos: nat) | Refused(error: Error)

  function StringAt(view: seq<byte>, pos: nat, varint: bool): StringRead
    requires pos <= |view|
  {
    match DecodeSize(view[pos..], varint)
    case Got(n, k) => if InBounds(pos + k, n, |view|) then Cut(pos + k, n, (pos + k + n) % WORD) else Refused(EndOfBuffer)
    case Failed(e) => Refused(e)
  }

  /** The string reader does what the format says. */
  predicate StringAgrees(r: StringRead, o: Outcome<Value>, view: seq<byte>, pos: nat) {
    match o
    case Got(v, used) => r.Cut? && r.start + r.len <= |view| && v == Str(view[r.start..r.start + r.len]) && r.pos == pos + used
    case Failed(e) => r == Refused(e)
  }

  /** It does so exactly if the sum does not wrap around; if it does, the reader accepts a string that
      reaches past the text, and goes on at an earlier position. */
  lemma StringExactly(view: seq<byte>, pos: nat, varint: bool)
    requires pos <= |view| < MAX_VIEW
    ensures StringAgrees(StringAt(view, pos, varint), Decode(StrT, view[pos..], varint), view, pos)
       <==> SizesInRange(StrT, view[pos..], pos, varint)
    ensures !SizesInRange(StrT, view[pos..], pos, varint) ==>
            var r := StringAt(view, pos, varint); r.Cut? && r.start + r.len >= WORD > |view| && r.pos < r.start
  {
    hide DecodeSize, Decode, SizesInRange, StringAt, InBounds;
    var s := view[pos..];
    if DecodeSize(s, varint).Got? {
      WordSize(s, varint);
      var n, k := DecodeSize(s, varint).value, DecodeSize(s, varint).used;
      SizeGot(view, pos, varint, n, k);
      WrapsOnce(pos + k, n);
    } else {
      SizeRefused(view, pos, varint);
    }
  }

  lemma SizeRefused(view: seq<byte>, pos: nat, varint: bool)
    requires pos <= |view| && DecodeSize(view[pos..], varint).Failed?
    ensures var e := DecodeSize(view[pos..], varint).error;
            && SizesInRange(StrT, view[pos..], pos, varint) && StringAt(view, pos, varint) == Refused(e)
            && Decode(StrT, view[pos..], varint) == Failed(e)
  {
    hide DecodeSize;
  }

  lemma SizeGot(view: seq<byte>, pos: nat, varint: bool, n: nat, k: nat)
    requires pos <= |view| && DecodeSize(view[pos..], varint) == Got(n, k) && pos + k <= |view|
    ensures SizesInRange(StrT, view[pos..], pos, varint) <==> pos + k + n < WORD
    ensures StringAt(view, pos, varint) ==
            if (pos + k + n) % WORD <= |view| then Cut(pos + k, n, (pos + k + n) % WORD) else Refused(EndOfBuffer)
    ensures Decode(StrT, view[pos..], varint) ==
            if |view| - pos - k < n then Failed(EndOfBuffer) else Got(Str(view[pos + k..pos + k + n]), k + n)
  {
    hide DecodeSize;
    var s := view[pos..];
    assert |s| - k >= n ==> s[k..k + n] == view[pos + k..pos + k + n];
  }

  lemma WordSize(s: seq<byte>, varint: bool)
    requires DecodeSize(s, varint).Got?
    ensures 0 < DecodeSize(s, varint).used <= |s| && DecodeSize(s, varint).value < WORD
  {
    SizeBounds(s, varint);
  }

  lemma WrapsOnce(pos: nat, n: nat)
    requires pos < MAX_VIEW && n < WORD
    ensures (pos + n) % WORD == if pos + n < WORD then pos + n else pos + n - WORD
  {
  }

  /** The input that shows it: the size 2^64 - 1, and nothing behind it. */
  lemma ReachesPastTheEnd() returns (view: seq<byte>)
    ensures view == [255, 255, 255, 255, 255, 255, 255, 255, 255, 1]
    ensures Decode(StrT, view, true) == Failed(EndOfBuffer)
    ensures StringAt(view, 0, true) == Cut(10, WORD - 1, 9)
  {
    hide DecodeSize, EncodeSize;
    view := [255, 255, 255, 255, 255, 255, 255, 255, 255, 1];
    LargestVarint(view);
    SizeRoundTrip(WORD - 1, true, []);
    assert view + [] == view && view[0..] == view;
    WrapsOnce(10, WORD - 1);
  }

  lemma LargestVarint(view: seq<byte>)
    requires view == [255, 255, 255, 255, 255, 255, 255, 255, 255, 1]
    ensures EncodeSize(WORD - 1, true) == view
  {
    assert Varint(0x1) == [1];
    assert Varint(0xFF) == [255, 1];
    assert Varint(0x7FFF) == [255] + Varint(0xFF);
    assert Varint(0x3F_FFFF) == [255] + Varint(0x7FFF);
    assert Varint(0x1FFF_FFFF) == [255] + Varint(0x3F_FFFF);
    assert Varint(0xF_FFFF_FFFF) == [255] + Varint(0x1FFF_FFFF);
    assert Varint(0x7FF_FFFF_FFFF) == [255] + Varint(0xF_FFFF_FFFF);
    assert Varint(0x3_FFFF_FFFF_FFFF) == [255] + Varint(0x7FF_FFFF_FFFF);
    assert Varint(0x1FF_FFFF_FFFF_FFFF) == [255] + Varint(0x3_FFFF_FFFF_FFFF);
    assert Varint(0xFFFF_FFFF_FFFF_FFFF) == [255] + Varint(0x1FF_FFFF_FFFF_FFFF);
  }

  /** Whatever the format gives a value for is in range. */
  lemma {:induction false} ValuesAreInRange(t: Type, s: seq<byte>, at: nat, varint: bool)
    requires at + |s| < MAX_VIEW && Decode(t, s, varint).Got?
    ensures SizesInRange(t, s, at, varint)
    decreases t, 0, 0
  {
    hide DecodeSize;
    if t.VecT? {
      SizeUsed(s, varint);
      var o := DecodeSize(s, varint);
      ManyValuesAreInRange(t.elem, o.value, s[o.used..], at + o.used, varint);
    }
  }

  lemma {:induction false} ManyValuesAreInRange(t: Type, n: nat, s: seq<byte>, at: nat, varint: bool)
    requires at + |s| < MAX_VIEW && DecodeMany(t, n, s, varint).Got?
    ensures ManyInRange(t, n, s, at, varint)
    decreases t, 1, n
  {
    hide Decode, SizesInRange;
    if n > 0 {
      ValuesAreInRange(t, s, at, varint);
      var k := Decode(t, s, varint).used;
      ManyValuesAreInRange(t, n - 1, s[k..], at + k, varint);
    }
  }

  /** Whatever bytes of a text at position `at` the format gives a value for, they are in range, so that the
      reader reads them as the format says; and the value has its type, its sizes fit, and it took its
      full length. */
  lemma DecodedBounds(t: Type, s: seq<byte>, at: nat, varint: bool)
    requires at + |s| < MAX_VIEW && Decode(t, s, varint).Got?
    ensures SizesInRange(t, s, at, varint)
    ensures var o := Decode(t, s, varint);
            o.used <= |s| && HasType(t, o.value) && SizesFit(o.value, varint) && o.used >= FullLength(t, o.value, varint) > 0
  {
    hide Decode, HasType, SizesFit, FullLength, SizesInRange;
    ValueBounds(t, s, varint);
    ValuesAreInRange(t, s, at, varint);
  }

  /** What was serialized is in range at any position, whatever follows, so that the reader gives it back. */
  lemma EncodedIsInRange(t: Type, v: Value, at: nat, varint: bool, rest: seq<byte>)
    requires HasType(t, v) && Storable(v, varint) && at + |Encode(t, v, varint)| + |rest| < MAX_VIEW
    ensures var s := Encode(t, v, varint); SizesInRange(t, s + rest, at, varint) && Decode(t, s + rest, varint) == Got(v, |s|)
  {
    hide Decode, HasType, Storable, Encode, SizesInRange;
    StorableComesBack(t, v, varint, rest);
    ValuesAreInRange(t, Encode(t, v, varint) + rest, at, varint);
  }

  /** In the fixed format all texts are in range. */
  lemma {:induction false} FixedIsInRange(t: Type, s: seq<byte>, at: nat)
    requires at + |s| < MAX_VIEW
    ensures SizesInRange(t, s, at, false)
    decreases t, 0, 0
  {
    hide DecodeSize;
    if DecodeSize(s, false).Got? {
      SizeUsed(s, false);
      SizeBounds(s, false);
      var o := DecodeSize(s, false);
      if t.VecT? && o.value <= |s| - o.used {
        ManyFixedAreInRange(t.elem, o.value, s[o.used..], at + o.used);
      }
    }
  }

  lemma {:induction false} ManyFixedAreInRange(t: Type, n: nat, s: seq<byte>, at: nat)
    requires at + |s| < MAX_VIEW
    ensures ManyInRange(t, n, s, at, false)
    decreases t, 1, n
  {
    hide Decode, SizesInRange;
    if n > 0 {
      FixedIsInRange(t, s, at);
      var o := Decode(t, s, false);
      if o.Got? && o.used <= |s| {
        ManyFixedAreInRange(t, n - 1, s[o.used..], at + o.used);
      }
    }
  }
}
