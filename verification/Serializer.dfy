/** KzRpc/Serializer.h: the writer, which appends to its buffer, and the reader, which moves a position over
    its text and remembers its first error. Both are proved against the wire format. */
module Serializer {
  import opened Bits
  import opened WireFormat

  const HEADER_SIZE: nat := 24

  lemma Associates(a: seq<byte>, b: seq<byte>, c: seq<byte>)
    ensures a + (b + c) == (a + b) + c
  {
  }

  lemma ItemsHaveType(t: Type, items: seq<Value>)
    requires HasType(VecT(t), Vec(items))
    ensures AllHaveType(t, items)
  {
  }

  class Serializer {
    const varint: bool
    var buffer: seq<byte>

    /** The header's place is kept free. */
    constructor (varint: bool)
      ensures this.varint == varint && buffer == seq(HEADER_SIZE, _ => 0)
    {
      this.varint := varint;
      buffer := seq(HEADER_SIZE, _ => 0);
    }

    /** The loop of `write_varint`. */
    method WriteVarint(value: nat)
      modifies this
      ensures buffer == old(buffer) + Varint(value)
    {
      var n := value;
      while n >= 128
        invariant old(buffer) + Varint(value) == buffer + Varint(n)
      {
        ghost var last := Varint(n);
        buffer := buffer + [n % 128 + 128];
        n := n / 128;
        assert buffer + Varint(n) == (buffer[..|buffer| - 1] + last);
      }
      buffer := buffer + [n];
    }

    method WriteInt(i: int, w: Width, signed: bool)
      requires InRange(i, w, signed)
      modifies this
      ensures buffer == old(buffer) + EncodeInt(i, w, signed, varint)
    {
      if varint {
        WriteVarint(if signed then ZigZag(i, w) else i);
      } else {
        buffer := buffer + LittleEndian(ToUnsigned(i, w), Bytes(w));
      }
    }

    method WriteSize(n: nat)
      modifies this
      ensures buffer == old(buffer) + EncodeSize(n, varint)
    {
      if varint {
        WriteVarint(n);
      } else {
        buffer := buffer + LittleEndian(Low(n, 32), 4);
      }
    }

    /** The elements one by one. */
    method WriteElements(t: Type, items: seq<Value>)
      requires AllHaveType(t, items)
      modifies this
      ensures buffer == old(buffer) + EncodeAll(t, items, varint)
      decreases t, 1
    {
      hide Encode, HasType;
      ghost var start := buffer;
      var i := 0;
      assert items[0..] == items;
      while i < |items|
        invariant i <= |items| && AllHaveType(t, items[i..])
        invariant start + EncodeAll(t, items, varint) == buffer + EncodeAll(t, items[i..], varint)
      {
        ghost var before, first, rest := buffer, Encode(t, items[i], varint), items[i + 1..];
        assert items[i..][0] == items[i] && items[i..][1..] == rest;
        Associates(before, first, EncodeAll(t, rest, varint));
        Write(t, items[i]);
        i := i + 1;
      }
      assert items[i..] == [] && buffer + [] == buffer;
    }

    /** `operator<<` of a span: in one copy if the elements' bytes in memory are what is to be written. */
    method WriteVector(t: Type, items: seq<Value>)
      requires HasType(VecT(t), Vec(items))
      modifies this
      ensures buffer == old(buffer) + Encode(VecT(t), Vec(items), varint)
      decreases t, 2
    {
      hide EncodeSize, EncodeAll, HasType, MemoryImage, AllHaveType;
      ItemsHaveType(t, items);
      if items == [] {
        assert buffer + [] == buffer;
        return;
      }
      Associates(buffer, EncodeSize(|items|, varint), EncodeAll(t, items, varint));
      WriteSize(|items|);
      if TriviallyCopyable(t) && !varint {
        BulkWrite(t, items);
        buffer := buffer + MemoryImage(t, items);
      } else {
        WriteElements(t, items);
      }
    }

    /** `operator<<`. */
    method Write(t: Type, v: Value)
      requires HasType(t, v)
      modifies this
      ensures buffer == old(buffer) + Encode(t, v, varint)
      decreases t, 0
    {
      match t
      case BoolT => buffer := buffer + [if v.b then 1 else 0];
      case IntT(w, signed) => WriteInt(v.i, w, signed);
      case FloatT(w) => buffer := buffer + v.image;
      case StrT =>
        WriteSize(|v.chars|);
        buffer := buffer + v.chars;
      case VecT(elem) => WriteVector(elem, v.items);
    }
  }

  function Later<T>(o: Outcome<T>, k: nat): Outcome<T> { if o.Got? then o.(used := o.used + k) else o }

  lemma NoByte(s: seq<byte>, bits: nat, result: nat, shift: nat)
    ensures s == [] ==> VarintFrom(s, bits, result, shift) == Failed(EndOfBuffer)
  {
  }

  lemma NextByte(s: seq<byte>, bits: nat, result: nat, shift: nat)
    requires s != []
    ensures var r := Or(result, Low(Shift(s[0] % 128, shift), bits));
            VarintFrom(s, bits, result, shift) ==
              if shift >= bits then Failed(VarintOverflow)
              else if s[0] < 128 then Got(r, 1) else OneMore(VarintFrom(s[1..], bits, r, shift + 7))
  {
  }

  /** The next of `n` elements. */
  lemma OneByOne(t: Type, n: nat, s: seq<byte>, at: nat, varint: bool)
    requires n > 0 && ManyInRange(t, n, s, at, varint)
    ensures SizesInRange(t, s, at, varint)
    ensures match Decode(t, s, varint)
            case Got(v, k) => k <= |s| ==>
              && ManyInRange(t, n - 1, s[k..], at + k, varint)
              && DecodeMany(t, n, s, varint) == InFront(v, k, DecodeMany(t, n - 1, s[k..], varint))
            case Failed(e) => DecodeMany(t, n, s, varint) == Failed(e)
  {
    hide Decode, SizesInRange;
  }

  lemma NoneLeft(t: Type, s: seq<byte>, varint: bool)
    ensures DecodeMany(t, 0, s, varint) == Got([], 0)
  {
  }

  lemma FewBytes(n: nat, w: nat)
    requires n < 0x1_0000_0000 && (w == 1 || w == 2 || w == 4 || w == 8)
    ensures n * w < 0x8_0000_0000
  {
  }

  /** Elements read before, in front of what reading the rest gives. */
  function AllInFront(vs: seq<Value>, k: nat, o: Outcome<seq<Value>>): Outcome<seq<Value>> {
    match o case Got(more, used) => Got(vs + more, k + used) case Failed(e) => Failed(e)
  }

  lemma NoneInFront(o: Outcome<seq<Value>>)
    ensures AllInFront([], 0, o) == o
  {
    if o.Got? {
      assert [] + o.value == o.value;
    }
  }

  lemma OneMoreInFront(vs: seq<Value>, k: nat, v: Value, k': nat, o: Outcome<seq<Value>>)
    ensures AllInFront(vs, k, InFront(v, k', o)) == AllInFront(vs + [v], k + k', o)
  {
    if o.Got? {
      assert vs + ([v] + o.value) == (vs + [v]) + o.value;
    }
  }

  /** The reader over a text that fits in memory. Where a size and the position behind it add up to 2^64 or
      more the code accepts a string that reaches past the text; nothing is promised of what is read then. */
  class Deserializer {
    const varint: bool
    const view: seq<byte>
    var pos: nat
    var error: Error

    ghost predicate Valid() reads this { pos <= |view| < MAX_VIEW }

    constructor (varint: bool, view: seq<byte>)
      requires |view| < MAX_VIEW
      ensures Valid() && this.varint == varint && this.view == view && pos == 0 && error == Ok
    {
      this.varint, this.view, pos, error := varint, view, 0, Ok;
    }

    /** What reading from position `from` leaves behind, given what the format says of the text there: it
        moves past the value, or keeps the error. */
    ghost predicate Follows<T(!new)>(o: Outcome<T>, from: nat, ok: bool, value: T)
      reads this
    {
      match o
      case Got(v, used) => ok && value == v && pos == from + used <= |view| && error == Ok
      case Failed(e) => !ok && error == e != Ok && from <= pos <= |view|
    }

    /** The sum is computed in 64 bits: bytes that are there are found to be, and so is any number of
        bytes whose end has no 64-bit position. */
    method CheckBounds(len: nat) returns (r: bool)
      requires Valid() && len < WORD
      ensures r <==> pos + len <= |view| || pos + len >= WORD
    {
      WrapsOnce(pos, len);
      r := (pos + len) % WORD <= |view|;
    }

    /** The loop of `read_varint`. */
    method ReadVarint(bits: nat) returns (ok: bool, result: nat)
      requires Valid() && error == Ok
      modifies this
      ensures Valid() && Follows(VarintFrom(view[old(pos)..], bits, 0, 0), old(pos), ok, result)
    {
      hide Low, Or, Shift, VarintFrom;
      var shift: nat := 0;
      result := 0;
      ghost var start, s := pos, view[pos..];
      while true
        invariant start <= pos && Valid() && error == Ok
        invariant VarintFrom(s, bits, 0, 0) == Later(VarintFrom(view[pos..], bits, result, shift), pos - start)
        decreases |view| - pos
      {
        var inBounds := CheckBounds(1);
        if !inBounds {
          NoByte(view[pos..], bits, result, shift);
          error := EndOfBuffer;
          return false, result;
        }
        var b := view[pos];
        assert view[pos..][1..] == view[pos + 1..];
        NextByte(view[pos..], bits, result, shift);
        pos := pos + 1;
        if shift >= bits {
          error := VarintOverflow;
          return false, result;
        }
        result := Or(result, Low(Shift(b % 128, shift), bits));
        if b < 128 {
          return true, result;
        }
        shift := shift + 7;
      }
    }

    method ReadFixed(w: nat) returns (ok: bool, n: nat)
      requires Valid() && error == Ok && w <= 8
      modifies this
      ensures Valid() && Follows(FixedFrom(view[old(pos)..], w), old(pos), ok, n)
    {
      var inBounds := CheckBounds(w);
      if !inBounds {
        error := EndOfBuffer;
        return false, 0;
      }
      assert view[pos..][..w] == view[pos..pos + w];
      ok, n := true, FromLittleEndian(view[pos..pos + w]);
      pos := pos + w;
    }

    method ReadNat(w: nat) returns (ok: bool, n: nat)
      requires Valid() && error == Ok && w <= 8
      modifies this
      ensures Valid() && Follows(NatFrom(view[old(pos)..], w, varint), old(pos), ok, n)
    {
      if varint {
        ok, n := ReadVarint(8 * w);
      } else {
        ok, n := ReadFixed(w);
      }
    }

    method ReadSize() returns (ok: bool, n: nat)
      requires Valid() && error == Ok
      modifies this
      ensures Valid() && Follows(DecodeSize(view[old(pos)..], varint), old(pos), ok, n)
    {
      ok, n := ReadNat(if varint then 8 else 4);
    }

    /** `operator>>` of a `string_view`: a view is where it starts and how long it is. */
    method CutString() returns (ok: bool, start: nat, len: nat)
      requires Valid() && error == Ok
      modifies this
      ensures Valid()
      ensures match StringAt(view, old(pos), varint)
              case Cut(a, n, p) => ok && start == a && len == n && pos == p && error == Ok
              case Refused(e) => !ok && error == e != Ok && old(pos) <= pos
    {
      hide DecodeSize;
      ghost var s := view[pos..];
      ok, len := ReadSize();
      start := pos;
      if !ok {
        return;
      }
      WordSize(s, varint);
      WrapsOnce(pos, len);
      ok := CheckBounds(len);
      if !ok {
        error := EndOfBuffer;
        return;
      }
      pos := (pos + len) % WORD;
    }

    /** `operator>>` of a `string`, which copies the view. */
    method ReadString() returns (ok: bool, v: Value)
      requires Valid() && error == Ok
      modifies this
      ensures Valid()
      ensures SizesInRange(StrT, view[old(pos)..], old(pos), varint) ==>
              Follows(Decode(StrT, view[old(pos)..], varint), old(pos), ok, v)
    {
      hide Decode, SizesInRange, StringAt;
      StringExactly(view, pos, varint);
      var start, len;
      ok, start, len := CutString();
      v := Str(if start + len <= |view| then view[start..start + len] else []);
    }

    /** The fast path of the vector reader, behind the size. */
    method CopyElements(t: Type, n: nat, ghost start: nat) returns (ok: bool, v: Value)
      requires Valid() && error == Ok && TriviallyCopyable(t) && start <= pos
      requires DecodeSize(view[start..], false) == Got(n, pos - start)
      modifies this
      ensures Valid() && Follows(DecodeByCopy(t, view[start..]), start, ok, v)
    {
      hide DecodeSize, FromImage, SizeOf, Low;
      SizeBounds(view[start..], false);
      ghost var s := view[start..];
      v := Vec([]);
      FewBytes(n, SizeOf(t));
      WrapsOnce(pos, n * SizeOf(t));
      ok := CheckBounds(n * SizeOf(t));
      if !ok {
        error := EndOfBuffer;
        return;
      }
      assert s[pos - start..] == view[pos..];
      v := Vec(FromImage(t, n, view[pos..]));
      pos := pos + n * SizeOf(t);
    }

    /** The other path: as many elements as fit are read one by one. */
    method ReadElements(t: Type, n: nat) returns (ok: bool, items: seq<Value>)
      requires Valid() && error == Ok
      modifies this
      ensures Valid()
      ensures ManyInRange(t, n, view[old(pos)..], old(pos), varint) ==>
              Follows(DecodeMany(t, n, view[old(pos)..], varint), old(pos), ok, items)
      decreases t, 1
    {
      hide Decode, SizesInRange, DecodeMany, ManyInRange;
      items := [];
      var i: nat := 0;
      ghost var s, start := view[pos..], pos;
      ghost var inRange := ManyInRange(t, n, s, start, varint);
      NoneInFront(DecodeMany(t, n, s, varint));
      while i < n
        invariant i <= n && Valid()
        invariant inRange ==> start <= pos && error == Ok && ManyInRange(t, n - i, view[pos..], pos, varint)
        invariant inRange ==> DecodeMany(t, n, s, varint) == AllInFront(items, pos - start, DecodeMany(t, n - i, view[pos..], varint))
      {
        ghost var from := pos;
        if inRange {
          OneByOne(t, n - i, view[from..], from, varint);
        }
        var item;
        ok, item := Read(t);
        if !ok {
          return;
        }
        if inRange {
          assert view[from..][pos - from..] == view[pos..];
          OneMoreInFront(items, from - start, item, pos - from, DecodeMany(t, n - i - 1, view[pos..], varint));
        }
        items := items + [item];
        i := i + 1;
      }
      NoneLeft(t, view[pos..], varint);
      assert items + [] == items;
      ok := true;
    }

    method ReadVector(t: Type) returns (ok: bool, v: Value)
      requires Valid() && error == Ok
      modifies this
      ensures Valid()
      ensures SizesInRange(VecT(t), view[old(pos)..], old(pos), varint) ==>
              Follows(Decode(VecT(t), view[old(pos)..], varint), old(pos), ok, v)
      decreases t, 2
    {
      hide DecodeSize, DecodeMany, DecodeByCopy, ManyInRange;
      ghost var s, start := view[pos..], pos;
      var n;
      v := Vec([]);
      ok, n := ReadSize();
      if !ok {
        return;
      }
      if !varint && TriviallyCopyable(t) {
        BulkRead(t, s);
        ok, v := CopyElements(t, n, start);
        return;
      }
      if n > |view| - pos {
        error := EndOfBuffer;
        return false, v;
      }
      assert s[pos - start..] == view[pos..];
      var items;
      ok, items := ReadElements(t, n);
      v := Vec(items);
    }

    /** `operator>>`: after an error nothing is read any more. */
    method Read(t: Type) returns (ok: bool, v: Value)
      requires Valid()
      modifies this
      ensures Valid()
      ensures old(error) == Ok && SizesInRange(t, view[old(pos)..], old(pos), varint) ==>
              Follows(Decode(t, view[old(pos)..], varint), old(pos), ok, v)
      ensures old(error) != Ok ==> !ok && pos == old(pos) && error == old(error)
      decreases t, 0
    {
      v := Bool(false);
      if error != Ok {
        return false, v;
      }
      match t
      case StrT => ok, v := ReadString();
      case VecT(elem) => ok, v := ReadVector(elem);
      case _ => ok, v := ReadScalar(t);
    }

    method ReadScalar(t: Type) returns (ok: bool, v: Value)
      requires Valid() && error == Ok && (t.BoolT? || t.IntT? || t.FloatT?)
      modifies this
      ensures Valid() && Follows(Decode(t, view[old(pos)..], varint), old(pos), ok, v)
    {
      hide NatFrom;
      v := Bool(false);
      match t
      case BoolT =>
        ok := CheckBounds(1);
        if !ok {
          error := EndOfBuffer;
          return;
        }
        v := Bool(view[pos] != 0);
        pos := pos + 1;
      case IntT(w, signed) =>
        var n;
        ok, n := ReadNat(Bytes(w));
        v := Int(IntOf(n, w, signed, varint));
      case FloatT(w) =>
        ok := CheckBounds(Bytes(w));
        if !ok {
          error := EndOfBuffer;
          return;
        }
        assert view[pos..][..Bytes(w)] == view[pos..pos + Bytes(w)];
        v := Float(view[pos..pos + Bytes(w)]);
        pos := pos + Bytes(w);
    }
  }
}
