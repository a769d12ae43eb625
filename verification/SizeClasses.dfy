/** KzAlloc/SizeUtils.h and the batch sizes of KzAlloc/CentralCache.h: how request sizes map to the 264
    size classes. `Index` and `ClassSize` say what the two generated tables hold. */
module SizeClasses {
  import opened Common

  const PAGE_SIZE: nat := 16384
  const MAX_NFREELISTS: nat := 264
  const MAX_BYTES: nat := 262144
  const WORD: nat := 0x1_0000_0000_0000_0000

  function NextBlockSize(current: nat): nat {
    if current < 128 then current + 8
    else if current < 1024 then current + 16
    else if current < 8192 then current + 128
    else if current < 65536 then current + 512
    else current + 8192
  }

  function ClassSize(index: nat): nat {
    if index == 0 then 8 else NextBlockSize(ClassSize(index - 1))
  }

  function ClosedForm(index: nat): nat {
    if index <= 15 then 8 * (index + 1)
    else if index <= 71 then 128 + 16 * (index - 15)
    else if index <= 127 then 1024 + 128 * (index - 71)
    else if index <= 239 then 8192 + 512 * (index - 127)
    else 65536 + 8192 * (index - 239)
  }

  lemma {:induction false} ClassSizeIs(index: nat)
    ensures ClassSize(index) == ClosedForm(index)
  {
    if index > 0 {
      ClassSizeIs(index - 1);
    }
  }

  /** Classes grow strictly, from 8 bytes to `MAX_BYTES`. */
  lemma ClassesGrow(i: nat, j: nat)
    requires i < j
    ensures ClassSize(i) < ClassSize(j)
    ensures ClassSize(0) == 8 && ClassSize(MAX_NFREELISTS - 1) == MAX_BYTES
  {
    ClassSizeIs(i);
    ClassSizeIs(j);
    ClassSizeIs(MAX_NFREELISTS - 1);
  }

  /** `GenerateClassToSizeTable`. */
  method GenerateClassToSizeTable() returns (table: seq<nat>)
    ensures |table| == MAX_NFREELISTS && forall c | 0 <= c < MAX_NFREELISTS :: table[c] == ClassSize(c)
  {
    table := seq(MAX_NFREELISTS, _ => 0)[0 := 8];
    var blockSize, index := 8, 0;
    var i := 1;
    while i <= MAX_BYTES
      invariant 1 <= i <= MAX_BYTES + 1 && |table| == MAX_NFREELISTS
      invariant blockSize == ClassSize(index)
      invariant forall c | 0 <= c <= index && c < MAX_NFREELISTS :: table[c] == ClassSize(c)
      invariant i - 1 <= blockSize && (index > 0 ==> ClassSize(index - 1) < i - 1)
    {
      if i > blockSize {
        index := index + 1;
        blockSize := NextBlockSize(blockSize);
        if index < MAX_NFREELISTS {
          table := table[index := blockSize];
        }
      }
      i := i + 1;
    }
    if index < MAX_NFREELISTS - 1 {
      ClassesGrow(index, MAX_NFREELISTS - 1);
    }
  }

  /** The index arithmetic, of which the table holds the part up to 32 KiB. */
  function Formula(size: nat): nat
    requires 0 < size
  {
    if size <= 128 then (size + 7) / 8 - 1
    else if size <= 1024 then 15 + (size - 128 + 15) / 16
    else if size <= 8192 then 71 + (size - 1024 + 127) / 128
    else if size <= 65536 then 127 + (size - 8192 + 511) / 512
    else 239 + (size - 65536 + 8191) / 8192
  }

  /** The class of a request. */
  function Index(size: nat): nat { if size == 0 then 0 else Formula(size) }

  lemma DropLowBits(q: nat, j: nat)
    requires j < 8
    ensures (8 * q + j) / 8 == q && (8 * q + j) / 16 == q / 2 && (8 * q + j) / 128 == q / 16
    ensures (8 * q + j) / 512 == q / 64 && (8 * q + j) / 8192 == q / 1024
  {
  }

  /** All sizes that share a table entry are in one class. */
  lemma SameSmallEntry(size: nat, k: nat, j: nat)
    requires size == 8 * k + j + 1 <= 1024 && j < 8
    ensures Formula(size) == Formula(8 * k + 8)
  {
    if size <= 128 {
      DropLowBits(k + 1, j);
      DropLowBits(k + 1, 7);
    } else {
      DropLowBits(k - 14, j);
      DropLowBits(k - 14, 7);
    }
  }

  lemma SameLargeEntry(size: nat, k: nat, j: nat)
    requires size == 8 * k + j + 1 > 1024 && j < 8
    ensures Formula(size) == Formula(8 * k + 8)
  {
    if size <= 8192 {
      DropLowBits(k - 112, j);
      DropLowBits(k - 112, 7);
    } else if size <= 65536 {
      DropLowBits(k - 960, j);
      DropLowBits(k - 960, 7);
    } else {
      DropLowBits(k - 7168, j);
      DropLowBits(k - 7168, 7);
    }
  }

  lemma SameEntry(size: nat)
    requires 0 < size
    ensures Formula(size) == Formula((size - 1) / 8 * 8 + 8)
  {
    var k: nat, j: nat := (size - 1) / 8, (size - 1) % 8;
    assert size == 8 * k + j + 1;
    if size <= 1024 {
      SameSmallEntry(size, k, j);
    } else {
      SameLargeEntry(size, k, j);
    }
  }

  method GenerateFastIndexTable() returns (table: seq<nat>)
    ensures |table| == 4096 && forall k | 0 <= k < 4096 :: table[k] == Formula(8 * k + 8) < 256
  {
    table := seq(4096, _ => 0);
    var i := 1;
    while i <= 32768
      invariant 1 <= i <= 32769 && |table| == 4096
      invariant forall k | 0 <= k < 4096 && 8 * k + 1 < i :: table[k] == Formula(8 * k + 8) < 256
    {
      var idx;
      if i <= 128 {
        idx := (i + 7) / 8 - 1;
      } else if i <= 1024 {
        idx := 15 + (i - 128 + 15) / 16;
      } else if i <= 8 * 1024 {
        idx := 71 + (i - 1024 + 127) / 128;
      } else {
        idx := 127 + (i - 8192 + 511) / 512;
      }
      SameEntry(i);
      assert idx == Formula(i) < 256;
      table := table[(i - 1) / 8 := idx];
      i := i + 1;
    }
  }

  /** `Index` as the source computes it, by table up to 32 KiB and by formula beyond. */
  method LookupIndex(table: seq<nat>, size: nat) returns (index: nat)
    requires |table| == 4096 && (forall k | 0 <= k < 4096 :: table[k] == Formula(8 * k + 8)) && size <= MAX_BYTES
    ensures index == Index(size) < MAX_NFREELISTS
  {
    if size == 0 {
      return 0;
    }
    if size <= 32768 {
      SameEntry(size);
      return table[(size - 1) / 8];
    }
    if size <= 64 * 1024 {
      return 127 + (size - 8192 + 511) / 512;
    }
    return 239 + (size - 65536 + 8191) / 8192;
  }

  /** `RoundUp`: the class size, or for large requests the bytes of the pages they take, in 64-bit words. */
  function RoundUp(size: nat): nat {
    if size > MAX_BYTES then (size + PAGE_SIZE - 1) % WORD / PAGE_SIZE * PAGE_SIZE else ClassSize(Index(size))
  }

  lemma SmallestClass()
    ensures ClosedForm(0) == 8
  {
  }

  /** The class that the formula names holds the request, and the class before it does not. */
  lemma FormulaBounds(size: nat)
    requires 0 < size <= MAX_BYTES
    ensures var i := Formula(size); i < MAX_NFREELISTS && size <= ClosedForm(i) && (i > 0 ==> ClosedForm(i - 1) < size)
  {
    if size <= 1024 {
      SmallFormula(size);
    } else {
      LargeFormula(size);
    }
  }

  lemma SmallFormula(size: nat)
    requires 0 < size <= 1024
    ensures var i := Formula(size); i <= 71 && size <= ClosedForm(i) && (i > 0 ==> ClosedForm(i - 1) < size)
  {
  }

  lemma LargeFormula(size: nat)
    requires 1024 < size <= MAX_BYTES
    ensures var i := Formula(size); 71 < i < MAX_NFREELISTS && size <= ClosedForm(i) && ClosedForm(i - 1) < size
  {
  }

  /** `Index` names the least class that holds the request. */
  lemma LeastClass(size: nat)
    requires size <= MAX_BYTES
    ensures Index(size) < MAX_NFREELISTS && size <= ClassSize(Index(size))
    ensures forall c: nat | size <= ClassSize(c) :: Index(size) <= c
  {
    hide ClosedForm, Formula, ClassSize;
    var index := Index(size);
    if size > 0 {
      FormulaBounds(size);
    } else {
      SmallestClass();
    }
    ClassSizeIs(index);
    if index > 0 {
      ClassSizeIs(index - 1);
    }
    forall c: nat | c < index
      ensures ClassSize(c) < size
    {
      if c < index - 1 {
        ClassesGrow(c, index - 1);
      }
    }
  }

  /** A class is the class of its own size, so looking a request up before or after rounding is the same. */
  lemma ClassOfClass(c: nat)
    requires c < MAX_NFREELISTS
    ensures ClassSize(c) <= MAX_BYTES && Index(ClassSize(c)) == c
  {
    ClassSizeIs(c);
  }

  lemma IndexOfRoundUp(size: nat)
    requires size <= MAX_BYTES
    ensures RoundUp(size) <= MAX_BYTES && Index(RoundUp(size)) == Index(size)
  {
    LeastClass(size);
    ClassOfClass(Index(size));
  }

  /** Above 128 bytes less than an eighth of the request is wasted. */
  lemma WasteBound(size: nat)
    requires 128 < size <= MAX_BYTES
    ensures 8 * (RoundUp(size) - size) < size
  {
    ClassSizeIs(Index(size));
  }

  /** A large request is rounded to the fewest pages that hold it, exactly when the rounding does not
      leave the 64-bit word. */
  lemma LargeRoundUp(size: nat)
    requires MAX_BYTES < size < WORD
    ensures RoundUp(size) % PAGE_SIZE == 0
    ensures RoundUp(size) >= size <==> size <= WORD - PAGE_SIZE
    ensures size <= WORD - PAGE_SIZE ==> RoundUp(size) < size + PAGE_SIZE
  {
    if size + PAGE_SIZE - 1 < WORD {
      assert (size + PAGE_SIZE - 1) % WORD == size + PAGE_SIZE - 1;
    } else {
      assert (size + PAGE_SIZE - 1) % WORD == size + PAGE_SIZE - 1 - WORD;
    }
  }

  function MoveCount(size: nat): (num: nat)
    requires size > 0
    ensures 2 <= num <= 32768
  {
    var num := MAX_BYTES / size;
    if num < 2 then 2 else if num > 32768 then 32768 else num
  }

  /** `NumMoveSize`: how many objects move at once between a thread and the central cache. */
  function NumMoveSize(index: nat): nat
    requires index < MAX_NFREELISTS
  {
    PositiveClass(index);
    MoveCount(ClassSize(index))
  }

  lemma PositiveClass(index: nat)
    ensures ClassSize(index) >= 8
  {
    ClassSizeIs(index);
  }

  /** Twice what may move at once is at most 1 MiB, so that a list of fewer objects is below it. */
  lemma MoveBytes(size: nat)
    requires 8 <= size <= MAX_BYTES
    ensures 2 * MoveCount(size) * size <= 1024 * 1024
  {
    var num := MAX_BYTES / size;
    QuotientBytes(MAX_BYTES, size);
    MulMonotone(num, num, 8, size);
    TwiceProduct(MoveCount(size), size);
  }

  lemma QuotientBytes(bytes: nat, size: nat)
    requires size > 0
    ensures bytes / size * size <= bytes < (bytes / size + 1) * size
  {
    assert (bytes / size + 1) * size == bytes / size * size + size;
  }

  /** A move is two objects, or else the most that fit into 256 KiB. */
  lemma MovesMost(size: nat)
    requires 8 <= size <= MAX_BYTES
    ensures MoveCount(size) == 2 || MoveCount(size) * size <= MAX_BYTES
    ensures (MoveCount(size) + 1) * size > MAX_BYTES
  {
    var num := MAX_BYTES / size;
    QuotientBytes(MAX_BYTES, size);
    assert num <= 32768 by {
      if num > 32768 {
        MulMonotone(32769, num, 8, size);
      }
    }
    MulMonotone(num + 1, MoveCount(size) + 1, size, size);
  }

  lemma TwiceProduct(a: nat, b: nat)
    ensures 2 * a * b == 2 * (a * b)
  {
  }

  function FetchBatchSize(size: nat): (num: nat)
    requires size > 0
    ensures 1 <= num <= 512
  {
    var num := MAX_BYTES / size;
    if num == 0 then 1 else if num > 512 then 512 else num
  }

  /** `CalculatePageNeed`. */
  function PageNeed(size: nat): nat
    requires size > 0
  {
    var npage := (FetchBatchSize(size) * size + PAGE_SIZE - 1) / PAGE_SIZE;
    if npage == 0 then 1 else npage
  }

  /** The pages asked for hold a whole batch, with less than a page to spare; a batch is one object, or else the most
      that fit into 256 KiB, up to 512. */
  lemma PagesHoldBatch(size: nat)
    requires size > 0
    ensures var num := FetchBatchSize(size);
            && (num == 1 || num * size <= MAX_BYTES)
            && (num == 512 || (num + 1) * size > MAX_BYTES)
    ensures PageNeed(size) * PAGE_SIZE >= FetchBatchSize(size) * size >= size
    ensures PageNeed(size) * PAGE_SIZE < FetchBatchSize(size) * size + PAGE_SIZE
  {
    var bytes := FetchBatchSize(size) * size;
    QuotientBytes(MAX_BYTES, size);
    MulMonotone(FetchBatchSize(size), if MAX_BYTES / size == 0 then 1 else MAX_BYTES / size, size, size);
    MulMonotone(MAX_BYTES / size + 1, if FetchBatchSize(size) == 512 then MAX_BYTES / size + 1 else FetchBatchSize(size) + 1, size, size);
    assert bytes >= size by {
      MulMonotone(1, FetchBatchSize(size), size, size);
    }
  }
}
