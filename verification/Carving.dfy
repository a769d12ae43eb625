/** Cutting memory into objects of one size, as the object pool and the central cache do. */
module Carving {

  /** The slots that fit into `left` bytes from address `a` on. */
  function SlotsFrom(a: nat, left: int, objSize: nat): seq<nat>
    requires objSize > 0
    decreases left
  {
    if left < objSize then [] else [a] + SlotsFrom(a + objSize, left - objSize, objSize)
  }

  /** Slots lie inside the memory, do not overlap, and what is left over is less than one slot. */
  lemma {:induction false} SlotsFit(a: nat, left: nat, objSize: nat)
    requires objSize > 0
    ensures var r := SlotsFrom(a, left, objSize);
            && (forall i | 0 <= i < |r| :: a <= r[i] && r[i] + objSize <= a + left)
            && (forall i, j | 0 <= i < j < |r| :: r[i] + objSize <= r[j])
            && |r| * objSize <= left < |r| * objSize + objSize
    decreases left
  {
    if left >= objSize {
      SlotsFit(a + objSize, left - objSize, objSize);
      var rest := SlotsFrom(a + objSize, left - objSize, objSize);
      assert (|rest| + 1) * objSize == |rest| * objSize + objSize;
      assert SlotsFrom(a, left, objSize) == [a] + rest;
      assert forall i | 1 <= i < |rest| + 1 :: ([a] + rest)[i] == rest[i - 1];
    }
  }
}
