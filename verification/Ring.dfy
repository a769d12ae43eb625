/** A ring buffer addressed by unbounded positions. The queues of KzSTL keep growing counters and
    mask them with `Capacity - 1`; for a power of two that is the remainder modulo the capacity. */
module Ring {
  import opened Common

  /** The content of the slot of position `p`; laps are counted off one by one, which keeps
      remainders out of the proofs. */
  function Read<S>(buf: seq<S>, p: nat): S
    requires |buf| > 0
  {
    if p < |buf| then buf[p] else Read(buf, p - |buf|)
  }

  /** The buffer after storing `v` in the slot of position `p`. */
  function Write<S>(buf: seq<S>, p: nat, v: S): (r: seq<S>)
    requires |buf| > 0
    ensures |r| == |buf|
  {
    if p < |buf| then buf[p := v] else Write(buf, p - |buf|, v)
  }

  /** Counting off laps is masking. */
  lemma {:induction false} SlotIsRemainder<S>(buf: seq<S>, p: nat, v: S)
    requires |buf| > 0
    ensures Read(buf, p) == buf[p % |buf|]
    ensures Write(buf, p, v) == buf[p % |buf| := v]
  {
    if p >= |buf| {
      SlotIsRemainder(buf, p - |buf|, v);
      OneLapBack(p, |buf|);
    }
  }

  lemma OneLapBack(p: nat, c: nat)
    requires 0 < c <= p
    ensures p % c == (p - c) % c
  {
    var q, r := (p - c) / c, (p - c) % c;
    assert p == (q + 1) * c + r;
    Quotient(p, c, q + 1, r);
  }

  lemma Quotient(p: nat, c: nat, q: nat, r: nat)
    requires c > 0 && p == q * c + r && r < c
    ensures p % c == r
  {
    var q' := p / c;
    assert (q' - q) * c == r - p % c;
    assert q' - q >= 1 ==> (q' - q) * c >= c by { MulMonotone(1, if q' > q then q' - q else 1, c, c); }
    assert q - q' >= 1 ==> (q - q') * c >= c by { MulMonotone(1, if q > q' then q - q' else 1, c, c); }
    assert (q - q') * c == p % c - r;
  }

  lemma {:induction false} ReadWritten<S>(buf: seq<S>, p: nat, v: S)
    requires |buf| > 0
    ensures Read(Write(buf, p, v), p) == v
  {
    if p >= |buf| {
      ReadWritten(buf, p - |buf|, v);
    }
  }

  lemma {:induction false} ReadOther<S>(buf: seq<S>, p: nat, v: S, q: nat)
    requires p < q < p + |buf| || q < p < q + |buf|
    ensures Read(Write(buf, p, v), q) == Read(buf, q)
  {
    if p >= |buf| && q >= |buf| {
      ReadOther(buf, p - |buf|, v, q - |buf|);
    }
  }

  lemma SameSlot<S>(buf: seq<S>, p: nat)
    requires |buf| > 0
    ensures Read(buf, p + |buf|) == Read(buf, p)
  {
  }

  /** Within a window of one lap, a store changes the slot of its own position and no other. */
  lemma Frame<S>(buf: seq<S>, p: nat, v: S, from: int)
    requires from <= p < from + |buf|
    ensures Read(Write(buf, p, v), p) == v
    ensures forall q: nat {:trigger Read(Write(buf, p, v), q)} ::
              from <= q < from + |buf| && q != p ==> Read(Write(buf, p, v), q) == Read(buf, q)
  {
    ReadWritten(buf, p, v);
    forall q: nat | from <= q < from + |buf| && q != p
      ensures Read(Write(buf, p, v), q) == Read(buf, q)
    {
      ReadOther(buf, p, v, q);
    }
  }

  /** A store changes at most the slot that a read of the same position sees. */
  lemma {:induction false} WriteTouches<S>(buf: seq<S>, p: nat, v: S, i: nat)
    requires i < |buf|
    ensures Write(buf, p, v)[i] == buf[i] || (Write(buf, p, v)[i] == v && Read(buf, p) == buf[i])
  {
    if p >= |buf| {
      WriteTouches(buf, p - |buf|, v, i);
    }
  }
}
