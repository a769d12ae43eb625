/** KzSTL/ArrayMpmcQueue.h as a state machine: any number of producers and consumers, single and
    bulk, one event per atomic load, store or compare-and-swap, sequentially consistent. */
module MpmcQueue {
  import opened Common
  import opened Ring

  datatype Slot<T> = Slot(seqNo: nat, data: Option<T>)

  /** What a thread does next. `bulk` tells `enqueueBulk` and `dequeueBulk` from the single forms,
      which decide on one load of the sequence number where the bulk forms load it again. */
  datatype Pc<T> =
    | Idle
    | EnqLoad(items: seq<T>, bulk: bool)
    | EnqScan(items: seq<T>, bulk: bool, t: nat, i: nat)
    | EnqRecheck(items: seq<T>, t: nat)
    | EnqCas(items: seq<T>, bulk: bool, t: nat, n: nat)
    | EnqBuild(pos: nat, items: seq<T>)
    | EnqPublish(pos: nat, items: seq<T>)
    | DeqLoad(want: nat, bulk: bool)
    | DeqScan(want: nat, bulk: bool, h: nat, i: nat)
    | DeqRecheck(want: nat, h: nat)
    | DeqCas(want: nat, bulk: bool, h: nat, n: nat)
    | DeqMove(pos: nat, n: nat)
    | DeqRelease(pos: nat, n: nat, v: Option<T>)

  /** The life of a position: being written, readable, being read, handed out as take `k`. */
  datatype Phase = Writing(id: nat) | Full | Reading(id: nat) | Done(k: nat)

  datatype Take<T> = Take(pos: nat, v: Option<T>)

  /** `enq`, `phase` and `taken` are history that no step reads: the item claimed at each position,
      the phase of each claimed position, and the completed takes. */
  datatype State<T> = State(
    cap: nat, head: nat, tail: nat, buf: seq<Slot<T>>, threads: map<nat, Pc<T>>,
    enq: seq<T>, phase: seq<Phase>, taken: seq<Take<T>>)

  /** `spurious` lets a weak compare-and-swap fail although the value matched. */
  datatype Event<T> =
    | StartEnq(id: nat, items: seq<T>, bulk: bool)
    | StartDeq(id: nat, want: nat, bulk: bool)
    | Step(id: nat, spurious: bool)

  ghost predicate Init<T>(s: State<T>) {
    && s.cap > 0 && s.head == 0 && s.tail == 0
    && |s.buf| == s.cap
    && (forall i | 0 <= i < s.cap :: s.buf[i].seqNo == i)
    && (forall id | id in s.threads :: s.threads[id] == Idle)
    && s.enq == [] && s.phase == [] && s.taken == []
  }

  predicate Enabled<T>(s: State<T>, e: Event<T>) {
    && s.cap > 0 && |s.buf| == s.cap
    && e.id in s.threads
    && match e {
      case StartEnq(id, items, bulk) => s.threads[id].Idle? && items != [] && (bulk || |items| == 1)
      case StartDeq(id, want, bulk) => s.threads[id].Idle? && (bulk || want == 1)
      case Step(id, _) => !s.threads[id].Idle?
    }
  }

  function Next<T>(s: State<T>, e: Event<T>): State<T>
    requires Enabled(s, e)
  {
    match e
    case StartEnq(id, items, bulk) => Goto(s, id, EnqLoad(items, bulk))
    case StartDeq(id, want, bulk) => Goto(s, id, DeqLoad(want, bulk))
    case Step(id, spurious) =>
      match s.threads[id] {
        case Idle => s
        case EnqLoad(items, bulk) => Goto(s, id, EnqScan(items, bulk, s.tail, 0))
        case EnqScan(items, bulk, t, i) => Goto(s, id, AfterEnqScan(items, bulk, t, i, Min(|items|, s.cap), Read(s.buf, t + i).seqNo))
        case EnqRecheck(items, t) => Goto(s, id, if Read(s.buf, t).seqNo < t then Idle else EnqLoad(items, true))
        case EnqCas(items, bulk, t, n) =>
          if s.tail != t || spurious || n > |items| then Goto(s, id, EnqScan(items, bulk, s.tail, 0))
          else Goto(s, id, EnqBuild(t, items[..n]))
               .(tail := t + n, enq := s.enq + items[..n], phase := s.phase + Repeat(Writing(id), n))
        case EnqBuild(pos, items) =>
          if items == [] then Goto(s, id, Idle)
          else Goto(Store(s, pos, Read(s.buf, pos).(data := Some(items[0]))), id, EnqPublish(pos, items))
        case EnqPublish(pos, items) =>
          if items == [] then Goto(s, id, Idle)
          else SetPhase(Goto(Store(s, pos, Read(s.buf, pos).(seqNo := pos + 1)), id,
                             if |items| == 1 then Idle else EnqBuild(pos + 1, items[1..])), pos, Full)
        case DeqLoad(want, bulk) => Goto(s, id, if want == 0 then DeqRecheck(want, s.head) else DeqScan(want, bulk, s.head, 0))
        case DeqScan(want, bulk, h, i) => Goto(s, id, AfterDeqScan(want, bulk, h, i, Read(s.buf, h + i).seqNo))
        case DeqRecheck(want, h) => Goto(s, id, if Read(s.buf, h).seqNo < h + 1 then Idle else DeqLoad(want, true))
        case DeqCas(want, bulk, h, n) =>
          if s.head != h || spurious then Goto(s, id, DeqScan(want, bulk, s.head, 0))
          else Goto(s, id, DeqMove(h, n)).(head := h + n, phase := Claim(s.phase, h, h + n, id))
        case DeqMove(pos, n) =>
          Goto(Store(s, pos, Read(s.buf, pos).(data := None)), id, DeqRelease(pos, n, Read(s.buf, pos).data))
        case DeqRelease(pos, n, v) =>
          SetPhase(Goto(Store(s, pos, Read(s.buf, pos).(seqNo := pos + s.cap)), id,
                        if n <= 1 then Idle else DeqMove(pos + 1, n - 1)), pos, Done(|s.taken|))
          .(taken := s.taken + [Take(pos, v)])
      }
  }

  function Goto<T>(s: State<T>, id: nat, pc: Pc<T>): State<T> {
    s.(threads := s.threads[id := pc])
  }

  function Store<T>(s: State<T>, p: nat, slot: Slot<T>): State<T>
    requires |s.buf| > 0
  {
    s.(buf := Write(s.buf, p, slot))
  }

  /** One round of the scan for free slots; `most` slots are wanted at most. */
  function AfterEnqScan<T>(items: seq<T>, bulk: bool, t: nat, i: nat, most: nat, seqNo: nat): Pc<T> {
    if seqNo == t + i then
      if i + 1 < most then EnqScan(items, bulk, t, i + 1) else EnqCas(items, bulk, t, i + 1)
    else if i > 0 then EnqCas(items, bulk, t, i)
    else if bulk then EnqRecheck(items, t)
    else if seqNo < t then Idle
    else EnqLoad(items, bulk)
  }

  /** One round of the scan for published slots. */
  function AfterDeqScan<T>(want: nat, bulk: bool, h: nat, i: nat, seqNo: nat): Pc<T> {
    if seqNo == h + i + 1 then
      if i + 1 < want then DeqScan(want, bulk, h, i + 1) else DeqCas(want, bulk, h, i + 1)
    else if i > 0 then DeqCas(want, bulk, h, i)
    else if bulk then DeqRecheck(want, h)
    else if seqNo < h + 1 then Idle
    else DeqLoad(want, bulk)
  }

  /** History: position `p` enters `phase`. */
  function SetPhase<T>(s: State<T>, p: nat, phase: Phase): State<T> {
    if p < |s.phase| then s.(phase := s.phase[p := phase]) else s
  }

  /** History: the positions from `from` to `to` are claimed for reading. */
  function Claim(phase: seq<Phase>, from: nat, to: nat, id: nat): (r: seq<Phase>)
    ensures |r| == |phase|
    ensures forall p | 0 <= p < |phase| :: r[p] == if from <= p < to then Reading(id) else phase[p]
  {
    seq(|phase|, p requires 0 <= p < |phase| => if from <= p < to then Reading(id) else phase[p])
  }

  // ---------------------------------------------------------------- the invariant

  /** The sequence number a position's phase demands. */
  function SeqOf(phase: Phase, p: nat, cap: nat): nat {
    match phase
    case Writing(_) => p
    case Full => p + 1
    case Reading(_) => p + 1
    case Done(_) => p + cap
  }

  /** The last lap of claimed positions shows in the slots; slots never claimed are fresh. */
  ghost predicate RingInv<T>(cap: nat, tail: nat, buf: seq<Slot<T>>, enq: seq<T>, phase: seq<Phase>) {
    && |buf| == cap > 0 && |enq| == |phase| == tail
    && (forall p: nat | tail - cap <= p < tail ::
         && Read(buf, p).seqNo == SeqOf(phase[p], p, cap)
         && (phase[p].Full? ==> Read(buf, p).data == Some(enq[p])))
    && (forall p: nat | tail <= p < cap :: Read(buf, p).seqNo == p)
    && (forall p: nat | p < tail - cap :: phase[p].Done?)
  }

  ghost predicate OrderInv(cap: nat, head: nat, tail: nat, phase: seq<Phase>) {
    && head <= tail == |phase| && tail <= head + cap
    && (forall p: nat | p < head :: phase[p].Reading? || phase[p].Done?)
    && (forall p: nat | head <= p < tail :: phase[p].Writing? || phase[p].Full?)
  }

  /** Position `p` may be claimed for writing. */
  predicate Free(phase: seq<Phase>, cap: nat, p: nat) {
    p < cap || (p - cap < |phase| && phase[p - cap].Done?)
  }

  /** Position `p` may be claimed for reading. */
  predicate Published(phase: seq<Phase>, p: nat) { p < |phase| && phase[p].Full? }

  ghost predicate ThreadInv<T>(cap: nat, head: nat, tail: nat, buf: seq<Slot<T>>, enq: seq<T>, phase: seq<Phase>,
                               id: nat, pc: Pc<T>)
    requires |buf| == cap > 0 && |enq| == |phase| == tail
  {
    match pc
    case EnqLoad(items, _) => items != []
    case EnqScan(items, _, t, i) =>
      t <= tail && i < Min(|items|, cap) && (t == tail ==> forall p: nat | t <= p < t + i :: Free(phase, cap, p))
    case EnqRecheck(items, t) => items != [] && t <= tail
    case EnqCas(items, _, t, n) =>
      t <= tail && 0 < n <= Min(|items|, cap) && (t == tail ==> forall p: nat | t <= p < t + n :: Free(phase, cap, p))
    case EnqBuild(pos, items) => items != [] && Writes(tail, enq, phase, id, pos, items)
    case EnqPublish(pos, items) =>
      items != [] && Writes(tail, enq, phase, id, pos, items) && Read(buf, pos).data == Some(items[0])
    case DeqScan(want, _, h, i) =>
      i < want && h <= head && (h == head ==> forall p: nat | h <= p < h + i :: Published(phase, p))
    case DeqRecheck(want, h) => h <= head
    case DeqCas(want, _, h, n) =>
      want > 0 && n > 0 && h <= head && (h == head ==> forall p: nat | h <= p < h + n :: Published(phase, p))
    case DeqMove(pos, n) => n > 0 && Reads(head, tail, buf, enq, phase, id, pos, n, pos)
    case DeqRelease(pos, n, v) => n > 0 && Reads(head, tail, buf, enq, phase, id, pos, n, pos + 1) && v == Some(enq[pos])
    case _ => true
  }

  ghost predicate Writes<T>(tail: nat, enq: seq<T>, phase: seq<Phase>, id: nat, pos: nat, items: seq<T>)
    requires |enq| == |phase| == tail
  {
    && pos + |items| <= tail
    && forall p: nat | pos <= p < pos + |items| :: phase[p] == Writing(id) && enq[p] == items[p - pos]
  }

  /** Positions from `pos` on are claimed; those from `full` on still hold their item. */
  ghost predicate Reads<T>(head: nat, tail: nat, buf: seq<Slot<T>>, enq: seq<T>, phase: seq<Phase>,
                           id: nat, pos: nat, n: nat, full: nat)
    requires |buf| > 0 && |enq| == |phase| == tail
  {
    && pos + n <= head && pos + n <= tail
    && (forall p: nat | pos <= p < pos + n :: phase[p] == Reading(id))
    && (forall p: nat | full <= p < pos + n :: Read(buf, p).data == Some(enq[p]))
  }

  /** The positions a thread has claimed and not finished. */
  function Claimed<T>(pc: Pc<T>): (nat, nat) {
    match pc
    case EnqBuild(pos, items) => (pos, pos + |items|)
    case EnqPublish(pos, items) => (pos, pos + |items|)
    case DeqMove(pos, n) => (pos, pos + n)
    case DeqRelease(pos, n, _) => (pos, pos + n)
    case _ => (0, 0)
  }

  predicate Owns<T>(threads: map<nat, Pc<T>>, id: nat, p: nat) {
    id in threads && Claimed(threads[id]).0 <= p < Claimed(threads[id]).1
  }

  /** Nothing is lost: an unfinished position has a thread at work on it, a finished one its take. */
  ghost predicate HistoryInv<T>(threads: map<nat, Pc<T>>, enq: seq<T>, phase: seq<Phase>, taken: seq<Take<T>>) {
    && |enq| == |phase|
    && (forall p: nat | p < |phase| ::
         && (phase[p].Writing? || phase[p].Reading? ==> Owns(threads, phase[p].id, p))
         && (phase[p].Done? ==> phase[p].k < |taken| && taken[phase[p].k].pos == p))
    && (forall k: nat | k < |taken| ::
         taken[k].pos < |phase| && phase[taken[k].pos] == Done(k) && taken[k].v == Some(enq[taken[k].pos]))
  }

  ghost predicate ThreadsInv<T>(s: State<T>)
    requires |s.buf| == s.cap > 0 && |s.enq| == |s.phase| == s.tail
  {
    forall id | id in s.threads :: ThreadInv(s.cap, s.head, s.tail, s.buf, s.enq, s.phase, id, s.threads[id])
  }

  ghost predicate Inv<T>(s: State<T>) {
    && RingInv(s.cap, s.tail, s.buf, s.enq, s.phase)
    && OrderInv(s.cap, s.head, s.tail, s.phase)
    && ThreadsInv(s)
    && HistoryInv(s.threads, s.enq, s.phase, s.taken)
  }

  lemma InitInv<T>(s: State<T>)
    requires Init(s)
    ensures Inv(s)
  {
  }

  /** A slot shows a sequence number of a position at least as late as any claimed one it serves. */
  lemma {:induction false} SeqAtLeast<T>(s: State<T>, p: nat)
    requires Inv(s) && p < s.tail
    ensures Read(s.buf, p).seqNo >= if p < s.tail - s.cap then p + s.cap else SeqOf(s.phase[p], p, s.cap)
    decreases s.tail - p
  {
    SameSlot(s.buf, p);
    if p < s.tail - s.cap {
      SeqAtLeast(s, p + s.cap);
    }
  }

  /** ... and never runs ahead of a position that is not claimed yet. */
  lemma {:induction false} SeqAtMost<T>(s: State<T>, p: nat)
    requires Inv(s) && p >= s.tail
    ensures Read(s.buf, p).seqNo <= p
  {
    if p >= s.cap {
      SameSlot(s.buf, p - s.cap);
      if p - s.cap >= s.tail {
        SeqAtMost(s, p - s.cap);
      }
    }
  }

  lemma EnqScanFinds<T>(s: State<T>, t: nat, i: nat)
    requires Inv(s) && s.cap >= 2 && t == s.tail && i < s.cap && Read(s.buf, t + i).seqNo == t + i
    ensures Free(s.phase, s.cap, t + i)
  {
    if t + i >= s.cap {
      SameSlot(s.buf, t + i - s.cap);
    }
  }

  lemma DeqScanFinds<T>(s: State<T>, h: nat, i: nat)
    requires Inv(s) && h == s.head && Read(s.buf, h + i).seqNo == h + i + 1
    ensures Published(s.phase, h + i)
  {
    if h + i >= s.tail {
      SeqAtMost(s, h + i);
    }
  }

  // ---------------------------------------------------------------- every step keeps the invariant

  /** The lowest position of a lap that covers every position the slots still speak about. */
  function LapStart(cap: nat, tail: nat): nat { if tail < cap then 0 else tail - cap }

  /** A thread without claims may go anywhere its new local state is justified. */
  lemma GotoInv<T>(s: State<T>, id: nat, pc: Pc<T>)
    requires Inv(s) && id in s.threads && Claimed(s.threads[id]).0 == Claimed(s.threads[id]).1
    requires ThreadInv(s.cap, s.head, s.tail, s.buf, s.enq, s.phase, id, pc)
    ensures Inv(Goto(s, id, pc))
  {
    var s' := Goto(s, id, pc);
    forall p: nat | p < |s.phase| && (s.phase[p].Writing? || s.phase[p].Reading?)
      ensures Owns(s'.threads, s.phase[p].id, p)
    {
      assert Owns(s.threads, s.phase[p].id, p);
    }
  }

  /** The slots about to be claimed are free. */
  lemma ClaimedSlots<T>(s: State<T>, id: nat, items: seq<T>, bulk: bool, n: nat)
    requires Inv(s) && id in s.threads && s.threads[id] == EnqCas(items, bulk, s.tail, n)
    ensures s.tail < Next(s, Step(id, false)).tail
    ensures forall p: nat | s.tail <= p < Next(s, Step(id, false)).tail :: Free(s.phase, s.cap, p) && Read(s.buf, p).seqNo == p
  {
    hide Write, Owns, OrderInv, HistoryInv;
    var s' := Next(s, Step(id, false));
    forall p: nat | s.tail <= p < s'.tail
      ensures Free(s.phase, s.cap, p) && Read(s.buf, p).seqNo == p
    {
      assert Free(s.phase, s.cap, p);
      if p >= s.cap {
        SameSlot(s.buf, p - s.cap);
      }
    }
  }

  lemma EnqCasRing<T>(s: State<T>, id: nat, items: seq<T>, bulk: bool, n: nat)
    requires Inv(s) && id in s.threads && s.threads[id] == EnqCas(items, bulk, s.tail, n)
    ensures var s' := Next(s, Step(id, false)); RingInv(s'.cap, s'.tail, s'.buf, s'.enq, s'.phase)
  {
    hide Write, Owns, Read, HistoryInv, ThreadInv;
    var s' := Next(s, Step(id, false));
    ClaimedSlots(s, id, items, bulk, n);
    assert s'.tail > s.cap ==> Free(s.phase, s.cap, s'.tail - 1);
    forall p: nat | p < s'.tail - s.cap
      ensures s'.phase[p].Done?
    {
      if p >= s.tail - s.cap {
        assert Free(s.phase, s.cap, p + s.cap);
      }
    }
  }

  lemma EnqCasOrder<T>(s: State<T>, id: nat, items: seq<T>, bulk: bool, n: nat)
    requires Inv(s) && id in s.threads && s.threads[id] == EnqCas(items, bulk, s.tail, n)
    ensures var s' := Next(s, Step(id, false)); OrderInv(s'.cap, s'.head, s'.tail, s'.phase)
  {
    hide Write, Owns, Read, HistoryInv, ThreadInv;
    var s' := Next(s, Step(id, false));
    ClaimedSlots(s, id, items, bulk, n);
    assert s'.tail > s.cap ==> Free(s.phase, s.cap, s'.tail - 1);
  }

  lemma EnqCasThreads<T>(s: State<T>, id: nat, items: seq<T>, bulk: bool, n: nat)
    requires Inv(s) && id in s.threads && s.threads[id] == EnqCas(items, bulk, s.tail, n)
    requires RingInv(s.cap, s.tail + n, s.buf, s.enq + items[..n], s.phase + Repeat(Writing(id), n))
    ensures ThreadsInv(Next(s, Step(id, false)))
  {
    hide Owns;
    var s' := Next(s, Step(id, false));
    assert forall p: nat {:trigger Published(s'.phase, p)} :: Published(s.phase, p) ==> Published(s'.phase, p);
  }

  lemma EnqCasHistory<T>(s: State<T>, id: nat, items: seq<T>, bulk: bool, n: nat)
    requires Inv(s) && id in s.threads && s.threads[id] == EnqCas(items, bulk, s.tail, n)
    ensures var s' := Next(s, Step(id, false)); HistoryInv(s'.threads, s'.enq, s'.phase, s'.taken)
  {
    var s' := Next(s, Step(id, false));
    forall p: nat | p < |s'.phase| && (s'.phase[p].Writing? || s'.phase[p].Reading?)
      ensures Owns(s'.threads, s'.phase[p].id, p)
    {
      if p < s.tail {
        assert Owns(s.threads, s.phase[p].id, p);
      }
    }
  }

  /** What a step of one thread guarantees to another thread `id`, with `tail` untouched. */
  ghost predicate Rely<T>(head: nat, buf: seq<Slot<T>>, phase: seq<Phase>,
                          head': nat, buf': seq<Slot<T>>, phase': seq<Phase>, id: nat)
    requires |buf| == |buf'| > 0 && |phase| == |phase'|
  {
    && head <= head'
    && (forall p: nat {:trigger phase'[p]} | p < |phase| ::
         && (phase[p].Done? ==> phase'[p].Done?)
         && (phase[p].Full? && head' == head ==> phase'[p].Full?)
         && (phase[p] == Writing(id) || phase[p] == Reading(id) ==> phase'[p] == phase[p]))
    && (forall p: nat {:trigger Read(buf', p)} | p < |phase| && (phase[p] == Writing(id) || phase[p] == Reading(id)) ::
         Read(buf', p).data == Read(buf, p).data)
  }

  lemma OtherThread<T>(cap: nat, tail: nat, enq: seq<T>, head: nat, buf: seq<Slot<T>>, phase: seq<Phase>,
                       head': nat, buf': seq<Slot<T>>, phase': seq<Phase>, id: nat, pc: Pc<T>)
    requires |buf| == |buf'| == cap > 0 && |enq| == |phase| == |phase'| == tail
    requires ThreadInv(cap, head, tail, buf, enq, phase, id, pc)
    requires Rely(head, buf, phase, head', buf', phase', id)
    ensures ThreadInv(cap, head', tail, buf', enq, phase', id, pc)
  {
    assert forall p: nat {:trigger Free(phase', cap, p)} :: Free(phase, cap, p) ==> Free(phase', cap, p);
    assert head' == head ==> forall p: nat {:trigger Published(phase', p)} :: Published(phase, p) ==> Published(phase', p);
  }

  /** A step of thread `me` keeps every thread's invariant if it keeps its own and the rely of all others. */
  lemma ThreadsStep<T>(s: State<T>, s': State<T>, me: nat)
    requires Inv(s) && me in s.threads
    requires s'.cap == s.cap && s'.tail == s.tail && s'.enq == s.enq && |s'.buf| == |s.buf| && |s'.phase| == |s.phase|
    requires me in s'.threads && s'.threads == s.threads[me := s'.threads[me]]
    requires forall id | id != me :: Rely(s.head, s.buf, s.phase, s'.head, s'.buf, s'.phase, id)
    requires ThreadInv(s'.cap, s'.head, s'.tail, s'.buf, s'.enq, s'.phase, me, s'.threads[me])
    ensures ThreadsInv(s')
  {
    forall id | id in s'.threads
      ensures ThreadInv(s'.cap, s'.head, s'.tail, s'.buf, s'.enq, s'.phase, id, s'.threads[id])
    {
      if id != me {
        OtherThread(s.cap, s.tail, s.enq, s.head, s.buf, s.phase, s'.head, s'.buf, s'.phase, id, s.threads[id]);
      }
    }
  }

  lemma EnqBuildRing<T>(s: State<T>, id: nat)
    requires Inv(s) && id in s.threads && s.threads[id].EnqBuild?
    ensures var s' := Next(s, Step(id, false));
            RingInv(s'.cap, s'.tail, s'.buf, s'.enq, s'.phase) && OrderInv(s'.cap, s'.head, s'.tail, s'.phase)
  {
    var pos, items := s.threads[id].pos, s.threads[id].items;
    assert !s.phase[pos].Done?;
    Frame(s.buf, pos, Read(s.buf, pos).(data := Some(items[0])), LapStart(s.cap, s.tail));
  }

  lemma EnqBuildThreads<T>(s: State<T>, id: nat)
    requires Inv(s) && id in s.threads && s.threads[id].EnqBuild?
    ensures var s' := Next(s, Step(id, false)); |s'.buf| == s'.cap > 0 && |s'.enq| == |s'.phase| == s'.tail && ThreadsInv(s')
  {
    var pos, items := s.threads[id].pos, s.threads[id].items;
    assert !s.phase[pos].Done?;
    Frame(s.buf, pos, Read(s.buf, pos).(data := Some(items[0])), LapStart(s.cap, s.tail));
    ThreadsStep(s, Next(s, Step(id, false)), id);
  }

  lemma EnqBuildHistory<T>(s: State<T>, id: nat)
    requires Inv(s) && id in s.threads && s.threads[id].EnqBuild?
    ensures var s' := Next(s, Step(id, false)); HistoryInv(s'.threads, s'.enq, s'.phase, s'.taken)
  {
    assert forall p: nat | p < |s.phase| && (s.phase[p].Writing? || s.phase[p].Reading?) :: Owns(s.threads, s.phase[p].id, p);
  }

  lemma EnqPublishRing<T>(s: State<T>, id: nat)
    requires Inv(s) && id in s.threads && s.threads[id].EnqPublish?
    ensures var s' := Next(s, Step(id, false));
            RingInv(s'.cap, s'.tail, s'.buf, s'.enq, s'.phase) && OrderInv(s'.cap, s'.head, s'.tail, s'.phase)
  {
    hide HistoryInv, Read, Write;
    var pos := s.threads[id].pos;
    assert !s.phase[pos].Done?;
    Frame(s.buf, pos, Read(s.buf, pos).(seqNo := pos + 1), LapStart(s.cap, s.tail));
  }

  lemma EnqPublishThreads<T>(s: State<T>, id: nat)
    requires Inv(s) && id in s.threads && s.threads[id].EnqPublish?
    ensures var s' := Next(s, Step(id, false)); |s'.buf| == s'.cap > 0 && |s'.enq| == |s'.phase| == s'.tail && ThreadsInv(s')
  {
    hide HistoryInv, OrderInv, Read;
    var pos := s.threads[id].pos;
    assert !s.phase[pos].Done?;
    Frame(s.buf, pos, Read(s.buf, pos).(seqNo := pos + 1), LapStart(s.cap, s.tail));
    var s' := Next(s, Step(id, false));
    assert forall other | other != id :: Rely(s.head, s.buf, s.phase, s'.head, s'.buf, s'.phase, other);
    ThreadsStep(s, s', id);
  }

  lemma EnqPublishHistory<T>(s: State<T>, id: nat)
    requires Inv(s) && id in s.threads && s.threads[id].EnqPublish?
    ensures var s' := Next(s, Step(id, false)); HistoryInv(s'.threads, s'.enq, s'.phase, s'.taken)
  {
    assert forall p: nat | p < |s.phase| && (s.phase[p].Writing? || s.phase[p].Reading?) :: Owns(s.threads, s.phase[p].id, p);
  }

  lemma DeqMoveRing<T>(s: State<T>, id: nat)
    requires Inv(s) && id in s.threads && s.threads[id].DeqMove?
    ensures var s' := Next(s, Step(id, false));
            RingInv(s'.cap, s'.tail, s'.buf, s'.enq, s'.phase) && OrderInv(s'.cap, s'.head, s'.tail, s'.phase)
  {
    var pos := s.threads[id].pos;
    assert !s.phase[pos].Done?;
    Frame(s.buf, pos, Read(s.buf, pos).(data := None), LapStart(s.cap, s.tail));
  }

  lemma DeqMoveThreads<T>(s: State<T>, id: nat)
    requires Inv(s) && id in s.threads && s.threads[id].DeqMove?
    ensures var s' := Next(s, Step(id, false)); |s'.buf| == s'.cap > 0 && |s'.enq| == |s'.phase| == s'.tail && ThreadsInv(s')
  {
    var pos := s.threads[id].pos;
    assert !s.phase[pos].Done?;
    Frame(s.buf, pos, Read(s.buf, pos).(data := None), LapStart(s.cap, s.tail));
    ThreadsStep(s, Next(s, Step(id, false)), id);
  }

  lemma DeqMoveHistory<T>(s: State<T>, id: nat)
    requires Inv(s) && id in s.threads && s.threads[id].DeqMove?
    ensures var s' := Next(s, Step(id, false)); HistoryInv(s'.threads, s'.enq, s'.phase, s'.taken)
  {
    hide ThreadsInv;
    assert forall p: nat | p < |s.phase| && (s.phase[p].Writing? || s.phase[p].Reading?) :: Owns(s.threads, s.phase[p].id, p);
  }

  lemma DeqReleaseRing<T>(s: State<T>, id: nat)
    requires Inv(s) && id in s.threads && s.threads[id].DeqRelease?
    ensures var s' := Next(s, Step(id, false));
            RingInv(s'.cap, s'.tail, s'.buf, s'.enq, s'.phase) && OrderInv(s'.cap, s'.head, s'.tail, s'.phase)
  {
    hide HistoryInv, Read;
    var pos := s.threads[id].pos;
    assert !s.phase[pos].Done?;
    Frame(s.buf, pos, Read(s.buf, pos).(seqNo := pos + s.cap), LapStart(s.cap, s.tail));
  }

  lemma DeqReleaseThreads<T>(s: State<T>, id: nat)
    requires Inv(s) && id in s.threads && s.threads[id].DeqRelease?
    ensures var s' := Next(s, Step(id, false)); |s'.buf| == s'.cap > 0 && |s'.enq| == |s'.phase| == s'.tail && ThreadsInv(s')
  {
    hide HistoryInv, Read, AfterDeqScan, Writes, OrderInv;
    var pos := s.threads[id].pos;
    assert !s.phase[pos].Done?;
    Frame(s.buf, pos, Read(s.buf, pos).(seqNo := pos + s.cap), LapStart(s.cap, s.tail));
    var s' := Next(s, Step(id, false));
    assert forall other | other != id :: Rely(s.head, s.buf, s.phase, s'.head, s'.buf, s'.phase, other);
    ThreadsStep(s, s', id);
  }

  lemma DeqReleaseHistory<T>(s: State<T>, id: nat)
    requires Inv(s) && id in s.threads && s.threads[id].DeqRelease?
    ensures var s' := Next(s, Step(id, false)); HistoryInv(s'.threads, s'.enq, s'.phase, s'.taken)
  {
    hide OrderInv, Write, Claim, Read;
    assert forall p: nat | p < |s.phase| && (s.phase[p].Writing? || s.phase[p].Reading?) :: Owns(s.threads, s.phase[p].id, p);
  }

  lemma DeqCasRing<T>(s: State<T>, id: nat)
    requires Inv(s) && id in s.threads && s.threads[id].DeqCas? && s.threads[id].h == s.head
    ensures var s' := Next(s, Step(id, false));
            RingInv(s'.cap, s'.tail, s'.buf, s'.enq, s'.phase) && OrderInv(s'.cap, s'.head, s'.tail, s'.phase)
  {
    var n := s.threads[id].n;
    assert Published(s.phase, s.head + n - 1);
    forall p: nat | s.head <= p < s.head + n
      ensures p < s.tail && s.phase[p].Full?
    {
      assert Published(s.phase, p);
    }
  }

  lemma DeqCasThreads<T>(s: State<T>, id: nat)
    requires Inv(s) && id in s.threads && s.threads[id].DeqCas? && s.threads[id].h == s.head
    ensures var s' := Next(s, Step(id, false)); |s'.buf| == s'.cap > 0 && |s'.enq| == |s'.phase| == s'.tail && ThreadsInv(s')
  {
    var n := s.threads[id].n;
    assert Published(s.phase, s.head + n - 1);
    forall p: nat | s.head <= p < s.head + n
      ensures p < s.tail && s.phase[p].Full?
    {
      assert Published(s.phase, p);
    }
    var s' := Next(s, Step(id, false));
    assert forall other | other != id :: Rely(s.head, s.buf, s.phase, s'.head, s'.buf, s'.phase, other);
    ThreadsStep(s, s', id);
  }

  lemma DeqCasHistory<T>(s: State<T>, id: nat)
    requires Inv(s) && id in s.threads && s.threads[id].DeqCas? && s.threads[id].h == s.head
    ensures var s' := Next(s, Step(id, false)); HistoryInv(s'.threads, s'.enq, s'.phase, s'.taken)
  {
    hide ThreadsInv;
    assert forall p: nat | p < |s.phase| && (s.phase[p].Writing? || s.phase[p].Reading?) :: Owns(s.threads, s.phase[p].id, p);
  }

  lemma EnqScanLocal<T>(s: State<T>, id: nat, items: seq<T>, bulk: bool, t: nat, i: nat, seqNo: nat)
    requires |s.buf| == s.cap > 0 && |s.enq| == |s.phase| == s.tail
    requires ThreadInv(s.cap, s.head, s.tail, s.buf, s.enq, s.phase, id, EnqScan(items, bulk, t, i))
    requires t == s.tail && seqNo == t + i ==> Free(s.phase, s.cap, t + i)
    ensures ThreadInv(s.cap, s.head, s.tail, s.buf, s.enq, s.phase, id,
                      AfterEnqScan(items, bulk, t, i, Min(|items|, s.cap), seqNo))
  {
  }

  lemma EnqScanInv<T>(s: State<T>, id: nat, items: seq<T>, bulk: bool, t: nat, i: nat)
    requires Inv(s) && s.cap >= 2 && id in s.threads && s.threads[id] == EnqScan(items, bulk, t, i)
    ensures Inv(Next(s, Step(id, false)))
  {
    hide HistoryInv;
    var seqNo := Read(s.buf, t + i).seqNo;
    if t == s.tail && seqNo == t + i {
      EnqScanFinds(s, t, i);
    }
    EnqScanLocal(s, id, items, bulk, t, i, seqNo);
    GotoInv(s, id, AfterEnqScan(items, bulk, t, i, Min(|items|, s.cap), seqNo));
  }

  lemma DeqScanLocal<T>(s: State<T>, id: nat, want: nat, bulk: bool, h: nat, i: nat, seqNo: nat)
    requires |s.buf| == s.cap > 0 && |s.enq| == |s.phase| == s.tail
    requires ThreadInv(s.cap, s.head, s.tail, s.buf, s.enq, s.phase, id, DeqScan(want, bulk, h, i))
    requires h == s.head && seqNo == h + i + 1 ==> Published(s.phase, h + i)
    ensures ThreadInv(s.cap, s.head, s.tail, s.buf, s.enq, s.phase, id, AfterDeqScan(want, bulk, h, i, seqNo))
  {
  }

  lemma DeqScanInv<T>(s: State<T>, id: nat, want: nat, bulk: bool, h: nat, i: nat)
    requires Inv(s) && id in s.threads && s.threads[id] == DeqScan(want, bulk, h, i)
    ensures Inv(Next(s, Step(id, false)))
  {
    hide HistoryInv;
    var seqNo := Read(s.buf, h + i).seqNo;
    if h == s.head && seqNo == h + i + 1 {
      DeqScanFinds(s, h, i);
    }
    DeqScanLocal(s, id, want, bulk, h, i, seqNo);
    GotoInv(s, id, AfterDeqScan(want, bulk, h, i, seqNo));
  }

  lemma CasInv<T>(s: State<T>, id: nat, spurious: bool)
    requires Inv(s) && id in s.threads && (s.threads[id].EnqCas? || s.threads[id].DeqCas?)
    ensures Inv(Next(s, Step(id, spurious)))
  {
    match s.threads[id]
    case EnqCas(items, bulk, t, n) =>
      if s.tail != t || spurious {
        GotoInv(s, id, EnqScan(items, bulk, s.tail, 0));
      } else {
        EnqCasRing(s, id, items, bulk, n);
        EnqCasOrder(s, id, items, bulk, n);
        EnqCasThreads(s, id, items, bulk, n);
        EnqCasHistory(s, id, items, bulk, n);
      }
    case DeqCas(want, bulk, h, n) =>
      if s.head != h || spurious {
        GotoInv(s, id, DeqScan(want, bulk, s.head, 0));
      } else {
        DeqCasRing(s, id);
        DeqCasThreads(s, id);
        DeqCasHistory(s, id);
      }
  }

  lemma SlotStepInv<T>(s: State<T>, id: nat)
    requires Inv(s) && id in s.threads
    requires s.threads[id].EnqBuild? || s.threads[id].EnqPublish? || s.threads[id].DeqMove? || s.threads[id].DeqRelease?
    ensures Inv(Next(s, Step(id, false)))
  {
    if s.threads[id].EnqBuild? {
      EnqBuildRing(s, id);
      EnqBuildThreads(s, id);
      EnqBuildHistory(s, id);
    } else if s.threads[id].EnqPublish? {
      EnqPublishRing(s, id);
      EnqPublishThreads(s, id);
      EnqPublishHistory(s, id);
    } else if s.threads[id].DeqMove? {
      DeqMoveRing(s, id);
      DeqMoveThreads(s, id);
      DeqMoveHistory(s, id);
    } else {
      DeqReleaseRing(s, id);
      DeqReleaseThreads(s, id);
      DeqReleaseHistory(s, id);
    }
  }

  lemma LoadInv<T>(s: State<T>, id: nat)
    requires Inv(s) && id in s.threads
    requires s.threads[id].EnqLoad? || s.threads[id].EnqRecheck? || s.threads[id].DeqLoad? || s.threads[id].DeqRecheck?
    ensures Inv(Next(s, Step(id, false)))
  {
    GotoInv(s, id, Next(s, Step(id, false)).threads[id]);
  }

  lemma OnlyCasIsWeak<T>(s: State<T>, id: nat, spurious: bool)
    requires |s.buf| == s.cap > 0 && id in s.threads && !s.threads[id].Idle?
    requires !s.threads[id].EnqCas? && !s.threads[id].DeqCas?
    ensures Next(s, Step(id, spurious)) == Next(s, Step(id, false))
  {
    hide Read, SetPhase, Store;
  }

  lemma StepInv<T>(s: State<T>, id: nat, spurious: bool)
    requires Inv(s) && s.cap >= 2 && id in s.threads && !s.threads[id].Idle?
    ensures Inv(Next(s, Step(id, spurious)))
  {
    var pc := s.threads[id];
    if pc.EnqCas? || pc.DeqCas? {
      CasInv(s, id, spurious);
    } else {
      if pc.EnqScan? {
        EnqScanInv(s, id, pc.items, pc.bulk, pc.t, pc.i);
      } else if pc.DeqScan? {
        DeqScanInv(s, id, pc.want, pc.bulk, pc.h, pc.i);
      } else if pc.EnqBuild? || pc.EnqPublish? || pc.DeqMove? || pc.DeqRelease? {
        SlotStepInv(s, id);
      } else {
        LoadInv(s, id);
      }
      OnlyCasIsWeak(s, id, spurious);
    }
  }

  lemma NextInv<T>(s: State<T>, e: Event<T>)
    requires Inv(s) && s.cap >= 2 && Enabled(s, e)
    ensures Inv(Next(s, e))
  {
    match e
    case StartEnq(id, items, bulk) => GotoInv(s, id, EnqLoad(items, bulk));
    case StartDeq(id, want, bulk) => GotoInv(s, id, DeqLoad(want, bulk));
    case Step(id, spurious) => StepInv(s, id, spurious);
  }

  // ---------------------------------------------------------------- what every run guarantees

  /** A run: the states visited and the events between them, interleaved in any way. */
  ghost predicate IsRun<T>(run: seq<State<T>>, events: seq<Event<T>>) {
    && |run| == |events| + 1
    && Init(run[0])
    && forall i | 0 <= i < |events| :: Enabled(run[i], events[i]) && run[i + 1] == Next(run[i], events[i])
  }

  lemma {:induction false} RunInv<T>(run: seq<State<T>>, events: seq<Event<T>>, i: nat)
    requires IsRun(run, events) && run[0].cap >= 2 && i < |run|
    ensures Inv(run[i]) && run[i].cap == run[0].cap
  {
    if i == 0 {
      InitInv(run[0]);
    } else {
      RunInv(run, events, i - 1);
      NextInv(run[i - 1], events[i - 1]);
    }
  }

  /** Position `p` is accounted for in exactly one way, and its item with it. */
  ghost predicate Accounted<T>(s: State<T>, p: nat)
    requires p < |s.phase| && p < |s.enq| && |s.buf| > 0
  {
    match s.phase[p]
    case Writing(id) => p >= s.head && Owns(s.threads, id, p)
    case Full => p >= s.head && Read(s.buf, p) == Slot(p + 1, Some(s.enq[p]))
    case Reading(id) => p < s.head && Owns(s.threads, id, p)
    case Done(k) => p < s.head && k < |s.taken| && s.taken[k] == Take(p, Some(s.enq[p]))
  }

  /** In every run the value taken at a position is the one enqueued there, no position is taken
      twice, none is lost, and no more than `cap` positions are ever open. */
  lemma ExactlyOnce<T>(run: seq<State<T>>, events: seq<Event<T>>, k: nat)
    requires IsRun(run, events) && run[0].cap >= 2 && k < |run|
    ensures var s := run[k];
            && s.head <= s.tail <= s.head + s.cap
            && |s.enq| == |s.phase| == s.tail && |s.buf| > 0
            && (forall p: nat | p < s.tail :: Accounted(s, p))
            && (forall i | 0 <= i < |s.taken| :: s.taken[i].pos < s.head && s.taken[i].v == Some(s.enq[s.taken[i].pos]))
            && (forall i, j | 0 <= i < j < |s.taken| :: s.taken[i].pos != s.taken[j].pos)
  {
    RunInv(run, events, k);
    var s := run[k];
    forall p: nat | p < s.tail
      ensures Accounted(s, p)
    {
      if s.phase[p].Full? {
        assert p >= s.tail - s.cap;
      }
    }
  }

  /** The history of a run only grows: an enqueued value and a completed take are never revised. */
  lemma {:induction false} HistoryGrows<T>(run: seq<State<T>>, events: seq<Event<T>>, i: nat, j: nat)
    requires IsRun(run, events) && i <= j < |run|
    ensures run[i].enq <= run[j].enq && run[i].taken <= run[j].taken && run[i].head <= run[j].head
  {
    hide Read, AfterEnqScan, Claim;
    if i < j {
      HistoryGrows(run, events, i, j - 1);
      assert run[j] == Next(run[j - 1], events[j - 1]);
    }
  }

  /** No step ever lowers a slot's sequence number. */
  lemma SequenceNumbersRise<T>(s: State<T>, e: Event<T>, i: nat)
    requires Inv(s) && Enabled(s, e) && i < s.cap
    ensures |Next(s, e).buf| == s.cap && s.buf[i].seqNo <= Next(s, e).buf[i].seqNo
  {
    hide RingInv, Read, Write;
    if e.Step? {
      match s.threads[e.id] {
        case EnqBuild(pos, items) => WriteTouches(s.buf, pos, Read(s.buf, pos).(data := Some(items[0])), i);
        case EnqPublish(pos, _) =>
          SeqOfClaimed(s, pos);
          WriteTouches(s.buf, pos, Read(s.buf, pos).(seqNo := pos + 1), i);
        case DeqMove(pos, _) => WriteTouches(s.buf, pos, Read(s.buf, pos).(data := None), i);
        case DeqRelease(pos, _, _) =>
          SeqOfClaimed(s, pos);
          WriteTouches(s.buf, pos, Read(s.buf, pos).(seqNo := pos + s.cap), i);
        case _ =>
      }
    }
  }

  lemma SeqOfClaimed<T>(s: State<T>, p: nat)
    requires Inv(s) && p < s.tail && !s.phase[p].Done?
    ensures Read(s.buf, p).seqNo == SeqOf(s.phase[p], p, s.cap)
  {
  }

  /** No position can be claimed for writing: the item one lap earlier has not been fully dequeued. */
  predicate IsFull<T>(s: State<T>) { !Free(s.phase, s.cap, s.tail) }

  /** No position can be claimed for reading: no item has been published at the next one. */
  predicate IsEmpty<T>(s: State<T>) { !Published(s.phase, s.head) }

  predicate Enqueues<T>(pc: Pc<T>) { pc.EnqLoad? || pc.EnqScan? || pc.EnqRecheck? || pc.EnqCas? }

  predicate Dequeues<T>(pc: Pc<T>) { pc.DeqLoad? || pc.DeqScan? || pc.DeqRecheck? || pc.DeqCas? }

  /** The loads on which an operation decides whether to give up. */
  predicate Decides<T>(pc: Pc<T>) {
    (pc.EnqScan? && !pc.bulk && pc.i == 0) || pc.EnqRecheck? || (pc.DeqScan? && !pc.bulk && pc.i == 0) || pc.DeqRecheck?
  }

  lemma SeqBelow<T>(s: State<T>, t: nat)
    requires Inv(s) && s.cap >= 2 && t <= s.tail
    ensures Read(s.buf, t).seqNo < t <==> t == s.tail && IsFull(s)
  {
    if t < s.tail {
      SeqAtLeast(s, t);
    } else if t >= s.cap {
      SameSlot(s.buf, t - s.cap);
    }
  }

  lemma SeqBehind<T>(s: State<T>, h: nat)
    requires Inv(s) && h <= s.head
    ensures Read(s.buf, h).seqNo < h + 1 <==> h == s.head && IsEmpty(s)
  {
    if h < s.tail {
      SeqAtLeast(s, h);
      if h == s.head {
        SeqOfClaimed(s, h);
      }
    } else {
      SeqAtMost(s, h);
    }
  }

  /** `enqueue` and `enqueueBulk` give up before their exchange only on a full queue at the position they
      loaded, and where they decide they do so exactly then. */
  lemma FullIsHonest<T>(s: State<T>, id: nat, spurious: bool)
    requires Inv(s) && s.cap >= 2 && id in s.threads && Enqueues(s.threads[id])
    ensures var gone := Next(s, Step(id, spurious)).threads[id].Idle?;
            && (gone ==> Decides(s.threads[id]))
            && (Decides(s.threads[id]) ==> (gone <==> s.threads[id].t == s.tail && IsFull(s)))
  {
    hide HistoryInv, Read;
    var pc := s.threads[id];
    assert ThreadInv(s.cap, s.head, s.tail, s.buf, s.enq, s.phase, id, pc);
    if Decides(pc) {
      SeqBelow(s, pc.t);
      SamePosition(pc.t);
    }
  }

  /** `dequeue` and `dequeueBulk` give up before their exchange only on an empty queue at the position they
      loaded, and where they decide they do so exactly then. */
  lemma EmptyIsHonest<T>(s: State<T>, id: nat, spurious: bool)
    requires Inv(s) && id in s.threads && Dequeues(s.threads[id])
    ensures var gone := Next(s, Step(id, spurious)).threads[id].Idle?;
            && (gone ==> Decides(s.threads[id]))
            && (Decides(s.threads[id]) ==> (gone <==> s.threads[id].h == s.head && IsEmpty(s)))
  {
    hide HistoryInv, Read;
    var pc := s.threads[id];
    assert ThreadInv(s.cap, s.head, s.tail, s.buf, s.enq, s.phase, id, pc);
    if Decides(pc) {
      SeqBehind(s, pc.h);
      SamePosition(pc.h);
    }
  }

  lemma SamePosition(p: nat)
    ensures p + 0 == p
  {
  }

  // ---------------------------------------------------------------- what an operation achieves

  /** How many positions from `p` on are free, `most` at most. */
  function FreeRun(phase: seq<Phase>, cap: nat, p: nat, most: nat): (n: nat)
    ensures n <= most
    ensures forall q: nat | p <= q < p + n :: Free(phase, cap, q)
    ensures n < most ==> !Free(phase, cap, p + n)
    decreases most
  {
    if most > 0 && Free(phase, cap, p) then 1 + FreeRun(phase, cap, p + 1, most - 1) else 0
  }

  /** How many positions from `p` on are published, `most` at most. */
  function PublishedRun(phase: seq<Phase>, p: nat, most: nat): (n: nat)
    ensures n <= most && (n > 0 ==> p + n <= |phase|)
    ensures forall q: nat | p <= q < p + n :: Published(phase, q)
    ensures n < most ==> !Published(phase, p + n)
    decreases most
  {
    if most > 0 && Published(phase, p) then 1 + PublishedRun(phase, p + 1, most - 1) else 0
  }

  /** `n` steps of a thread that nobody disturbs. */
  function Alone<T>(s: State<T>, id: nat, n: nat): State<T>
    decreases n
  {
    if n == 0 || !Enabled(s, Step(id, false)) then s else Alone(Next(s, Step(id, false)), id, n - 1)
  }

  lemma AloneTwice<T>(s: State<T>, id: nat, m: nat, n: nat)
    ensures Alone(s, id, m + n) == Alone(Alone(s, id, m), id, n)
    decreases m
  {
    if m > 0 && Enabled(s, Step(id, false)) {
      AloneTwice(Next(s, Step(id, false)), id, m - 1, n);
    }
  }

  lemma AloneOnce<T>(s: State<T>, id: nat)
    requires Enabled(s, Step(id, false))
    ensures Alone(s, id, 1) == Next(s, Step(id, false))
  {
    assert Alone(Next(s, Step(id, false)), id, 0) == Next(s, Step(id, false));
  }

  /** At the current tail a scan takes a slot for free exactly if it is. */
  lemma ScanSeesFree<T>(s: State<T>, i: nat)
    requires Inv(s) && s.cap >= 2 && i < s.cap
    ensures Read(s.buf, s.tail + i).seqNo == s.tail + i <==> Free(s.phase, s.cap, s.tail + i)
  {
    var p := s.tail + i;
    if p >= s.cap {
      SameSlot(s.buf, p - s.cap);
    }
  }

  /** At the current head a scan takes a slot for published exactly if it is. */
  lemma ScanSeesPublished<T>(s: State<T>, i: nat)
    requires Inv(s)
    ensures Read(s.buf, s.head + i).seqNo == s.head + i + 1 <==> Published(s.phase, s.head + i)
  {
    if Published(s.phase, s.head + i) {
      SeqOfClaimed(s, s.head + i);
    } else if Read(s.buf, s.head + i).seqNo == s.head + i + 1 {
      DeqScanFinds(s, s.head, i);
    }
  }

  /** The scan of an undisturbed enqueue finds the longest run of free slots, or that there is none. */
  lemma EnqScans<T>(s: State<T>, id: nat, items: seq<T>, bulk: bool, i: nat) returns (k: nat)
    requires Inv(s) && s.cap >= 2 && id in s.threads && s.threads[id] == EnqScan(items, bulk, s.tail, i) && (bulk || |items| == 1)
    requires i < Min(|items|, s.cap)
    ensures var n := i + FreeRun(s.phase, s.cap, s.tail + i, Min(|items|, s.cap) - i);
            Alone(s, id, k) == Goto(s, id, if n == 0 then Idle else EnqCas(items, bulk, s.tail, n))
    decreases |items| - i
  {
    hide RingInv, OrderInv, ThreadsInv, HistoryInv, Read, Alone, Next, Free;
    InvIsSized(s);
    EnqScanStep(s, id, items, bulk, i);
    var s1 := Next(s, Step(id, false));
    AloneOnce(s, id);
    k := 1;
    if s1.threads[id].EnqScan? {
      NextInv(s, Step(id, false));
      var m := EnqScans(s1, id, items, bulk, i + 1);
      k := 1 + m;
      AloneTwice(s, id, 1, m);
      GotoTwice(s, id, s1.threads[id], Alone(s1, id, m).threads[id]);
    } else if s1.threads[id].EnqRecheck? {
      SeqBelow(s, s.tail);
      RechecksFull(s1, id, items);
      GotoTwice(s, id, s1.threads[id], Idle);
      AloneTwice(s, id, 1, 1);
      k := 2;
    }
  }

  lemma EnqScanStep<T>(s: State<T>, id: nat, items: seq<T>, bulk: bool, i: nat)
    requires Inv(s) && s.cap >= 2 && id in s.threads && s.threads[id] == EnqScan(items, bulk, s.tail, i) && (bulk || |items| == 1)
    requires i < Min(|items|, s.cap)
    ensures Enabled(s, Step(id, false))
    ensures Next(s, Step(id, false)) == Goto(s, id,
              if Free(s.phase, s.cap, s.tail + i) then
                if i + 1 < Min(|items|, s.cap) then EnqScan(items, bulk, s.tail, i + 1) else EnqCas(items, bulk, s.tail, i + 1)
              else if i > 0 then EnqCas(items, bulk, s.tail, i)
              else if bulk then EnqRecheck(items, s.tail) else Idle)
  {
    hide OrderInv, ThreadsInv, HistoryInv, Read, Free;
    ScanSeesFree(s, i);
    if i == 0 && !bulk {
      SeqBelow(s, s.tail);
    }
  }

  lemma RechecksFull<T>(s: State<T>, id: nat, items: seq<T>)
    requires |s.buf| == s.cap > 0 && id in s.threads && s.threads[id] == EnqRecheck(items, s.tail) && Read(s.buf, s.tail).seqNo < s.tail
    ensures Alone(s, id, 1) == Goto(s, id, Idle)
  {
    AloneOnce(s, id);
  }

  lemma GotoTwice<T>(s: State<T>, id: nat, a: Pc<T>, b: Pc<T>)
    ensures Goto(Goto(s, id, a), id, b) == Goto(s, id, b)
  {
  }

  lemma InvIsSized<T>(s: State<T>)
    requires Inv(s)
    ensures |s.buf| == s.cap > 0 && |s.enq| == |s.phase| == s.tail
  {
  }

  lemma AloneInv<T>(s: State<T>, id: nat, n: nat)
    requires Inv(s) && s.cap >= 2
    ensures Inv(Alone(s, id, n)) && Alone(s, id, n).cap == s.cap
    decreases n
  {
    hide RingInv, OrderInv, ThreadsInv, HistoryInv;
    if n > 0 && Enabled(s, Step(id, false)) {
      NextInv(s, Step(id, false));
      SameCap(s, Step(id, false));
      AloneInv(Next(s, Step(id, false)), id, n - 1);
    }
  }

  lemma SameCap<T>(s: State<T>, e: Event<T>)
    requires Enabled(s, e)
    ensures Next(s, e).cap == s.cap
  {
    hide Read, Write, AfterEnqScan, AfterDeqScan, Claim;
  }

  lemma EnqBuildStep<T>(s: State<T>, id: nat)
    requires Inv(s) && id in s.threads && s.threads[id].EnqBuild?
    ensures Enabled(s, Step(id, false))
    ensures var s', pos, items := Next(s, Step(id, false)), s.threads[id].pos, s.threads[id].items;
            items != [] && s' == s.(buf := s'.buf, threads := s.threads[id := EnqPublish(pos, items)])
  {
    hide OrderInv, HistoryInv, Read, Write;
    assert ThreadInv(s.cap, s.head, s.tail, s.buf, s.enq, s.phase, id, s.threads[id]);
  }

  lemma EnqPublishStep<T>(s: State<T>, id: nat)
    requires Inv(s) && id in s.threads && s.threads[id].EnqPublish?
    ensures Enabled(s, Step(id, false))
    ensures var s', pos, items := Next(s, Step(id, false)), s.threads[id].pos, s.threads[id].items;
            && items != [] && pos < |s.phase|
            && s' == s.(buf := s'.buf, phase := s.phase[pos := Full],
                        threads := s.threads[id := if |items| == 1 then Idle else EnqBuild(pos + 1, items[1..])])
  {
    hide OrderInv, HistoryInv, Read, Write;
    assert ThreadInv(s.cap, s.head, s.tail, s.buf, s.enq, s.phase, id, s.threads[id]);
  }

  lemma EnqFillsOne<T>(s: State<T>, id: nat)
    requires Inv(s) && s.cap >= 2 && id in s.threads && s.threads[id].EnqBuild?
    ensures var s', pos, items := Alone(s, id, 2), s.threads[id].pos, s.threads[id].items;
            && Inv(s') && items != [] && pos < |s.phase|
            && s' == s.(buf := s'.buf, phase := s.phase[pos := Full],
                        threads := s.threads[id := if |items| == 1 then Idle else EnqBuild(pos + 1, items[1..])])
  {
    hide RingInv, OrderInv, ThreadsInv, HistoryInv, Next, Alone, Enabled;
    EnqBuildStep(s, id);
    var s1 := Next(s, Step(id, false));
    AloneInv(s, id, 1);
    AloneInv(s, id, 2);
    AloneOnce(s, id);
    EnqPublishStep(s1, id);
    AloneOnce(s1, id);
    AloneTwice(s, id, 1, 1);
  }

  /** An undisturbed producer fills and publishes all the slots it has claimed. */
  lemma EnqFills<T>(s: State<T>, id: nat)
    requires Inv(s) && s.cap >= 2 && id in s.threads && s.threads[id].EnqBuild?
    ensures var pos, n := s.threads[id].pos, |s.threads[id].items|;
            var s' := Alone(s, id, 2 * n);
            && s' == s.(buf := s'.buf, phase := s'.phase, threads := s.threads[id := Idle]) && |s'.phase| == |s.phase|
            && forall p: nat | p < |s.phase| :: s'.phase[p] == if pos <= p < pos + n then Full else s.phase[p]
    decreases |s.threads[id].items|
  {
    hide RingInv, OrderInv, ThreadsInv, HistoryInv, Alone, Next;
    var pos, items := s.threads[id].pos, s.threads[id].items;
    EnqFillsOne(s, id);
    var s' := Alone(s, id, 2);
    if |items| == 1 {
      assert 2 * |items| == 2;
    } else {
      EnqFills(s', id);
      AloneTwice(s, id, 2, 2 * (|items| - 1));
    }
  }

  lemma FreeOne<T>(s: State<T>, most: nat)
    requires most > 0
    ensures FreeRun(s.phase, s.cap, s.tail, most) == 0 <==> IsFull(s)
  {
  }

  /** From the exchange on. */
  lemma EnqClaims<T>(s: State<T>, id: nat) returns (k: nat)
    requires Inv(s) && s.cap >= 2 && id in s.threads && s.threads[id].EnqCas? && s.threads[id].t == s.tail
    ensures var s', items, n := Alone(s, id, k), s.threads[id].items, s.threads[id].n;
            && n <= |items| && s'.threads == s.threads[id := Idle] && s'.head == s.head && s'.taken == s.taken
            && s'.enq == s.enq + items[..n] && s'.phase == s.phase + Repeat(Full, n)
  {
    hide RingInv, OrderInv, HistoryInv, Alone;
    var items, n := s.threads[id].items, s.threads[id].n;
    InvIsSized(s);
    assert ThreadInv(s.cap, s.head, s.tail, s.buf, s.enq, s.phase, id, s.threads[id]);
    var s1 := Next(s, Step(id, false));
    NextInv(s, Step(id, false));
    AloneOnce(s, id);
    EnqFills(s1, id);
    k := 1 + 2 * n;
    AloneTwice(s, id, 1, 2 * n);
    assert |items[..n]| == n;
    var s' := Alone(s1, id, 2 * n);
    assert s'.phase == s.phase + Repeat(Full, n);
  }

  /** An undisturbed enqueue puts as many of its items behind the others as there are free slots in a row, in
      their order and published, or finds the queue full and leaves everything as it was. */
  lemma EnqueueAppends<T>(s: State<T>, id: nat, items: seq<T>, bulk: bool) returns (k: nat)
    requires Inv(s) && s.cap >= 2 && Enabled(s, StartEnq(id, items, bulk))
    ensures var s', n := Alone(Next(s, StartEnq(id, items, bulk)), id, k), FreeRun(s.phase, s.cap, s.tail, Min(|items|, s.cap));
            && (n == 0 <==> IsFull(s)) && s'.threads == s.threads && s'.head == s.head && s'.taken == s.taken
            && s'.enq == s.enq + items[..n] && s'.phase == s.phase + Repeat(Full, n) && (n == 0 ==> s' == s)
  {
    hide RingInv, OrderInv, ThreadsInv, HistoryInv, Alone, FreeRun;
    var s1, n := Next(s, StartEnq(id, items, bulk)), FreeRun(s.phase, s.cap, s.tail, Min(|items|, s.cap));
    NextInv(s, StartEnq(id, items, bulk));
    var s2 := Next(s1, Step(id, false));
    AloneInv(s1, id, 1);
    AloneOnce(s1, id);
    InvIsSized(s);
    assert s2 == Goto(s, id, EnqScan(items, bulk, s.tail, 0));
    var m := EnqScans(s2, id, items, bulk, 0);
    GotoTwice(s, id, s2.threads[id], Alone(s2, id, m).threads[id]);
    FreeOne(s, Min(|items|, s.cap));
    AloneTwice(s1, id, 1, m);
    AloneInv(s1, id, 1 + m);
    if n == 0 {
      k := 1 + m;
      assert items[..0] == [] && s.phase + Repeat(Full, 0) == s.phase && s.enq + items[..0] == s.enq;
      assert Goto(s, id, Idle).threads == s.threads;
    } else {
      var s3 := Goto(s, id, EnqCas(items, bulk, s.tail, n));
      var rest := EnqClaims(s3, id);
      k := 1 + m + rest;
      AloneTwice(s1, id, 1 + m, rest);
      assert s.threads[id := EnqCas(items, bulk, s.tail, n)][id := Idle] == s.threads;
    }
  }

  lemma DeqScanStep<T>(s: State<T>, id: nat, want: nat, bulk: bool, i: nat)
    requires Inv(s) && id in s.threads && s.threads[id] == DeqScan(want, bulk, s.head, i) && i < want
    ensures Enabled(s, Step(id, false))
    ensures Next(s, Step(id, false)) == Goto(s, id,
              if Published(s.phase, s.head + i) then
                if i + 1 < want then DeqScan(want, bulk, s.head, i + 1) else DeqCas(want, bulk, s.head, i + 1)
              else if i > 0 then DeqCas(want, bulk, s.head, i)
              else if bulk then DeqRecheck(want, s.head) else Idle)
  {
    hide OrderInv, ThreadsInv, HistoryInv, Read, Published;
    ScanSeesPublished(s, i);
    if i == 0 && !bulk {
      SeqBehind(s, s.head);
    }
  }

  lemma RechecksEmpty<T>(s: State<T>, id: nat, want: nat)
    requires |s.buf| == s.cap > 0 && id in s.threads && s.threads[id] == DeqRecheck(want, s.head) && Read(s.buf, s.head).seqNo < s.head + 1
    ensures Alone(s, id, 1) == Goto(s, id, Idle)
  {
    AloneOnce(s, id);
  }

  /** The scan of an undisturbed dequeue finds the longest run of published slots, or that there is none. */
  lemma DeqScans<T>(s: State<T>, id: nat, want: nat, bulk: bool, i: nat) returns (k: nat)
    requires Inv(s) && s.cap >= 2 && id in s.threads && s.threads[id] == DeqScan(want, bulk, s.head, i) && i < want
    ensures var n := i + PublishedRun(s.phase, s.head + i, want - i);
            Alone(s, id, k) == Goto(s, id, if n == 0 then Idle else DeqCas(want, bulk, s.head, n))
    decreases want - i
  {
    hide RingInv, OrderInv, ThreadsInv, HistoryInv, Read, Alone, Next, Published;
    InvIsSized(s);
    DeqScanStep(s, id, want, bulk, i);
    var s1 := Next(s, Step(id, false));
    AloneOnce(s, id);
    k := 1;
    if s1.threads[id].DeqScan? {
      AloneInv(s, id, 1);
      var m := DeqScans(s1, id, want, bulk, i + 1);
      k := 1 + m;
      AloneTwice(s, id, 1, m);
      GotoTwice(s, id, s1.threads[id], Alone(s1, id, m).threads[id]);
    } else if s1.threads[id].DeqRecheck? {
      SeqBehind(s, s.head);
      RechecksEmpty(s1, id, want);
      GotoTwice(s, id, s1.threads[id], Idle);
      AloneTwice(s, id, 1, 1);
      k := 2;
    }
  }

  lemma DeqMoveStep<T>(s: State<T>, id: nat)
    requires Inv(s) && id in s.threads && s.threads[id].DeqMove?
    ensures Enabled(s, Step(id, false))
    ensures var s', pos, n := Next(s, Step(id, false)), s.threads[id].pos, s.threads[id].n;
            n > 0 && pos < |s.enq| && s' == s.(buf := s'.buf, threads := s.threads[id := DeqRelease(pos, n, Some(s.enq[pos]))])
  {
    hide OrderInv, HistoryInv, Read, Write;
    assert ThreadInv(s.cap, s.head, s.tail, s.buf, s.enq, s.phase, id, s.threads[id]);
  }

  lemma DeqReleaseStep<T>(s: State<T>, id: nat)
    requires Inv(s) && id in s.threads && s.threads[id].DeqRelease?
    ensures Enabled(s, Step(id, false))
    ensures var s', pos, n := Next(s, Step(id, false)), s.threads[id].pos, s.threads[id].n;
            && n > 0 && pos < |s.phase|
            && s' == s.(buf := s'.buf, phase := s.phase[pos := Done(|s.taken|)], taken := s.taken + [Take(pos, s.threads[id].v)],
                        threads := s.threads[id := if n == 1 then Idle else DeqMove(pos + 1, n - 1)])
  {
    hide OrderInv, HistoryInv, Read, Write;
    assert ThreadInv(s.cap, s.head, s.tail, s.buf, s.enq, s.phase, id, s.threads[id]);
  }

  lemma DeqTakesOne<T>(s: State<T>, id: nat)
    requires Inv(s) && s.cap >= 2 && id in s.threads && s.threads[id].DeqMove?
    ensures var s', pos, n := Alone(s, id, 2), s.threads[id].pos, s.threads[id].n;
            && Inv(s') && n > 0 && pos < |s.enq| == |s.phase|
            && s' == s.(buf := s'.buf, phase := s.phase[pos := Done(|s.taken|)], taken := s.taken + [Take(pos, Some(s.enq[pos]))],
                        threads := s.threads[id := if n == 1 then Idle else DeqMove(pos + 1, n - 1)])
  {
    hide RingInv, OrderInv, ThreadsInv, HistoryInv, Next, Alone, Enabled;
    InvIsSized(s);
    DeqMoveStep(s, id);
    var s1 := Next(s, Step(id, false));
    AloneInv(s, id, 1);
    AloneInv(s, id, 2);
    AloneOnce(s, id);
    DeqReleaseStep(s1, id);
    AloneOnce(s1, id);
    AloneTwice(s, id, 1, 1);
  }

  /** Takes of the `n` items from position `pos` on. */
  function TakesFrom<T>(enq: seq<T>, pos: nat, n: nat): (r: seq<Take<T>>)
    requires pos + n <= |enq|
    ensures |r| == n && forall j | 0 <= j < n :: r[j] == Take(pos + j, Some(enq[pos + j]))
    decreases n
  {
    if n == 0 then [] else [Take(pos, Some(enq[pos]))] + TakesFrom(enq, pos + 1, n - 1)
  }

  /** An undisturbed consumer takes all the items it has claimed, in their order. */
  lemma DeqTakes<T>(s: State<T>, id: nat)
    requires Inv(s) && s.cap >= 2 && id in s.threads && s.threads[id].DeqMove?
    ensures var pos, n := s.threads[id].pos, s.threads[id].n;
            var s' := Alone(s, id, 2 * n);
            && s' == s.(buf := s'.buf, phase := s'.phase, taken := s'.taken, threads := s.threads[id := Idle])
            && pos + n <= |s.enq| && s'.taken == s.taken + TakesFrom(s.enq, pos, n)
    decreases s.threads[id].n
  {
    hide RingInv, OrderInv, ThreadsInv, HistoryInv, Alone, Next;
    var pos, n := s.threads[id].pos, s.threads[id].n;
    DeqTakesOne(s, id);
    var s' := Alone(s, id, 2);
    if n == 1 {
      assert TakesFrom(s.enq, pos + 1, 0) == [];
    } else {
      DeqTakes(s', id);
      AloneTwice(s, id, 2, 2 * (n - 1));
      assert s.taken + ([Take(pos, Some(s.enq[pos]))] + TakesFrom(s.enq, pos + 1, n - 1))
          == (s.taken + [Take(pos, Some(s.enq[pos]))]) + TakesFrom(s.enq, pos + 1, n - 1);
    }
  }

  lemma PublishedOne<T>(s: State<T>, most: nat)
    requires most > 0
    ensures PublishedRun(s.phase, s.head, most) == 0 <==> IsEmpty(s)
  {
  }

  lemma DeqClaims<T>(s: State<T>, id: nat) returns (k: nat)
    requires Inv(s) && s.cap >= 2 && id in s.threads && s.threads[id].DeqCas? && s.threads[id].h == s.head
    ensures var s', n := Alone(s, id, k), s.threads[id].n;
            && s.head + n <= |s.enq| && s'.threads == s.threads[id := Idle] && s'.head == s.head + n && s'.enq == s.enq
            && s'.taken == s.taken + TakesFrom(s.enq, s.head, n)
  {
    hide RingInv, OrderInv, HistoryInv, Alone, Claim;
    var n := s.threads[id].n;
    InvIsSized(s);
    assert ThreadInv(s.cap, s.head, s.tail, s.buf, s.enq, s.phase, id, s.threads[id]);
    AloneInv(s, id, 1);
    AloneOnce(s, id);
    DeqTakes(Next(s, Step(id, false)), id);
    k := 1 + 2 * n;
    AloneTwice(s, id, 1, 2 * n);
  }

  /** An undisturbed dequeue returns as many of the oldest items as are published in a row, in their order, or
      finds the queue empty and leaves everything as it was. */
  lemma DequeueTakesOldest<T>(s: State<T>, id: nat, want: nat, bulk: bool) returns (k: nat)
    requires Inv(s) && s.cap >= 2 && Enabled(s, StartDeq(id, want, bulk)) && want > 0
    ensures var s', n := Alone(Next(s, StartDeq(id, want, bulk)), id, k), PublishedRun(s.phase, s.head, want);
            && (n == 0 <==> IsEmpty(s)) && s'.threads == s.threads && s'.enq == s.enq && s.head + n <= |s.enq|
            && s'.head == s.head + n && s'.taken == s.taken + TakesFrom(s.enq, s.head, n) && (n == 0 ==> s' == s)
  {
    hide RingInv, ThreadsInv, HistoryInv, Alone, PublishedRun, TakesFrom;
    var s1, n := Next(s, StartDeq(id, want, bulk)), PublishedRun(s.phase, s.head, want);
    NextInv(s, StartDeq(id, want, bulk));
    var s2 := Next(s1, Step(id, false));
    AloneInv(s1, id, 1);
    AloneOnce(s1, id);
    InvIsSized(s);
    assert s2 == Goto(s, id, DeqScan(want, bulk, s.head, 0));
    var m := DeqScans(s2, id, want, bulk, 0);
    GotoTwice(s, id, s2.threads[id], Alone(s2, id, m).threads[id]);
    PublishedOne(s, want);
    AloneTwice(s1, id, 1, m);
    AloneInv(s1, id, 1 + m);
    if n == 0 {
      k := 1 + m;
      assert s.taken + TakesFrom(s.enq, s.head, 0) == s.taken;
      assert Goto(s, id, Idle).threads == s.threads;
    } else {
      var rest := DeqClaims(Goto(s, id, DeqCas(want, bulk, s.head, n)), id);
      k := 1 + m + rest;
      AloneTwice(s1, id, 1 + m, rest);
      assert s.threads[id := DeqCas(want, bulk, s.head, n)][id := Idle] == s.threads;
    }
  }

  // ---------------------------------------------------------------- the capacity the queue needs

  /** With capacity `cap`, no run ever has more than `cap` items open. */
  ghost predicate CapacityHolds(cap: nat) {
    forall run: seq<State<int>>, events: seq<Event<int>> | IsRun(run, events) && run[0].cap == cap ::
      forall k | 0 <= k < |run| :: run[k].tail <= run[k].head + cap
  }

  /** Thread 0 of a one-slot queue whose slot shows `tail` enqueues `v` and nothing stops it. */
  lemma OneSlotEnqueue(s: State<int>, v: int) returns (run: seq<State<int>>)
    requires s.tail <= 1 && s == State(1, 0, s.tail, s.buf, map[0 := Idle], s.enq, s.phase, [])
    requires |s.buf| == 1 && s.buf[0].seqNo == s.tail == |s.enq| == |s.phase|
    ensures |run| == 7 && run[0] == s
    ensures forall i | 0 <= i < 6 ::
              Enabled(run[i], OneSlotEvent(i, v)) && run[i + 1] == Next(run[i], OneSlotEvent(i, v))
    ensures run[6] == State(1, 0, s.tail + 1, [Slot(s.tail + 1, Some(v))], map[0 := Idle], s.enq + [v], s.phase + [Full], [])
  {
    OneSlotStore(s.buf, s.tail, s.buf[0]);
    var s1 := Next(s, OneSlotEvent(0, v));
    var s2 := Next(s1, OneSlotEvent(1, v));
    var s3 := Next(s2, OneSlotEvent(2, v));
    assert s2.threads == map[0 := EnqScan([v], false, s.tail, 0)];
    assert s3.threads == map[0 := EnqCas([v], false, s.tail, 1)];
    assert s3 == s.(threads := map[0 := EnqCas([v], false, s.tail, 1)]);
    var s4 := Next(s3, OneSlotEvent(3, v));
    assert [v][..1] == [v] && Repeat(Writing(0), 1) == [Writing(0)];
    assert s4 == State(1, 0, s.tail + 1, s.buf, map[0 := EnqBuild(s.tail, [v])], s.enq + [v], s.phase + [Writing(0)], []);
    var s5 := Next(s4, OneSlotEvent(4, v));
    OneSlotStore(s4.buf, s.tail, Slot(s.tail, Some(v)));
    var s6 := Next(s5, OneSlotEvent(5, v));
    OneSlotStore(s5.buf, s.tail, Slot(s.tail + 1, Some(v)));
    assert s6.threads == map[0 := Idle];
    assert (s.phase + [Writing(0)])[s.tail := Full] == s.phase + [Full];
    run := [s, s1, s2, s3, s4, s5, s6];
  }

  lemma OneSlotStore(buf: seq<Slot<int>>, p: nat, slot: Slot<int>)
    requires |buf| == 1 && p <= 1
    ensures Read(buf, p) == buf[0] && Write(buf, p, slot) == [slot]
  {
    assert p == 1 ==> Read(buf, 1) == Read(buf, 0) && Write(buf, 1, slot) == Write(buf, 0, slot);
  }

  function OneSlotEvent(i: nat, v: int): Event<int> {
    if i == 0 then StartEnq(0, [v], false) else Step(0, false)
  }

  /** With one slot, "full at p" and "free for p + 1" are the same sequence number: two enqueues in
      a row both succeed and the first item is overwritten. */
  lemma OneSlotLosesItems() returns (run: seq<State<int>>, events: seq<Event<int>>)
    ensures IsRun(run, events) && run[0].cap == 1
    ensures var s := run[|run| - 1]; s.head == 0 && s.tail == 2 && s.enq == [7, 8] && s.buf == [Slot(2, Some(8))]
  {
    var first := OneSlotEnqueue(State(1, 0, 0, [Slot(0, None)], map[0 := Idle], [], [], []), 7);
    var second := OneSlotEnqueue(first[6], 8);
    run := first[..6] + second;
    events := seq(12, i requires i >= 0 => if i < 6 then OneSlotEvent(i, 7) else OneSlotEvent(i - 6, 8));
    assert forall i | 0 <= i < 6 :: run[i] == first[i] && run[i + 6] == second[i];
    assert run[6] == first[6] && run[12] == second[6];
  }

  /** The queue keeps its capacity exactly when it has at least two slots. */
  lemma TwoSlotsNeeded(cap: nat)
    requires cap > 0
    ensures CapacityHolds(cap) <==> cap >= 2
  {
    if cap >= 2 {
      forall run: seq<State<int>>, events: seq<Event<int>>, k: nat
        | IsRun(run, events) && run[0].cap == cap && k < |run|
        ensures run[k].tail <= run[k].head + cap
      {
        RunInv(run, events, k);
      }
    } else {
      var run, events := OneSlotLosesItems();
      assert run[|run| - 1].tail > run[|run| - 1].head + cap;
    }
  }
}
