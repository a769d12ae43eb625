/** KzSTL/ArrayMpscQueue.h as a state machine: any number of producers and one consumer, single and
    bulk, one event per atomic load, store or compare-and-swap, sequentially consistent. */
module MpscQueue {
  import opened Common
  import opened Ring

  datatype Slot<T> = Slot(data: Option<T>, written: bool)

  /** `push(x)` is `pushBulk([x])`: with one item wanted, "no room for all" and "full" coincide. */
  datatype Producer<T> =
    | Away
    | LoadTail(items: seq<T>)
    | LoadHead(items: seq<T>, t: nat)
    | ReloadHead(items: seq<T>, t: nat)
    | Cas(items: seq<T>, t: nat, h: nat, n: nat)
    | Spin(pos: nat, items: seq<T>)
    | Build(pos: nat, items: seq<T>)
    | Publish(pos: nat, items: seq<T>)

  /** `pop` is `popBulk` with room for one item. */
  datatype Consumer<T> =
    | Resting
    | Check(h: nat, i: nat, want: nat)
    | Move(h: nat, i: nat, want: nat)
    | Clear(h: nat, i: nat, want: nat, v: Option<T>)
    | StoreHead(n: nat)

  /** A claimed position is being written by producer `id`, or published. */
  datatype Status = Writing(id: nat) | Ready

  /** `enq`, `status` and `popped` are history that no step reads: the item claimed at each
      position, the status of each claimed position, and what the consumer got so far. */
  datatype State<T> = State(
    cap: nat, head: nat, tail: nat, buf: seq<Slot<T>>, consumer: Consumer<T>, producers: map<nat, Producer<T>>,
    enq: seq<T>, status: seq<Status>, popped: seq<Option<T>>)

  /** `spurious` lets a weak compare-and-swap fail although the value matched. */
  datatype Event<T> =
    | StartPush(id: nat, items: seq<T>)
    | ProducerStep(id: nat, spurious: bool)
    | StartPop(want: nat)
    | ConsumerStep

  ghost predicate Init<T>(s: State<T>) {
    && s.cap > 0 && s.head == 0 && s.tail == 0
    && |s.buf| == s.cap
    && (forall i | 0 <= i < s.cap :: !s.buf[i].written)
    && s.consumer == Resting
    && (forall id | id in s.producers :: s.producers[id] == Away)
    && s.enq == [] && s.status == [] && s.popped == []
  }

  predicate Enabled<T>(s: State<T>, e: Event<T>) {
    && s.cap > 0 && |s.buf| == s.cap
    && match e {
      case StartPush(id, items) => id in s.producers && s.producers[id].Away? && items != []
      case ProducerStep(id, _) => id in s.producers && !s.producers[id].Away?
      case StartPop(want) => s.consumer.Resting? && want > 0
      case ConsumerStep => !s.consumer.Resting?
    }
  }

  /** Free slots as a producer computes them from the counters it loaded. The source subtracts
      unsigned: a head ahead of the tail wraps to a huge size, which leaves no room. Counters are
      assumed not to reach 2^64. */
  function Available(cap: nat, t: nat, h: nat): nat {
    if t < h || t - h >= cap then 0 else cap - (t - h)
  }

  function Next<T>(s: State<T>, e: Event<T>): State<T>
    requires Enabled(s, e)
  {
    match e
    case StartPush(id, items) => Goto(s, id, LoadTail(items))
    case ProducerStep(id, spurious) => ProducerNext(s, id, spurious)
    case StartPop(want) => s.(consumer := Check(s.head, 0, want))
    case ConsumerStep => ConsumerNext(s)
  }

  function Goto<T>(s: State<T>, id: nat, pc: Producer<T>): State<T> {
    s.(producers := s.producers[id := pc])
  }

  function Store<T>(s: State<T>, p: nat, slot: Slot<T>): State<T>
    requires |s.buf| > 0
  {
    s.(buf := Write(s.buf, p, slot))
  }

  function AfterHead<T>(cap: nat, items: seq<T>, t: nat, h: nat): Producer<T> {
    if Available(cap, t, h) < |items| then ReloadHead(items, t) else Cas(items, t, h, |items|)
  }

  function AfterReload<T>(cap: nat, items: seq<T>, t: nat, h: nat): Producer<T> {
    if Available(cap, t, h) == 0 then Away else Cas(items, t, h, Min(|items|, Available(cap, t, h)))
  }

  function ProducerNext<T>(s: State<T>, id: nat, spurious: bool): State<T>
    requires s.cap > 0 && |s.buf| == s.cap && id in s.producers
  {
    match s.producers[id]
    case Away => s
    case LoadTail(items) => Goto(s, id, LoadHead(items, s.tail))
    case LoadHead(items, t) => Goto(s, id, AfterHead(s.cap, items, t, s.head))
    case ReloadHead(items, t) => Goto(s, id, AfterReload(s.cap, items, t, s.head))
    case Cas(items, t, h, n) =>
      if s.tail != t || spurious || n > |items| then Goto(s, id, AfterHead(s.cap, items, s.tail, h))
      else Goto(s, id, Spin(t, items[..n]))
           .(tail := t + n, enq := s.enq + items[..n], status := s.status + Repeat(Writing(id), n))
    case Spin(pos, items) => if Read(s.buf, pos).written then s else Goto(s, id, Build(pos, items))
    case Build(pos, items) =>
      if items == [] then Goto(s, id, Away)
      else Goto(Store(s, pos, Read(s.buf, pos).(data := Some(items[0]))), id, Publish(pos, items))
    case Publish(pos, items) =>
      if items == [] || pos >= |s.status| then Goto(s, id, Away)
      else Goto(Store(s, pos, Read(s.buf, pos).(written := true)), id,
                if |items| == 1 then Away else Spin(pos + 1, items[1..]))
           .(status := s.status[pos := Ready])
  }

  function ConsumerNext<T>(s: State<T>): State<T>
    requires s.cap > 0 && |s.buf| == s.cap
  {
    match s.consumer
    case Resting => s
    case Check(h, i, want) =>
      s.(consumer := if Read(s.buf, h + i).written then Move(h, i, want) else if i > 0 then StoreHead(h + i) else Resting)
    case Move(h, i, want) =>
      Store(s, h + i, Read(s.buf, h + i).(data := None)).(consumer := Clear(h, i, want, Read(s.buf, h + i).data))
    case Clear(h, i, want, v) =>
      Store(s, h + i, Read(s.buf, h + i).(written := false))
      .(popped := s.popped + [v], consumer := if i + 1 < want then Check(h, i + 1, want) else StoreHead(h + i + 1))
    case StoreHead(n) => s.(head := n, consumer := Resting)
  }

  // ---------------------------------------------------------------- the invariant

  /** Positions already popped, those the consumer may read, and those a producer may claim. */
  ghost predicate RingInv<T>(cap: nat, head: nat, tail: nat, buf: seq<Slot<T>>, enq: seq<T>, status: seq<Status>,
                             done: nat, moving: bool)
  {
    && |buf| == cap > 0 && |enq| == |status| == tail
    && head <= done <= tail <= head + cap
    && (forall p: nat | p < done :: status[p].Ready?)
    && (forall p: nat | head <= p < done :: !Read(buf, p).written)
    && (forall p: nat | done <= p < tail && status[p].Ready? ::
         Read(buf, p) == Slot(if moving && p == done then None else Some(enq[p]), true))
    && (forall p: nat | done <= p < tail && status[p].Writing? :: !Read(buf, p).written)
    && (forall p: nat | tail <= p < head + cap :: !Read(buf, p).written)
  }

  ghost predicate ConsumerInv<T>(head: nat, tail: nat, enq: seq<T>, status: seq<Status>, done: nat, c: Consumer<T>)
    requires |enq| == |status| == tail
  {
    match c
    case Resting => done == head
    case Check(h, i, want) => h == head && done == h + i
    case Move(h, i, want) => h == head && done == h + i && done < tail && status[done].Ready?
    case Clear(h, i, want, v) => h == head && done == h + i && done < tail && status[done].Ready? && v == Some(enq[done])
    case StoreHead(n) => done == n
  }

  ghost predicate ProducerInv<T>(cap: nat, head: nat, tail: nat, buf: seq<Slot<T>>, enq: seq<T>, status: seq<Status>,
                                 id: nat, pc: Producer<T>)
    requires |buf| == cap > 0 && |enq| == |status| == tail
  {
    match pc
    case Away => true
    case LoadTail(items) => items != []
    case LoadHead(items, t) => items != [] && t <= tail
    case ReloadHead(items, t) => items != [] && t <= tail
    case Cas(items, t, h, n) => h <= t <= tail && h <= head && 0 < n <= |items| && t + n <= h + cap
    case Spin(pos, items) => items != [] && Writes(tail, enq, status, id, pos, items)
    case Build(pos, items) => items != [] && Writes(tail, enq, status, id, pos, items)
    case Publish(pos, items) =>
      items != [] && Writes(tail, enq, status, id, pos, items) && Read(buf, pos).data == Some(items[0])
  }

  ghost predicate Writes<T>(tail: nat, enq: seq<T>, status: seq<Status>, id: nat, pos: nat, items: seq<T>)
    requires |enq| == |status| == tail
  {
    && pos + |items| <= tail
    && forall p: nat | pos <= p < pos + |items| :: status[p] == Writing(id) && enq[p] == items[p - pos]
  }

  predicate Owns<T>(producers: map<nat, Producer<T>>, id: nat, p: nat) {
    && id in producers
    && (producers[id].Spin? || producers[id].Build? || producers[id].Publish?)
    && producers[id].pos <= p < producers[id].pos + |producers[id].items|
  }

  /** What was popped is what was claimed, in claim order; an unpublished position has its producer. */
  ghost predicate HistoryInv<T>(producers: map<nat, Producer<T>>, enq: seq<T>, status: seq<Status>, popped: seq<Option<T>>) {
    && |popped| <= |enq| == |status|
    && (forall p: nat | p < |popped| :: popped[p] == Some(enq[p]))
    && (forall p: nat | p < |status| && status[p].Writing? :: Owns(producers, status[p].id, p))
  }

  ghost predicate QueueInv<T>(s: State<T>) {
    && RingInv(s.cap, s.head, s.tail, s.buf, s.enq, s.status, |s.popped|, s.consumer.Clear?)
    && ConsumerInv(s.head, s.tail, s.enq, s.status, |s.popped|, s.consumer)
  }

  ghost predicate ProducersInv<T>(s: State<T>)
    requires |s.buf| == s.cap > 0 && |s.enq| == |s.status| == s.tail
  {
    forall id | id in s.producers ::
      ProducerInv(s.cap, s.head, s.tail, s.buf, s.enq, s.status, id, s.producers[id])
  }

  ghost predicate Inv<T>(s: State<T>) {
    QueueInv(s) && ProducersInv(s) && HistoryInv(s.producers, s.enq, s.status, s.popped)
  }

  lemma InitInv<T>(s: State<T>)
    requires Init(s)
    ensures Inv(s)
  {
  }

  // ---------------------------------------------------------------- every step keeps the invariant

  lemma GotoInv<T>(s: State<T>, id: nat, pc: Producer<T>)
    requires Inv(s) && id in s.producers
    requires !s.producers[id].Spin? && !s.producers[id].Build? && !s.producers[id].Publish?
    requires ProducerInv(s.cap, s.head, s.tail, s.buf, s.enq, s.status, id, pc)
    ensures Inv(Goto(s, id, pc))
  {
    forall p: nat | p < |s.status| && s.status[p].Writing?
      ensures Owns(Goto(s, id, pc).producers, s.status[p].id, p)
    {
      assert Owns(s.producers, s.status[p].id, p);
    }
  }

  lemma CasQueue<T>(s: State<T>, id: nat)
    requires Inv(s) && id in s.producers && s.producers[id].Cas? && s.producers[id].t == s.tail
    ensures QueueInv(ProducerNext(s, id, false))
  {
  }

  lemma CasProducers<T>(s: State<T>, id: nat)
    requires Inv(s) && id in s.producers && s.producers[id].Cas? && s.producers[id].t == s.tail
    requires QueueInv(ProducerNext(s, id, false))
    ensures ProducersInv(ProducerNext(s, id, false))
  {
  }

  lemma CasHistory<T>(s: State<T>, id: nat)
    requires Inv(s) && id in s.producers && s.producers[id].Cas? && s.producers[id].t == s.tail
    ensures var s' := ProducerNext(s, id, false); HistoryInv(s'.producers, s'.enq, s'.status, s'.popped)
  {
    assert forall p: nat | p < |s.status| && s.status[p].Writing? :: Owns(s.producers, s.status[p].id, p);
  }

  /** The wait for a slot to be consumed, which guards against reuse, never has to wait. */
  lemma SpinNeverIterates<T>(s: State<T>, id: nat)
    requires Inv(s) && id in s.producers && s.producers[id].Spin?
    ensures !Read(s.buf, s.producers[id].pos).written
    ensures ProducerNext(s, id, false).producers[id].Build?
  {
    var pos := s.producers[id].pos;
    assert s.status[pos] == Writing(id);
  }

  lemma SpinInv<T>(s: State<T>, id: nat)
    requires Inv(s) && id in s.producers && s.producers[id].Spin?
    ensures Inv(ProducerNext(s, id, false))
  {
    SpinNeverIterates(s, id);
    assert forall p: nat | p < |s.status| && s.status[p].Writing? :: Owns(s.producers, s.status[p].id, p);
  }

  /** Slots at positions a producer is writing are its own: stores there disturb nobody else. */
  lemma StoreFrame<T>(s: State<T>, p: nat, slot: Slot<T>)
    requires Inv(s) && s.head <= p < s.head + s.cap
    ensures Read(Write(s.buf, p, slot), p) == slot
    ensures forall q: nat {:trigger Read(Write(s.buf, p, slot), q)} ::
              s.head <= q < s.head + s.cap && q != p ==> Read(Write(s.buf, p, slot), q) == Read(s.buf, q)
  {
    Frame(s.buf, p, slot, s.head);
  }

  /** The slots that producers are about to publish are pairwise different and not the consumer's. */
  lemma PublishersApart<T>(s: State<T>, id: nat)
    requires Inv(s) && id in s.producers && s.producers[id].Publish?
    ensures s.head <= |s.popped| <= s.producers[id].pos < s.tail && s.status[s.producers[id].pos] == Writing(id)
  {
    assert s.status[s.producers[id].pos] == Writing(id);
  }

  lemma BuildInv<T>(s: State<T>, id: nat)
    requires Inv(s) && id in s.producers && s.producers[id].Build?
    ensures Inv(ProducerNext(s, id, false))
  {
    hide ConsumerInv, Read, AfterHead, Repeat;
    var pos, items := s.producers[id].pos, s.producers[id].items;
    assert s.status[pos] == Writing(id);
    forall id' | id' in s.producers && s.producers[id'].Publish?
      ensures s.head <= s.producers[id'].pos < s.tail && s.status[s.producers[id'].pos] == Writing(id')
    {
      PublishersApart(s, id');
    }
    StoreFrame(s, pos, Read(s.buf, pos).(data := Some(items[0])));
    assert forall p: nat | p < |s.status| && s.status[p].Writing? :: Owns(s.producers, s.status[p].id, p);
  }

  lemma PublishQueue<T>(s: State<T>, id: nat)
    requires Inv(s) && id in s.producers && s.producers[id].Publish?
    ensures QueueInv(ProducerNext(s, id, false))
  {
    var pos := s.producers[id].pos;
    PublishersApart(s, id);
    StoreFrame(s, pos, Read(s.buf, pos).(written := true));
  }

  lemma PublishKeepsOther<T>(s: State<T>, id: nat, other: nat)
    requires Inv(s) && id in s.producers && s.producers[id].Publish? && other in s.producers && other != id
    ensures var s' := ProducerNext(s, id, false);
            |s'.status| == |s.status| && ProducerInv(s.cap, s.head, s.tail, s'.buf, s.enq, s'.status, other, s.producers[other])
  {
    PublishersApart(s, id);
    if s.producers[other].Publish? {
      PublishersApart(s, other);
    }
    var pos := s.producers[id].pos;
    StoreFrame(s, pos, Read(s.buf, pos).(written := true));
  }

  lemma PublishProducers<T>(s: State<T>, id: nat)
    requires Inv(s) && id in s.producers && s.producers[id].Publish?
    requires QueueInv(ProducerNext(s, id, false))
    ensures ProducersInv(ProducerNext(s, id, false))
  {
    forall other | other in s.producers && other != id
      ensures var s' := ProducerNext(s, id, false);
              ProducerInv(s.cap, s.head, s.tail, s'.buf, s.enq, s'.status, other, s.producers[other])
    {
      PublishKeepsOther(s, id, other);
    }
  }

  lemma PublishInv<T>(s: State<T>, id: nat)
    requires Inv(s) && id in s.producers && s.producers[id].Publish?
    ensures Inv(ProducerNext(s, id, false))
  {
    hide ProducersInv;
    PublishQueue(s, id);
    PublishProducers(s, id);
    assert forall p: nat | p < |s.status| && s.status[p].Writing? :: Owns(s.producers, s.status[p].id, p);
  }

  lemma CheckInv<T>(s: State<T>)
    requires Inv(s) && s.consumer.Check?
    ensures Inv(ConsumerNext(s))
  {
    SameSlot(s.buf, s.head);
  }

  lemma MoveInv<T>(s: State<T>)
    requires Inv(s) && s.consumer.Move?
    ensures Inv(ConsumerNext(s))
  {
    var p := s.consumer.h + s.consumer.i;
    forall id' | id' in s.producers && s.producers[id'].Publish?
      ensures s.head <= s.producers[id'].pos < s.tail && s.status[s.producers[id'].pos] == Writing(id')
    {
      PublishersApart(s, id');
    }
    StoreFrame(s, p, Read(s.buf, p).(data := None));
  }

  lemma ClearInv<T>(s: State<T>)
    requires Inv(s) && s.consumer.Clear?
    ensures Inv(ConsumerNext(s))
  {
    hide Writes, Read;
    var p := s.consumer.h + s.consumer.i;
    forall id' | id' in s.producers && s.producers[id'].Publish?
      ensures s.head <= s.producers[id'].pos < s.tail && s.status[s.producers[id'].pos] == Writing(id')
    {
      PublishersApart(s, id');
    }
    StoreFrame(s, p, Read(s.buf, p).(written := false));
  }

  lemma StoreHeadInv<T>(s: State<T>)
    requires Inv(s) && s.consumer.StoreHead?
    ensures Inv(ConsumerNext(s))
  {
    var s' := ConsumerNext(s);
    forall p: nat | s.head + s.cap <= p < s'.head + s'.cap
      ensures !Read(s.buf, p).written
    {
      SameSlot(s.buf, p - s.cap);
    }
  }

  lemma CasInv<T>(s: State<T>, id: nat, spurious: bool)
    requires Inv(s) && id in s.producers && s.producers[id].Cas?
    ensures Inv(ProducerNext(s, id, spurious))
  {
    if s.producers[id].t == s.tail && !spurious {
      CasQueue(s, id);
      CasProducers(s, id);
      CasHistory(s, id);
    } else {
      GotoInv(s, id, AfterHead(s.cap, s.producers[id].items, s.tail, s.producers[id].h));
    }
  }

  lemma ProducerStepInv<T>(s: State<T>, id: nat, spurious: bool)
    requires Inv(s) && id in s.producers
    ensures Inv(ProducerNext(s, id, spurious))
  {
    match s.producers[id]
    case Away =>
    case LoadTail(items) => GotoInv(s, id, LoadHead(items, s.tail));
    case LoadHead(items, t) => GotoInv(s, id, AfterHead(s.cap, items, t, s.head));
    case ReloadHead(items, t) => GotoInv(s, id, AfterReload(s.cap, items, t, s.head));
    case Cas(_, _, _, _) => CasInv(s, id, spurious);
    case Spin(_, _) => SpinInv(s, id);
    case Build(_, _) => BuildInv(s, id);
    case Publish(_, _) => PublishInv(s, id);
  }

  lemma NextInv<T>(s: State<T>, e: Event<T>)
    requires Inv(s) && Enabled(s, e)
    ensures Inv(Next(s, e))
  {
    match e
    case StartPush(id, items) => GotoInv(s, id, LoadTail(items));
    case ProducerStep(id, spurious) => ProducerStepInv(s, id, spurious);
    case StartPop(_) =>
    case ConsumerStep =>
      match s.consumer {
        case Resting =>
        case Check(_, _, _) => CheckInv(s);
        case Move(_, _, _) => MoveInv(s);
        case Clear(_, _, _, _) => ClearInv(s);
        case StoreHead(_) => StoreHeadInv(s);
      }
  }

  // ---------------------------------------------------------------- what every run guarantees

  /** A run: the states visited and the events between them, interleaved in any way. */
  ghost predicate IsRun<T>(run: seq<State<T>>, events: seq<Event<T>>) {
    && |run| == |events| + 1
    && Init(run[0])
    && forall i | 0 <= i < |events| :: Enabled(run[i], events[i]) && run[i + 1] == Next(run[i], events[i])
  }

  lemma {:induction false} RunInv<T>(run: seq<State<T>>, events: seq<Event<T>>, i: nat)
    requires IsRun(run, events) && i < |run|
    ensures Inv(run[i])
  {
    if i == 0 {
      InitInv(run[0]);
    } else {
      RunInv(run, events, i - 1);
      NextInv(run[i - 1], events[i - 1]);
    }
  }

  /** In every run the consumer has got exactly the first accepted items in claim order; each later
      accepted item is published in its slot or still in the hands of the producer that claimed
      it; and no more than `cap` positions are ever open. */
  lemma PopsInClaimOrder<T>(run: seq<State<T>>, events: seq<Event<T>>, k: nat)
    requires IsRun(run, events) && k < |run|
    ensures var s := run[k];
            && s.head <= s.tail <= s.head + s.cap
            && |s.popped| <= |s.enq| == |s.status| == s.tail && |s.buf| > 0
            && (forall p: nat | p < |s.popped| :: s.popped[p] == Some(s.enq[p]))
            && (forall p: nat | |s.popped| <= p < s.tail && s.status[p].Writing? :: Owns(s.producers, s.status[p].id, p))
            && (forall p: nat | |s.popped| <= p < s.tail && s.status[p].Ready? ::
                 Read(s.buf, p) == Slot(Some(s.enq[p]), true) || (s.consumer.Clear? && s.consumer.v == Some(s.enq[p])))
  {
    RunInv(run, events, k);
  }

  /** The history of a run only grows: what was claimed or popped is never revised. */
  lemma {:induction false} HistoryGrows<T>(run: seq<State<T>>, events: seq<Event<T>>, i: nat, j: nat)
    requires IsRun(run, events) && i <= j < |run|
    ensures run[i].enq <= run[j].enq && run[i].popped <= run[j].popped
  {
    if i < j {
      HistoryGrows(run, events, i, j - 1);
      assert run[j] == Next(run[j - 1], events[j - 1]);
    }
  }

  /** A pop comes back empty-handed exactly when the next position in claim order has not been
      published. */
  lemma EmptyIsHonest<T>(s: State<T>)
    requires Inv(s) && s.consumer.Check? && s.consumer.i == 0
    ensures ConsumerNext(s).consumer.Resting? <==> (s.head == s.tail || s.status[s.head].Writing?)
  {
  }

  /** A push is turned away exactly when all slots are claimed, or when the tail it loaded is so old
      that the head has passed it. Only the first is what "queue full" promises. */
  lemma WhenPushIsTurnedAway<T>(s: State<T>, id: nat, spurious: bool)
    requires Inv(s) && id in s.producers
    requires s.producers[id].LoadTail? || s.producers[id].LoadHead? || s.producers[id].ReloadHead? || s.producers[id].Cas?
    ensures ProducerNext(s, id, spurious).producers[id].Away? <==>
              && s.producers[id].ReloadHead?
              && (s.producers[id].t < s.head || s.producers[id].t == s.tail == s.head + s.cap)
  {
  }

  // ---------------------------------------------------------------- what an operation achieves

  /** `n` steps of a producer that nobody disturbs. */
  function Alone<T>(s: State<T>, id: nat, n: nat): State<T>
    decreases n
  {
    if n == 0 || !Enabled(s, ProducerStep(id, false)) then s else Alone(Next(s, ProducerStep(id, false)), id, n - 1)
  }

  lemma AloneTwice<T>(s: State<T>, id: nat, m: nat, n: nat)
    ensures Alone(s, id, m + n) == Alone(Alone(s, id, m), id, n)
    decreases m
  {
    if m > 0 && Enabled(s, ProducerStep(id, false)) {
      AloneTwice(Next(s, ProducerStep(id, false)), id, m - 1, n);
    }
  }

  lemma AloneOnce<T>(s: State<T>, id: nat)
    requires Enabled(s, ProducerStep(id, false))
    ensures Alone(s, id, 1) == Next(s, ProducerStep(id, false))
  {
    assert Alone(Next(s, ProducerStep(id, false)), id, 0) == Next(s, ProducerStep(id, false));
  }

  lemma AloneInv<T>(s: State<T>, id: nat, n: nat)
    requires Inv(s)
    ensures Inv(Alone(s, id, n))
    decreases n
  {
    hide Inv, Next;
    if n > 0 && Enabled(s, ProducerStep(id, false)) {
      NextInv(s, ProducerStep(id, false));
      AloneInv(Next(s, ProducerStep(id, false)), id, n - 1);
    }
  }

  /** One turn of the loop that constructs and publishes. */
  lemma PublishesOne<T>(s: State<T>, id: nat)
    requires Inv(s) && id in s.producers && s.producers[id].Spin?
    ensures var s', pos, items := Alone(s, id, 3), s.producers[id].pos, s.producers[id].items;
            && items != [] && pos < |s.status|
            && s' == s.(buf := s'.buf, status := s.status[pos := Ready],
                        producers := s.producers[id := if |items| == 1 then Away else Spin(pos + 1, items[1..])])
  {
    hide Inv, Next, Alone, Enabled;
    SpinStep(s, id);
    var s1 := Next(s, ProducerStep(id, false));
    AloneOnce(s, id);
    AloneInv(s, id, 1);
    BuildStep(s1, id);
    var s2 := Next(s1, ProducerStep(id, false));
    AloneOnce(s1, id);
    AloneInv(s1, id, 1);
    PublishStep(s2, id);
    AloneOnce(s2, id);
    AloneTwice(s, id, 1, 2);
    AloneTwice(s1, id, 1, 1);
  }

  lemma SpinStep<T>(s: State<T>, id: nat)
    requires Inv(s) && id in s.producers && s.producers[id].Spin?
    ensures Enabled(s, ProducerStep(id, false))
    ensures Next(s, ProducerStep(id, false)) == Goto(s, id, Build(s.producers[id].pos, s.producers[id].items))
  {
    SpinNeverIterates(s, id);
  }

  lemma BuildStep<T>(s: State<T>, id: nat)
    requires Inv(s) && id in s.producers && s.producers[id].Build?
    ensures Enabled(s, ProducerStep(id, false))
    ensures var s', pos, items := Next(s, ProducerStep(id, false)), s.producers[id].pos, s.producers[id].items;
            items != [] && s' == s.(buf := s'.buf, producers := s.producers[id := Publish(pos, items)])
  {
  }

  lemma PublishStep<T>(s: State<T>, id: nat)
    requires Inv(s) && id in s.producers && s.producers[id].Publish?
    ensures Enabled(s, ProducerStep(id, false))
    ensures var s', pos, items := Next(s, ProducerStep(id, false)), s.producers[id].pos, s.producers[id].items;
            && items != [] && pos < |s.status|
            && s' == s.(buf := s'.buf, status := s.status[pos := Ready],
                        producers := s.producers[id := if |items| == 1 then Away else Spin(pos + 1, items[1..])])
  {
  }

  /** An undisturbed producer publishes all that it has claimed. */
  lemma PublishesAll<T>(s: State<T>, id: nat)
    requires Inv(s) && id in s.producers && s.producers[id].Spin?
    ensures var pos, n := s.producers[id].pos, |s.producers[id].items|;
            var s' := Alone(s, id, 3 * n);
            && s' == s.(buf := s'.buf, status := s'.status, producers := s.producers[id := Away]) && |s'.status| == |s.status|
            && forall p: nat | p < |s.status| :: s'.status[p] == if pos <= p < pos + n then Ready else s.status[p]
    decreases |s.producers[id].items|
  {
    hide Inv, Alone, Next;
    var pos, items := s.producers[id].pos, s.producers[id].items;
    PublishesOne(s, id);
    AloneInv(s, id, 3);
    var s' := Alone(s, id, 3);
    if |items| == 1 {
      assert 3 * |items| == 3;
    } else {
      PublishesAll(s', id);
      AloneTwice(s, id, 3, 3 * (|items| - 1));
    }
  }

  /** The slots that nobody has claimed. */
  function Room<T>(s: State<T>): nat { if s.tail < s.head + s.cap then s.head + s.cap - s.tail else 0 }

  /** From the exchange on. */
  lemma PushClaims<T>(s: State<T>, id: nat) returns (k: nat)
    requires Inv(s) && id in s.producers && s.producers[id].Cas? && s.producers[id].t == s.tail
    ensures var s', items, n := Alone(s, id, k), s.producers[id].items, s.producers[id].n;
            && n <= |items| && s'.producers == s.producers[id := Away] && s'.head == s.head
            && s'.consumer == s.consumer && s'.popped == s.popped
            && s'.enq == s.enq + items[..n] && s'.status == s.status + Repeat(Ready, n)
  {
    hide Alone;
    var items, n := s.producers[id].items, s.producers[id].n;
    CasClaims(s, id);
    AloneOnce(s, id);
    AloneInv(s, id, 1);
    var s1 := Alone(s, id, 1);
    PublishesAll(s1, id);
    k := 1 + 3 * n;
    AloneTwice(s, id, 1, 3 * n);
    assert Alone(s1, id, 3 * n).status == s.status + Repeat(Ready, n);
  }

  lemma CasClaims<T>(s: State<T>, id: nat)
    requires Inv(s) && id in s.producers && s.producers[id].Cas? && s.producers[id].t == s.tail
    ensures Enabled(s, ProducerStep(id, false)) && |s.status| == s.tail
    ensures var s', items, n := Next(s, ProducerStep(id, false)), s.producers[id].items, s.producers[id].n;
            && 0 < n <= |items|
            && s' == s.(tail := s.tail + n, enq := s.enq + items[..n], status := s.status + Repeat(Writing(id), n),
                        producers := s.producers[id := Spin(s.tail, items[..n])])
  {
  }

  /** The loads of an undisturbed push end in an exchange for as many items as there is room for, or in giving
      up on a full queue. */
  lemma PushLoads<T>(s: State<T>, id: nat, items: seq<T>) returns (k: nat)
    requires Inv(s) && id in s.producers && s.producers[id] == LoadTail(items)
    ensures Alone(s, id, k) == Goto(s, id, if Room(s) == 0 then Away else Cas(items, s.tail, s.head, Min(|items|, Room(s))))
  {
    hide Alone;
    AloneOnce(s, id);
    AloneInv(s, id, 1);
    var s1 := Next(s, ProducerStep(id, false));
    AloneOnce(s1, id);
    AloneInv(s1, id, 1);
    var s2 := Next(s1, ProducerStep(id, false));
    AloneTwice(s, id, 1, 1);
    assert s2 == Goto(s, id, AfterHead(s.cap, items, s.tail, s.head));
    k := 2;
    if s2.producers[id].ReloadHead? {
      AloneOnce(s2, id);
      AloneTwice(s, id, 2, 1);
      assert Next(s2, ProducerStep(id, false)) == Goto(s, id, AfterReload(s.cap, items, s.tail, s.head));
      k := 3;
    }
  }

  /** An undisturbed push puts as many of its items behind the others as there is room for, in their order and
      published, or finds the queue full and leaves everything as it was. */
  lemma PushAppends<T>(s: State<T>, id: nat, items: seq<T>) returns (k: nat)
    requires Inv(s) && Enabled(s, StartPush(id, items))
    ensures var s', n := Alone(Next(s, StartPush(id, items)), id, k), Min(|items|, Room(s));
            && s'.producers == s.producers && s'.head == s.head && s'.consumer == s.consumer && s'.popped == s.popped
            && s'.enq == s.enq + items[..n] && s'.status == s.status + Repeat(Ready, n) && (n == 0 ==> s' == s)
  {
    hide Inv, Alone, Room;
    var s1 := Next(s, StartPush(id, items));
    NextInv(s, StartPush(id, items));
    k := PushLoads(s1, id, items);
    AloneInv(s1, id, k);
    SameRoom(s, s1);
    var n, pc := Min(|items|, Room(s)), Alone(s1, id, k).producers[id];
    assert Alone(s1, id, k) == Goto(s, id, pc);
    if n == 0 {
      assert items[..0] == [] && s.status + Repeat(Ready, 0) == s.status && s.enq + items[..0] == s.enq;
      assert Goto(s, id, Away).producers == s.producers;
    } else {
      var rest := PushClaims(Alone(s1, id, k), id);
      AloneTwice(s1, id, k, rest);
      assert s.producers[id := pc][id := Away] == s.producers;
      k := k + rest;
    }
  }

  lemma SameRoom<T>(s: State<T>, s': State<T>)
    requires s'.cap == s.cap && s'.tail == s.tail && s'.head == s.head
    ensures Room(s') == Room(s)
  {
  }

  /** How many positions from `p` on are published, `most` at most. */
  function ReadyRun(status: seq<Status>, p: nat, most: nat): (n: nat)
    ensures n <= most && (n > 0 ==> p + n <= |status|)
    ensures forall q: nat | p <= q < p + n :: status[q].Ready?
    ensures n < most ==> p + n >= |status| || status[p + n].Writing?
    decreases most
  {
    if most > 0 && p < |status| && status[p].Ready? then 1 + ReadyRun(status, p + 1, most - 1) else 0
  }

  /** `n` steps of the consumer, undisturbed. */
  function ConsumerRun<T>(s: State<T>, n: nat): State<T>
    decreases n
  {
    if n == 0 || !Enabled(s, ConsumerStep) then s else ConsumerRun(Next(s, ConsumerStep), n - 1)
  }

  lemma ConsumerTwice<T>(s: State<T>, m: nat, n: nat)
    ensures ConsumerRun(s, m + n) == ConsumerRun(ConsumerRun(s, m), n)
    decreases m
  {
    if m > 0 && Enabled(s, ConsumerStep) {
      ConsumerTwice(Next(s, ConsumerStep), m - 1, n);
    }
  }

  lemma ConsumerOnce<T>(s: State<T>)
    requires Enabled(s, ConsumerStep)
    ensures ConsumerRun(s, 1) == Next(s, ConsumerStep)
  {
    assert ConsumerRun(Next(s, ConsumerStep), 0) == Next(s, ConsumerStep);
  }

  function Values<T>(enq: seq<T>, p: nat, n: nat): (r: seq<Option<T>>)
    requires p + n <= |enq|
    ensures |r| == n && forall j | 0 <= j < n :: r[j] == Some(enq[p + j])
    decreases n
  {
    if n == 0 then [] else [Some(enq[p])] + Values(enq, p + 1, n - 1)
  }

  /** One turn of the loop of `popBulk`. */
  lemma PopsOne<T>(s: State<T>)
    requires Inv(s) && s.consumer.Check? && |s.popped| < s.tail && s.status[|s.popped|].Ready?
    ensures var s', h, i, want := ConsumerRun(s, 3), s.consumer.h, s.consumer.i, s.consumer.want;
            && Inv(s') && |s.popped| == h + i && |s.enq| == s.tail
            && s' == s.(buf := s'.buf, popped := s.popped + [Some(s.enq[h + i])],
                        consumer := if i + 1 < want then Check(h, i + 1, want) else StoreHead(h + i + 1))
  {
    hide Inv, Next, ConsumerRun, Enabled;
    CheckStep(s);
    var s1 := Next(s, ConsumerStep);
    ConsumerOnce(s);
    NextInv(s, ConsumerStep);
    MoveStep(s1);
    var s2 := Next(s1, ConsumerStep);
    ConsumerOnce(s1);
    NextInv(s1, ConsumerStep);
    ClearStep(s2);
    ConsumerOnce(s2);
    NextInv(s2, ConsumerStep);
    ConsumerTwice(s, 1, 2);
    ConsumerTwice(s1, 1, 1);
  }

  /** What the check of a slot leads to. */
  lemma CheckStep<T>(s: State<T>)
    requires Inv(s) && s.consumer.Check?
    ensures Enabled(s, ConsumerStep) && |s.enq| == |s.status| == s.tail && |s.popped| == s.consumer.h + s.consumer.i && s.consumer.h == s.head
    ensures |s.popped| <= s.tail
    ensures var h, i, want, done := s.consumer.h, s.consumer.i, s.consumer.want, |s.popped|;
            Next(s, ConsumerStep) == s.(consumer :=
              if done < s.tail && s.status[done].Ready? then Move(h, i, want) else if i > 0 then StoreHead(h + i) else Resting)
  {
    SameSlot(s.buf, s.head);
  }

  lemma MoveStep<T>(s: State<T>)
    requires Inv(s) && s.consumer.Move?
    ensures Enabled(s, ConsumerStep) && |s.popped| < |s.enq|
    ensures var s', h, i, want := Next(s, ConsumerStep), s.consumer.h, s.consumer.i, s.consumer.want;
            s' == s.(buf := s'.buf, consumer := Clear(h, i, want, Some(s.enq[|s.popped|])))
  {
  }

  lemma ClearStep<T>(s: State<T>)
    requires Inv(s) && s.consumer.Clear?
    ensures Enabled(s, ConsumerStep)
    ensures var s', h, i, want := Next(s, ConsumerStep), s.consumer.h, s.consumer.i, s.consumer.want;
            s' == s.(buf := s'.buf, popped := s.popped + [s.consumer.v],
                     consumer := if i + 1 < want then Check(h, i + 1, want) else StoreHead(h + i + 1))
  {
  }

  lemma HeadStep<T>(s: State<T>)
    requires Inv(s) && s.consumer.StoreHead?
    ensures ConsumerRun(s, 1) == s.(head := |s.popped|, consumer := Resting)
  {
    ConsumerOnce(s);
  }

  lemma NoValues<T>(popped: seq<Option<T>>, enq: seq<T>, p: nat)
    requires p <= |enq|
    ensures popped + Values(enq, p, 0) == popped
  {
  }

  lemma OneMoreValue<T>(popped: seq<Option<T>>, enq: seq<T>, p: nat, n: nat)
    requires p + 1 + n <= |enq|
    ensures (popped + [Some(enq[p])]) + Values(enq, p + 1, n) == popped + Values(enq, p, n + 1)
    ensures n == 0 ==> popped + [Some(enq[p])] == popped + Values(enq, p, 1)
  {
    assert Values(enq, p, n + 1) == [Some(enq[p])] + Values(enq, p + 1, n);
    assert Values(enq, p + 1, 0) == [];
  }

  /** The consumer has got the next `n` items and moved the head behind them. */
  ghost predicate PopsTo<T>(s: State<T>, s': State<T>, n: nat) {
    && |s.popped| + n <= |s.enq|
    && s' == s.(buf := s'.buf, head := |s.popped| + n, consumer := Resting, popped := s.popped + Values(s.enq, |s.popped|, n))
  }

  lemma PopsMore<T>(s: State<T>, s1: State<T>, s': State<T>, n: nat)
    requires |s.popped| < |s.enq| && PopsTo(s1, s', n)
    requires s1 == s.(buf := s1.buf, popped := s.popped + [Some(s.enq[|s.popped|])], consumer := s1.consumer)
    ensures PopsTo(s, s', n + 1)
  {
    hide Values;
    OneMoreValue(s.popped, s.enq, |s.popped|, n);
  }

  lemma PopsLast<T>(s: State<T>)
    requires Inv(s) && s.consumer.StoreHead?
    ensures PopsTo(s, ConsumerRun(s, 1), 0)
  {
    hide ConsumerRun;
    HeadStep(s);
    NoValues(s.popped, s.enq, |s.popped|);
  }

  lemma PopsRest<T>(s: State<T>) returns (k: nat)
    requires Inv(s) && s.consumer.Check? && s.consumer.i < s.consumer.want
    ensures |s.enq| == |s.status|
    ensures var n := ReadyRun(s.status, |s.popped|, s.consumer.want - s.consumer.i);
            && PopsTo(s, ConsumerRun(s, k), n)
            && (s.consumer.i + n == 0 ==> ConsumerRun(s, k) == s.(consumer := Resting))
    decreases s.consumer.want - s.consumer.i
  {
    hide Inv, Next, ConsumerRun, Enabled, Values, PopsTo;
    CheckStep(s);
    var done, i, want := |s.popped|, s.consumer.i, s.consumer.want;
    if done < s.tail && s.status[done].Ready? {
      PopsOne(s);
      var s' := ConsumerRun(s, 3);
      var m: nat;
      if i + 1 < want {
        m := PopsRest(s');
        PopsMore(s, s', ConsumerRun(s', m), ReadyRun(s.status, done + 1, want - i - 1));
      } else {
        PopsLast(s');
        m := 1;
        PopsMore(s, s', ConsumerRun(s', 1), 0);
      }
      k := 3 + m;
      ConsumerTwice(s, 3, m);
    } else {
      k := PopsNone(s);
    }
  }

  lemma PopsNone<T>(s: State<T>) returns (k: nat)
    requires Inv(s) && s.consumer.Check? && (|s.popped| >= s.tail || (|s.status| == s.tail && s.status[|s.popped|].Writing?))
    ensures PopsTo(s, ConsumerRun(s, k), 0)
    ensures s.consumer.i == 0 ==> ConsumerRun(s, k) == s.(consumer := Resting)
  {
    hide Inv, Next, ConsumerRun, Enabled, Values;
    CheckStep(s);
    ConsumerOnce(s);
    NextInv(s, ConsumerStep);
    NoValues(s.popped, s.enq, |s.popped|);
    k := 1;
    if s.consumer.i > 0 {
      PopsLast(Next(s, ConsumerStep));
      k := 2;
      ConsumerTwice(s, 1, 1);
    }
  }

  /** An undisturbed pop returns as many of the oldest items as are published in a row, in claim order, or finds
      none and leaves everything as it was. */
  lemma PopTakesOldest<T>(s: State<T>, want: nat) returns (k: nat)
    requires Inv(s) && Enabled(s, StartPop(want))
    ensures |s.enq| == |s.status|
    ensures var s', n := ConsumerRun(Next(s, StartPop(want)), k), ReadyRun(s.status, s.head, want);
            && s.head + n <= |s.enq| && s'.consumer == Resting && s'.producers == s.producers && s'.tail == s.tail
            && s'.enq == s.enq && s'.status == s.status && s'.head == s.head + n
            && s'.popped == s.popped + Values(s.enq, s.head, n) && (n == 0 ==> s' == s)
  {
    hide Inv, ConsumerRun;
    NextInv(s, StartPop(want));
    NothingInHand(s);
    k := PopsRest(Next(s, StartPop(want)));
  }

  lemma NothingInHand<T>(s: State<T>)
    requires Inv(s) && s.consumer.Resting?
    ensures |s.popped| == s.head
  {
  }

  ghost predicate RunsTo<T>(run: seq<State<T>>, events: seq<Event<T>>, s: State<T>) {
    IsRun(run, events) && run[|run| - 1] == s
  }

  lemma Extend<T>(run: seq<State<T>>, events: seq<Event<T>>, s: State<T>, e: Event<T>)
    returns (run': seq<State<T>>, events': seq<Event<T>>)
    requires RunsTo(run, events, s) && Enabled(s, e)
    ensures RunsTo(run', events', Next(s, e))
  {
    run', events' := run + [Next(s, e)], events + [e];
  }

  const FRESH: State<int> := State(2, 0, 0, [Slot(None, false), Slot(None, false)], Resting,
                                   map[0 := Away, 1 := Away], [], [], [])

  lemma OtherProducerClaims() returns (run: seq<State<int>>, events: seq<Event<int>>)
    ensures RunsTo(run, events, FRESH.(tail := 1, enq := [8], status := [Writing(1)],
                                       producers := map[0 := LoadHead([7], 0), 1 := Spin(0, [8])]))
  {
    hide Write;
    run, events := [FRESH], [];
    run, events := Extend(run, events, FRESH, StartPush(0, [7]));
    var s1 := Next(FRESH, StartPush(0, [7]));
    run, events := Extend(run, events, s1, ProducerStep(0, false));
    var s2 := Next(s1, ProducerStep(0, false));
    assert s2 == FRESH.(producers := map[0 := LoadHead([7], 0), 1 := Away]);
    run, events := Extend(run, events, s2, StartPush(1, [8]));
    var s3 := Next(s2, StartPush(1, [8]));
    run, events := Extend(run, events, s3, ProducerStep(1, false));
    var s4 := Next(s3, ProducerStep(1, false));
    run, events := Extend(run, events, s4, ProducerStep(1, false));
    var s5 := Next(s4, ProducerStep(1, false));
    assert s5 == FRESH.(producers := map[0 := LoadHead([7], 0), 1 := Cas([8], 0, 0, 1)]);
    assert [8][..1] == [8] && Repeat(Writing(1), 1) == [Writing(1)];
    run, events := Extend(run, events, s5, ProducerStep(1, false));
    var s6 := Next(s5, ProducerStep(1, false));
  }

  lemma OtherProducerPublishes() returns (run: seq<State<int>>, events: seq<Event<int>>)
    ensures RunsTo(run, events, FRESH.(tail := 1, enq := [8], status := [Ready], buf := FRESH.buf[0 := Slot(Some(8), true)],
                                       producers := map[0 := LoadHead([7], 0), 1 := Away]))
  {
    run, events := OtherProducerClaims();
    var s6 := run[|run| - 1];
    run, events := Extend(run, events, s6, ProducerStep(1, false));
    var s7 := Next(s6, ProducerStep(1, false));
    assert s7 == s6.(producers := map[0 := LoadHead([7], 0), 1 := Build(0, [8])]);
    run, events := Extend(run, events, s7, ProducerStep(1, false));
    var s8 := Next(s7, ProducerStep(1, false));
    assert s8 == s6.(buf := FRESH.buf[0 := Slot(Some(8), false)], producers := map[0 := LoadHead([7], 0), 1 := Publish(0, [8])]);
    run, events := Extend(run, events, s8, ProducerStep(1, false));
    var s9 := Next(s8, ProducerStep(1, false));
  }

  /** The second case happens: producer 0 loads the tail, producer 1 pushes 8, the consumer pops it,
      and producer 0 is turned away from an empty queue. */
  lemma TurnedAwayWhileEmpty() returns (run: seq<State<int>>, events: seq<Event<int>>, s: State<int>)
    ensures RunsTo(run, events, s) && Enabled(s, ProducerStep(0, false))
    ensures s.head == s.tail == 1 && s.producers[0] == ReloadHead([7], 0)
    ensures Next(s, ProducerStep(0, false)).producers[0] == Away
  {
    run, events := OtherProducerPublishes();
    var s9 := run[|run| - 1];
    run, events := Extend(run, events, s9, StartPop(1));
    var s10 := Next(s9, StartPop(1));
    assert s10 == s9.(consumer := Check(0, 0, 1));
    run, events := Extend(run, events, s10, ConsumerStep);
    var s11 := Next(s10, ConsumerStep);
    assert s11 == s9.(consumer := Move(0, 0, 1));
    run, events := Extend(run, events, s11, ConsumerStep);
    var s12 := Next(s11, ConsumerStep);
    run, events := Extend(run, events, s12, ConsumerStep);
    var s13 := Next(s12, ConsumerStep);
    assert s13 == s9.(buf := FRESH.buf, popped := [Some(8)], consumer := StoreHead(1));
    run, events := Extend(run, events, s13, ConsumerStep);
    var s14 := Next(s13, ConsumerStep);
    run, events := Extend(run, events, s14, ProducerStep(0, false));
    var s15 := Next(s14, ProducerStep(0, false));
    s := s15;
  }
}
