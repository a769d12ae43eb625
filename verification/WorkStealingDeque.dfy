/** The Chase-Lev deque of KzSTL/WorkStealingDeque.h as a state machine: one owner, any number of
    thieves, one event per atomic load, store or compare-and-swap, sequentially consistent. */
module WorkStealingDeque {
  import opened Common
  import opened Ring

  /** A slot holds raw memory (`data` is None once the object was moved out) and its flag. */
  datatype Slot<T> = Slot(data: Option<T>, extracted: bool)

  /** What the owner does next. `push(x)` is `pushBulk([x])`: the same loads, the same room test
      (one item fits iff the deque is not full) and the same stores. */
  datatype Owner<T> =
    | Resting
    | PushLoadHead(items: seq<T>, t: nat)
    | PushWait(items: seq<T>, t: nat, i: nat)
    | PushBuild(items: seq<T>, t: nat, i: nat)
    | PushFlag(items: seq<T>, t: nat, i: nat)
    | PushPublish(items: seq<T>, t: nat)
    | PopStoreTail(t: nat)
    | PopLoadHead(t: nat)
    | PopCas(t: nat)
    | PopMove(t: nat, last: bool)
    | PopFlag(t: nat, last: bool, v: Option<T>)
    | PopRestore(t: nat)

  datatype Thief<T> =
    | Away
    | StealLoadTail(h: nat)
    | StealCas(h: nat)
    | StealMove(h: nat)
    | StealFlag(h: nat, v: Option<T>)

  /** Where a pushed item is: queued at a position of the ring, claimed by the owner or by a thief
      that has not returned yet, or handed to a caller as the `k`-th completed take. */
  datatype Place = Queued(pos: nat) | WithOwner | WithThief(id: nat) | Returned(k: nat)

  datatype Take<T> = Take(serial: nat, v: Option<T>)

  /** `head`, `tail` and `buf` are the fields of the source. The last four components are history
      that no step reads: every item ever pushed in push order, the item each position holds,
      where each item is, and every completed take. */
  datatype State<T> = State(
    cap: nat, head: nat, tail: nat, buf: seq<Slot<T>>,
    owner: Owner<T>, thieves: map<nat, Thief<T>>,
    log: seq<T>, at: seq<nat>, place: seq<Place>, taken: seq<Take<T>>)

  datatype Event<T> = StartPush(items: seq<T>) | StartPop | OwnerStep | StartSteal(id: nat) | ThiefStep(id: nat)

  ghost predicate Init<T>(s: State<T>) {
    && s.cap > 0 && s.head == 0 && s.tail == 0
    && |s.buf| == s.cap
    && (forall i | 0 <= i < s.cap :: s.buf[i].extracted)
    && s.owner == Resting
    && (forall id | id in s.thieves :: s.thieves[id] == Away)
    && s.log == [] && s.place == [] && s.taken == [] && s.at == []
  }

  predicate WellFormed<T>(s: State<T>) {
    && s.cap > 0 && |s.buf| == s.cap
    && (s.owner.PushWait? || s.owner.PushBuild? || s.owner.PushFlag? ==> s.owner.i < |s.owner.items|)
  }

  predicate Enabled<T>(s: State<T>, e: Event<T>) {
    && WellFormed(s)
    && match e {
      case StartPush(items) => s.owner.Resting? && items != []
      case StartPop => s.owner.Resting?
      case OwnerStep => !s.owner.Resting?
      case StartSteal(id) => id in s.thieves && s.thieves[id].Away?
      case ThiefStep(id) => id in s.thieves && !s.thieves[id].Away?
    }
  }

  function SetSlot<T>(s: State<T>, p: nat, slot: Slot<T>): State<T>
    requires |s.buf| > 0
  {
    s.(buf := Write(s.buf, p, slot))
  }

  function Next<T>(s: State<T>, e: Event<T>): State<T>
    requires Enabled(s, e)
  {
    match e
    case StartPush(items) => s.(owner := PushLoadHead(items, s.tail))
    case StartPop => if s.tail == 0 then s else s.(owner := PopStoreTail(s.tail - 1))
    case OwnerStep => OwnerNext(s)
    case StartSteal(id) => s.(thieves := s.thieves[id := StealLoadTail(s.head)])
    case ThiefStep(id) => ThiefNext(s, id)
  }

  function OwnerNext<T>(s: State<T>): State<T>
    requires WellFormed(s)
  {
    match s.owner
    case Resting => s
    case PushLoadHead(items, t) =>
      var available := s.cap - (t - s.head);
      var count := if |items| < available then |items| else available;
      if count <= 0 then s.(owner := Resting)
      else s.(owner := PushWait(items[..count], t, 0))
    case PushWait(items, t, i) =>
      if Read(s.buf, t + i).extracted then s.(owner := PushBuild(items, t, i)) else s
    case PushBuild(items, t, i) =>
      SetSlot(s, t + i, Read(s.buf, t + i).(data := Some(items[i]))).(owner := PushFlag(items, t, i))
    case PushFlag(items, t, i) =>
      SetSlot(s, t + i, Read(s.buf, t + i).(extracted := false))
      .(owner := if i + 1 < |items| then PushWait(items, t, i + 1) else PushPublish(items, t))
    case PushPublish(items, t) =>
      s.(tail := t + |items|, owner := Resting,
      log := s.log + items,
      at := (if t <= |s.at| then s.at[..t] else s.at) + seq(|items|, i requires i >= 0 => |s.log| + i),
      place := s.place + seq(|items|, i requires i >= 0 => Queued(t + i)))
    case PopStoreTail(t) => s.(tail := t, owner := PopLoadHead(t))
    case PopLoadHead(t) =>
      if s.head < t then Move(s, t, WithOwner).(owner := PopMove(t, false))
      else if s.head == t then s.(owner := PopCas(t))
      else s.(owner := PopRestore(t))
    case PopCas(t) =>
      if s.head == t then Move(s, t, WithOwner).(head := t + 1, owner := PopMove(t, true)) else s.(owner := PopRestore(t))
    case PopMove(t, last) =>
      SetSlot(s, t, Read(s.buf, t).(data := None)).(owner := PopFlag(t, last, Read(s.buf, t).data))
    case PopFlag(t, last, v) =>
      Record(SetSlot(s, t, Read(s.buf, t).(extracted := true)), t, v)
      .(owner := if last then PopRestore(t) else Resting)
    case PopRestore(t) => s.(tail := t + 1, owner := Resting)
  }

  function ThiefNext<T>(s: State<T>, id: nat): State<T>
    requires WellFormed(s) && id in s.thieves
  {
    match s.thieves[id]
    case Away => s
    case StealLoadTail(h) =>
      s.(thieves := s.thieves[id := if h < s.tail then StealCas(h) else Away])
    case StealCas(h) =>
      if s.head == h then Move(s, h, WithThief(id)).(head := h + 1, thieves := s.thieves[id := StealMove(h)])
      else s.(thieves := s.thieves[id := Away])
    case StealMove(h) =>
      SetSlot(s, h, Read(s.buf, h).(data := None)).(thieves := s.thieves[id := StealFlag(h, Read(s.buf, h).data)])
    case StealFlag(h, v) =>
      Record(SetSlot(s, h, Read(s.buf, h).(extracted := true)), h, v).(thieves := s.thieves[id := Away])
  }

  /** History: the item at position `p` goes to `place`. */
  function Move<T>(s: State<T>, p: nat, place: Place): State<T> {
    if p < |s.at| && s.at[p] < |s.place| then s.(place := s.place[s.at[p] := place]) else s
  }

  /** History: the item at position `p` was returned to a caller, who got `v`. */
  function Record<T>(s: State<T>, p: nat, v: Option<T>): State<T> {
    if p < |s.at| then Move(s, p, Returned(|s.taken|)).(taken := s.taken + [Take(s.at[p], v)]) else s
  }

  // ---------------------------------------------------------------- the invariant

  /** One past the last position a thief may still win: the owner's resting tail, minus the item
      the owner has irrevocably taken from the bottom. */
  function LiveEnd<T>(o: Owner<T>, tail: nat): nat {
    match o
    case PopLoadHead(_) => tail + 1
    case PopCas(_) => tail + 1
    case PopMove(_, last) => if last then tail + 1 else tail
    case PopFlag(_, last, _) => if last then tail + 1 else tail
    case PopRestore(_) => tail + 1
    case _ => tail
  }

  /** One past the last position whose slot the owner uses. */
  function WriteEnd<T>(o: Owner<T>, tail: nat): nat {
    match o
    case PushWait(_, t, i) => t + i
    case PushBuild(_, t, i) => t + i + 1
    case PushFlag(_, t, i) => t + i + 1
    case PushPublish(items, t) => t + |items|
    case PopMove(t, _) => t + 1
    case PopFlag(t, _, _) => t + 1
    case _ => LiveEnd(o, tail)
  }

  predicate OwnerClaims<T>(o: Owner<T>) { o.PopMove? || o.PopFlag? }

  predicate ThiefClaims<T>(s: State<T>, id: nat) {
    id in s.thieves && (s.thieves[id].StealMove? || s.thieves[id].StealFlag?)
  }

  /** The item pushed at position `p`. */
  function Item<T>(s: State<T>, p: nat): Option<T> { ItemAt(s.at, s.log, p) }

  function ItemAt<T>(at: seq<nat>, log: seq<T>, p: nat): Option<T> {
    if p < |at| && at[p] < |log| then Some(log[at[p]]) else None
  }

  /** Position `p` holds a pushed item that history places at `place`. */
  predicate Holds<T>(s: State<T>, p: nat, place: Place) {
    p < |s.at| && s.at[p] < |s.log| == |s.place| && s.place[s.at[p]] == place
  }

  ghost predicate OwnerInv<T>(s: State<T>)
    requires WellFormed(s)
  {
    match s.owner
    case Resting => true
    case PushLoadHead(items, t) => t == s.tail && items != []
    case PushWait(items, t, i) => t == s.tail && t + |items| <= s.head + s.cap
    case PushBuild(items, t, i) => t == s.tail && t + |items| <= s.head + s.cap && Read(s.buf, t + i).extracted
    case PushFlag(items, t, i) =>
      t == s.tail && t + |items| <= s.head + s.cap && Read(s.buf, t + i).data == Some(items[i])
    case PushPublish(items, t) => t == s.tail && t + |items| <= s.head + s.cap && items != []
    case PopStoreTail(t) => t + 1 == s.tail
    case PopLoadHead(t) => t == s.tail
    case PopCas(t) => t == s.tail && t <= s.head
    case PopMove(t, last) =>
      && t == s.tail && (last ==> s.head == t + 1)
      && Holds(s, t, WithOwner) && Read(s.buf, t) == Slot(Item(s, t), false)
    case PopFlag(t, last, v) =>
      && t == s.tail && (last ==> s.head == t + 1)
      && Holds(s, t, WithOwner) && Read(s.buf, t) == Slot(None, false) && v == Item(s, t)
    case PopRestore(t) => t == s.tail && s.head == t + 1
  }

  /** Items that an unfinished push has already built in the slots from `tail` on. */
  function Pending<T>(o: Owner<T>): seq<T> {
    match o
    case PushWait(items, _, i) => if i <= |items| then items[..i] else []
    case PushBuild(items, _, i) => if i <= |items| then items[..i] else []
    case PushFlag(items, _, i) => if i <= |items| then items[..i] else []
    case PushPublish(items, _) => items
    case _ => []
  }

  ghost predicate ThiefInv<T>(s: State<T>, id: nat)
    requires WellFormed(s) && id in s.thieves
  {
    match s.thieves[id]
    case Away => true
    case StealLoadTail(h) => h <= s.head
    case StealCas(h) => h <= s.head && (h == s.head ==> h < LiveEnd(s.owner, s.tail))
    case StealMove(h) =>
      && h < s.head && WriteEnd(s.owner, s.tail) <= h + s.cap
      && Holds(s, h, WithThief(id)) && Read(s.buf, h) == Slot(Item(s, h), false)
    case StealFlag(h, v) =>
      && h < s.head && WriteEnd(s.owner, s.tail) <= h + s.cap
      && Holds(s, h, WithThief(id)) && Read(s.buf, h) == Slot(None, false) && v == Item(s, h)
  }

  /** Queued positions hold their items, and so do the slots an unfinished push has filled. */
  ghost predicate RingInv<T>(s: State<T>)
    requires WellFormed(s)
  {
    && (forall p: nat | s.head <= p < LiveEnd(s.owner, s.tail) ::
         Holds(s, p, Queued(p)) && Read(s.buf, p) == Slot(Item(s, p), false))
    && (forall p: nat | s.tail <= p < s.tail + |Pending(s.owner)| ::
         Read(s.buf, p) == Slot(Some(Pending(s.owner)[p - s.tail]), false))
  }

  /** History accounts for every pushed item once. */
  ghost predicate PlaceInv<T>(s: State<T>) {
    && |s.place| == |s.log|
    && (forall n | 0 <= n < |s.log| ::
         match s.place[n]
         case Queued(p) => s.head <= p < LiveEnd(s.owner, s.tail) && p < |s.at| && s.at[p] == n
         case WithOwner => OwnerClaims(s.owner) && s.owner.t < |s.at| && s.at[s.owner.t] == n
         case WithThief(id) => ThiefClaims(s, id) && s.thieves[id].h < |s.at| && s.at[s.thieves[id].h] == n
         case Returned(k) => k < |s.taken| && s.taken[k].serial == n)
  }

  /** Every take returned the item it accounts for; no two takes account for the same item. */
  ghost predicate TakenInv<T>(s: State<T>) {
    forall k | 0 <= k < |s.taken| ::
      && s.taken[k].serial < |s.log| == |s.place|
      && s.place[s.taken[k].serial] == Returned(k)
      && s.taken[k].v == Some(s.log[s.taken[k].serial])
  }

  ghost predicate BufferInv<T>(s: State<T>) {
    && WellFormed(s)
    && s.head <= LiveEnd(s.owner, s.tail) <= |s.at|
    && LiveEnd(s.owner, s.tail) <= WriteEnd(s.owner, s.tail) <= s.head + s.cap
    && OwnerInv(s)
    && RingInv(s)
  }

  ghost predicate ThievesInv<T>(s: State<T>)
    requires WellFormed(s)
  {
    forall id | id in s.thieves :: ThiefInv(s, id)
  }

  ghost predicate HistoryInv<T>(s: State<T>) { PlaceInv(s) && TakenInv(s) }

  ghost predicate Inv<T>(s: State<T>) { BufferInv(s) && ThievesInv(s) && HistoryInv(s) }

  lemma InitInv<T>(s: State<T>)
    requires Init(s)
    ensures Inv(s)
  {
  }

  /** Claims never collide: whoever wins the race for a position is its only claimant. */
  lemma OneWinner<T>(s: State<T>)
    requires BufferInv(s) && ThievesInv(s)
    ensures forall id | ThiefClaims(s, id) && OwnerClaims(s.owner) :: s.thieves[id].h != s.owner.t
    ensures forall i, j | ThiefClaims(s, i) && ThiefClaims(s, j) && i != j :: s.thieves[i].h != s.thieves[j].h
  {
    forall i, j | ThiefClaims(s, i) && ThiefClaims(s, j) && i != j
      ensures s.thieves[i].h != s.thieves[j].h
    {
      assert Holds(s, s.thieves[i].h, WithThief(i)) && Holds(s, s.thieves[j].h, WithThief(j));
    }
  }

  lemma StartPushInv<T>(s: State<T>, items: seq<T>)
    requires Inv(s) && Enabled(s, StartPush(items))
    ensures Inv(Next(s, StartPush(items)))
  {
  }

  lemma StartPopInv<T>(s: State<T>)
    requires Inv(s) && Enabled(s, StartPop)
    ensures Inv(Next(s, StartPop))
  {
  }

  lemma StartStealInv<T>(s: State<T>, id: nat)
    requires Inv(s) && Enabled(s, StartSteal(id))
    ensures Inv(Next(s, StartSteal(id)))
  {
  }

  lemma PushLoadInv<T>(s: State<T>)
    requires Inv(s) && s.owner.PushLoadHead?
    ensures Inv(OwnerNext(s))
  {
    hide Read;
  }

  lemma PushWaitBuffer<T>(s: State<T>)
    requires BufferInv(s) && s.owner.PushWait?
    ensures BufferInv(OwnerNext(s))
  {
  }

  /** The slot is free, so no thief still has the item that was in it one lap earlier. */
  lemma PushWaitThieves<T>(s: State<T>)
    requires BufferInv(s) && ThievesInv(s) && s.owner.PushWait?
    ensures WellFormed(OwnerNext(s)) && ThievesInv(OwnerNext(s))
  {
    var p := s.owner.t + s.owner.i;
    if p >= s.cap {
      SameSlot(s.buf, p - s.cap);
    }
    forall id | id in s.thieves
      ensures ThiefInv(OwnerNext(s), id)
    {
      assert ThiefInv(s, id);
    }
  }

  lemma PushWaitHistory<T>(s: State<T>)
    requires HistoryInv(s) && WellFormed(s) && s.owner.PushWait?
    ensures HistoryInv(OwnerNext(s))
  {
  }

  lemma PushWaitInv<T>(s: State<T>)
    requires Inv(s) && s.owner.PushWait?
    ensures Inv(OwnerNext(s))
  {
    PushWaitBuffer(s);
    PushWaitThieves(s);
    PushWaitHistory(s);
  }

  lemma PushBuildInv<T>(s: State<T>)
    requires Inv(s) && s.owner.PushBuild?
    ensures Inv(OwnerNext(s))
  {
    hide Read, Write;
    var p := s.owner.t + s.owner.i;
    Frame(s.buf, p, Read(s.buf, p).(data := Some(s.owner.items[s.owner.i])), WriteEnd(s.owner, s.tail) - s.cap);
  }

  lemma PushFlagBuffer<T>(s: State<T>)
    requires Inv(s) && s.owner.PushFlag?
    ensures BufferInv(OwnerNext(s))
  {
    hide HistoryInv, ThiefInv, Read, Write;
    var p := s.owner.t + s.owner.i;
    Frame(s.buf, p, Read(s.buf, p).(extracted := false), WriteEnd(s.owner, s.tail) - s.cap);
  }

  lemma PushFlagThieves<T>(s: State<T>)
    requires Inv(s) && s.owner.PushFlag?
    ensures WellFormed(OwnerNext(s)) && ThievesInv(OwnerNext(s))
  {
    hide HistoryInv;
    var p := s.owner.t + s.owner.i;
    Frame(s.buf, p, Read(s.buf, p).(extracted := false), WriteEnd(s.owner, s.tail) - s.cap);
  }

  lemma PushFlagHistory<T>(s: State<T>)
    requires Inv(s) && s.owner.PushFlag?
    ensures HistoryInv(OwnerNext(s))
  {
    var p := s.owner.t + s.owner.i;
    Frame(s.buf, p, Read(s.buf, p).(extracted := false), WriteEnd(s.owner, s.tail) - s.cap);
  }

  lemma PushFlagInv<T>(s: State<T>)
    requires Inv(s) && s.owner.PushFlag?
    ensures Inv(OwnerNext(s))
  {
    PushFlagBuffer(s);
    PushFlagThieves(s);
    PushFlagHistory(s);
  }

  lemma PushPublishBuffer<T>(s: State<T>)
    requires Inv(s) && s.owner.PushPublish?
    ensures BufferInv(OwnerNext(s))
  {
    hide ThievesInv, TakenInv, Read;
    var s' := OwnerNext(s);
    forall p: nat | s.head <= p < s'.tail
      ensures Holds(s', p, Queued(p)) && Read(s'.buf, p) == Slot(Item(s', p), false)
    {
      if p < s.tail {
        assert Holds(s, p, Queued(p)) && Read(s.buf, p) == Slot(Item(s, p), false);
      }
    }
  }

  lemma PushPublishThieves<T>(s: State<T>)
    requires Inv(s) && s.owner.PushPublish?
    ensures WellFormed(OwnerNext(s)) && ThievesInv(OwnerNext(s))
  {
  }

  lemma PushPublishHistory<T>(s: State<T>)
    requires Inv(s) && s.owner.PushPublish?
    ensures HistoryInv(OwnerNext(s))
  {
  }

  lemma PushPublishInv<T>(s: State<T>)
    requires Inv(s) && s.owner.PushPublish?
    ensures Inv(OwnerNext(s))
  {
    PushPublishBuffer(s);
    PushPublishThieves(s);
    PushPublishHistory(s);
  }

  lemma PopStoreInv<T>(s: State<T>)
    requires Inv(s) && (s.owner.PopStoreTail? || s.owner.PopRestore?)
    ensures Inv(OwnerNext(s))
  {
    hide Read;
  }

  lemma PopLoadBuffer<T>(s: State<T>)
    requires Inv(s) && s.owner.PopLoadHead?
    ensures BufferInv(OwnerNext(s))
  {
    hide ThievesInv, ThiefInv, TakenInv;
    assert s.head <= s.owner.t ==> Holds(s, s.owner.t, Queued(s.owner.t));
  }

  lemma PopLoadThieves<T>(s: State<T>)
    requires Inv(s) && s.owner.PopLoadHead?
    ensures WellFormed(OwnerNext(s)) && ThievesInv(OwnerNext(s))
  {
    hide HistoryInv, Read;
    assert s.head <= s.owner.t ==> Holds(s, s.owner.t, Queued(s.owner.t));
  }

  lemma PopLoadHistory<T>(s: State<T>)
    requires Inv(s) && s.owner.PopLoadHead?
    ensures HistoryInv(OwnerNext(s))
  {
    hide ThievesInv, ThiefInv, Read, Item, ItemAt;
    assert s.head <= s.owner.t ==> Holds(s, s.owner.t, Queued(s.owner.t));
  }

  lemma PopLoadInv<T>(s: State<T>)
    requires Inv(s) && s.owner.PopLoadHead?
    ensures Inv(OwnerNext(s))
  {
    PopLoadBuffer(s);
    PopLoadThieves(s);
    PopLoadHistory(s);
  }

  lemma PopCasInv<T>(s: State<T>)
    requires Inv(s) && s.owner.PopCas?
    ensures Inv(OwnerNext(s))
  {
    hide Write, ItemAt;
    assert s.head <= s.owner.t ==> Holds(s, s.owner.t, Queued(s.owner.t));
  }

  lemma PopMoveInv<T>(s: State<T>)
    requires Inv(s) && s.owner.PopMove?
    ensures Inv(OwnerNext(s))
  {
    hide Read, Write, ItemAt;
    Frame(s.buf, s.owner.t, Read(s.buf, s.owner.t).(data := None), WriteEnd(s.owner, s.tail) - s.cap);
  }

  lemma PopFlagBuffer<T>(s: State<T>)
    requires Inv(s) && s.owner.PopFlag?
    ensures BufferInv(OwnerNext(s))
  {
    Frame(s.buf, s.owner.t, Read(s.buf, s.owner.t).(extracted := true), WriteEnd(s.owner, s.tail) - s.cap);
  }

  lemma PopFlagThieves<T>(s: State<T>)
    requires Inv(s) && s.owner.PopFlag?
    ensures WellFormed(OwnerNext(s)) && ThievesInv(OwnerNext(s))
  {
    hide HistoryInv;
    OneWinner(s);
    Frame(s.buf, s.owner.t, Read(s.buf, s.owner.t).(extracted := true), WriteEnd(s.owner, s.tail) - s.cap);
  }

  lemma PopFlagHistory<T>(s: State<T>)
    requires Inv(s) && s.owner.PopFlag?
    ensures HistoryInv(OwnerNext(s))
  {
    Frame(s.buf, s.owner.t, Read(s.buf, s.owner.t).(extracted := true), WriteEnd(s.owner, s.tail) - s.cap);
  }

  lemma PopFlagInv<T>(s: State<T>)
    requires Inv(s) && s.owner.PopFlag?
    ensures Inv(OwnerNext(s))
  {
    PopFlagBuffer(s);
    PopFlagThieves(s);
    PopFlagHistory(s);
  }

  lemma StealLoadInv<T>(s: State<T>, id: nat)
    requires Inv(s) && id in s.thieves && s.thieves[id].StealLoadTail?
    ensures Inv(ThiefNext(s, id))
  {
    hide Read;
  }

  lemma StealCasBuffer<T>(s: State<T>, id: nat)
    requires Inv(s) && id in s.thieves && s.thieves[id].StealCas?
    ensures BufferInv(ThiefNext(s, id))
  {
    hide HistoryInv, Read;
    assert s.head == s.thieves[id].h ==> Holds(s, s.head, Queued(s.head));
  }

  lemma StealCasThieves<T>(s: State<T>, id: nat)
    requires Inv(s) && id in s.thieves && s.thieves[id].StealCas?
    ensures WellFormed(ThiefNext(s, id)) && ThievesInv(ThiefNext(s, id))
  {
    hide HistoryInv;
    assert s.head == s.thieves[id].h ==> Holds(s, s.head, Queued(s.head));
  }

  lemma StealCasHistory<T>(s: State<T>, id: nat)
    requires Inv(s) && id in s.thieves && s.thieves[id].StealCas?
    ensures HistoryInv(ThiefNext(s, id))
  {
    assert s.head == s.thieves[id].h ==> Holds(s, s.head, Queued(s.head));
  }

  lemma StealCasInv<T>(s: State<T>, id: nat)
    requires Inv(s) && id in s.thieves && s.thieves[id].StealCas?
    ensures Inv(ThiefNext(s, id))
  {
    StealCasBuffer(s, id);
    StealCasThieves(s, id);
    StealCasHistory(s, id);
  }

  lemma StealMoveBuffer<T>(s: State<T>, id: nat)
    requires Inv(s) && id in s.thieves && s.thieves[id].StealMove?
    ensures BufferInv(ThiefNext(s, id))
  {
    hide HistoryInv, Read;
    OneWinner(s);
    var h := s.thieves[id].h;
    Frame(s.buf, h, Read(s.buf, h).(data := None), WriteEnd(s.owner, s.tail) - s.cap);
  }

  lemma StealMoveThieves<T>(s: State<T>, id: nat)
    requires Inv(s) && id in s.thieves && s.thieves[id].StealMove?
    ensures WellFormed(ThiefNext(s, id)) && ThievesInv(ThiefNext(s, id))
  {
    hide HistoryInv;
    OneWinner(s);
    var h := s.thieves[id].h;
    Frame(s.buf, h, Read(s.buf, h).(data := None), WriteEnd(s.owner, s.tail) - s.cap);
  }

  lemma StealMoveHistory<T>(s: State<T>, id: nat)
    requires Inv(s) && id in s.thieves && s.thieves[id].StealMove?
    ensures HistoryInv(ThiefNext(s, id))
  {
    var h := s.thieves[id].h;
    Frame(s.buf, h, Read(s.buf, h).(data := None), WriteEnd(s.owner, s.tail) - s.cap);
  }

  lemma StealMoveInv<T>(s: State<T>, id: nat)
    requires Inv(s) && id in s.thieves && s.thieves[id].StealMove?
    ensures Inv(ThiefNext(s, id))
  {
    StealMoveBuffer(s, id);
    StealMoveThieves(s, id);
    StealMoveHistory(s, id);
  }

  lemma StealFlagOwner<T>(s: State<T>, id: nat)
    requires Inv(s) && id in s.thieves && s.thieves[id].StealFlag?
    ensures WellFormed(ThiefNext(s, id)) && OwnerInv(ThiefNext(s, id))
  {
    hide HistoryInv, RingInv, ItemAt, Read, Write;
    OneWinner(s);
    var h := s.thieves[id].h;
    assert OwnerClaims(s.owner) ==> s.at[s.owner.t] != s.at[h];
    Frame(s.buf, h, Read(s.buf, h).(extracted := true), WriteEnd(s.owner, s.tail) - s.cap);
  }

  lemma StealFlagRing<T>(s: State<T>, id: nat)
    requires Inv(s) && id in s.thieves && s.thieves[id].StealFlag?
    ensures WellFormed(ThiefNext(s, id)) && RingInv(ThiefNext(s, id))
  {
    hide HistoryInv, ItemAt, Read, Write;
    var h := s.thieves[id].h;
    assert forall p: nat | s.head <= p < LiveEnd(s.owner, s.tail) :: Holds(s, p, Queued(p)) && s.at[p] != s.at[h];
    Frame(s.buf, h, Read(s.buf, h).(extracted := true), WriteEnd(s.owner, s.tail) - s.cap);
  }

  lemma StealFlagBuffer<T>(s: State<T>, id: nat)
    requires Inv(s) && id in s.thieves && s.thieves[id].StealFlag?
    ensures BufferInv(ThiefNext(s, id))
  {
    hide HistoryInv, ItemAt, Read, Write, OwnerInv, RingInv;
    StealFlagOwner(s, id);
    StealFlagRing(s, id);
  }

  lemma StealFlagThieves<T>(s: State<T>, id: nat)
    requires Inv(s) && id in s.thieves && s.thieves[id].StealFlag?
    ensures WellFormed(ThiefNext(s, id)) && ThievesInv(ThiefNext(s, id))
  {
    hide HistoryInv, RingInv;
    OneWinner(s);
    var h := s.thieves[id].h;
    Frame(s.buf, h, Read(s.buf, h).(extracted := true), WriteEnd(s.owner, s.tail) - s.cap);
  }

  lemma StealFlagHistory<T>(s: State<T>, id: nat)
    requires Inv(s) && id in s.thieves && s.thieves[id].StealFlag?
    ensures HistoryInv(ThiefNext(s, id))
  {
    var h := s.thieves[id].h;
    Frame(s.buf, h, Read(s.buf, h).(extracted := true), WriteEnd(s.owner, s.tail) - s.cap);
  }

  lemma StealFlagInv<T>(s: State<T>, id: nat)
    requires Inv(s) && id in s.thieves && s.thieves[id].StealFlag?
    ensures Inv(ThiefNext(s, id))
  {
    StealFlagBuffer(s, id);
    StealFlagThieves(s, id);
    StealFlagHistory(s, id);
  }

  lemma NextInv<T>(s: State<T>, e: Event<T>)
    requires Inv(s) && Enabled(s, e)
    ensures Inv(Next(s, e))
  {
    match e
    case StartPush(items) => StartPushInv(s, items);
    case StartPop => StartPopInv(s);
    case StartSteal(id) => StartStealInv(s, id);
    case ThiefStep(id) =>
      match s.thieves[id] {
        case Away =>
        case StealLoadTail(_) => StealLoadInv(s, id);
        case StealCas(_) => StealCasInv(s, id);
        case StealMove(_) => StealMoveInv(s, id);
        case StealFlag(_, _) => StealFlagInv(s, id);
      }
    case OwnerStep =>
      match s.owner {
        case Resting =>
        case PushLoadHead(_, _) => PushLoadInv(s);
        case PushWait(_, _, _) => PushWaitInv(s);
        case PushBuild(_, _, _) => PushBuildInv(s);
        case PushFlag(_, _, _) => PushFlagInv(s);
        case PushPublish(_, _) => PushPublishInv(s);
        case PopStoreTail(_) => PopStoreInv(s);
        case PopLoadHead(_) => PopLoadInv(s);
        case PopCas(_) => PopCasInv(s);
        case PopMove(_, _) => PopMoveInv(s);
        case PopFlag(_, _, _) => PopFlagInv(s);
        case PopRestore(_) => PopStoreInv(s);
      }
  }

  // ---------------------------------------------------------------- what every run guarantees

  /** A run: the states visited and the events between them, interleaved in any way. */
  ghost predicate IsRun<T>(run: seq<State<T>>, events: seq<Event<T>>) {
    && |run| == |events| + 1
    && Init(run[0])
    && forall i | 0 <= i < |events| :: Enabled(run[i], events[i]) && run[i + 1] == Next(run[i], events[i])
  }

  lemma {:induction false} RunInv<T>(run: seq<State<T>>, events: seq<Event<T>>, i: nat)
    requires IsRun(run, events) && i < |run|
    ensures Inv(run[i])
  {
    if i == 0 {
      InitInv(run[0]);
    } else {
      RunInv(run, events, i - 1);
      NextInv(run[i - 1], events[i - 1]);
    }
  }

  /** The deque a caller sees: the items that are pushed and not yet claimed, oldest first. */
  function Contents<T>(s: State<T>): seq<Option<T>> {
    Items(s.at, s.log, s.head, LiveEnd(s.owner, s.tail))
  }

  function Items<T>(at: seq<nat>, log: seq<T>, from: nat, to: nat): seq<Option<T>> {
    seq(if from <= to then to - from else 0, i requires i >= 0 => ItemAt(at, log, from + i))
  }

  predicate AtPosition<T>(s: State<T>, p: nat, n: nat) { p < |s.at| && s.at[p] == n }

  /** Item `n` is returned, queued, in the owner's claim, or in a thief's claim. */
  ghost predicate Accounted<T>(s: State<T>, n: nat) {
    || (exists i :: 0 <= i < |s.taken| && s.taken[i].serial == n)
    || (exists p: nat :: s.head <= p < s.head + |Contents(s)| && AtPosition(s, p, n))
    || (OwnerClaims(s.owner) && AtPosition(s, s.owner.t, n))
    || (exists id :: ThiefHas(s, id, n))
  }

  predicate ThiefHas<T>(s: State<T>, id: nat, n: nat) {
    ThiefClaims(s, id) && AtPosition(s, s.thieves[id].h, n)
  }

  /** In every run each pushed item is returned at most once, as itself, and is never lost. */
  lemma ExactlyOnce<T>(run: seq<State<T>>, events: seq<Event<T>>, k: nat)
    requires IsRun(run, events) && k < |run|
    ensures forall i | 0 <= i < |run[k].taken| ::
              run[k].taken[i].serial < |run[k].log| && run[k].taken[i].v == Some(run[k].log[run[k].taken[i].serial])
    ensures forall i, j | 0 <= i < j < |run[k].taken| :: run[k].taken[i].serial != run[k].taken[j].serial
    ensures forall n: nat | n < |run[k].log| :: Accounted(run[k], n)
  {
    RunInv(run, events, k);
    var s := run[k];
    forall n: nat | n < |s.log|
      ensures Accounted(s, n)
    {
      match s.place[n]
      case Queued(p) =>
        assert p < s.head + |Contents(s)| && AtPosition(s, p, n);
      case WithOwner =>
        assert AtPosition(s, s.owner.t, n);
      case WithThief(id) =>
        assert ThiefHas(s, id, n);
      case Returned(i) =>
        assert s.taken[i].serial == n;
    }
  }

  /** What an event does to the deque the callers see: a publish appends the pushed items, the
      owner's claim removes the newest item, a thief's claim the oldest, all else changes nothing. */
  ghost predicate DequeStep<T>(s: State<T>, e: Event<T>, before: seq<Option<T>>, after: seq<Option<T>>)
    requires Enabled(s, e)
  {
    match e
    case OwnerStep =>
      if s.owner.PushPublish? then
        after == before + seq(|s.owner.items|, i requires 0 <= i < |s.owner.items| => Some(s.owner.items[i]))
      else if (s.owner.PopLoadHead? && s.head < s.owner.t) || (s.owner.PopCas? && s.head == s.owner.t) then
        before != [] && after == before[..|before| - 1] && before[|before| - 1] == Item(s, s.owner.t)
      else after == before
    case ThiefStep(id) =>
      if s.thieves[id].StealCas? && s.head == s.thieves[id].h then
        before != [] && after == before[1..] && before[0] == Item(s, s.head)
      else after == before
    case _ => after == before
  }

  lemma PublishAppends<T>(s: State<T>)
    requires Inv(s) && s.owner.PushPublish?
    ensures DequeStep(s, OwnerStep, Contents(s), Contents(OwnerNext(s)))
  {
    var s' := OwnerNext(s);
    assert s'.at == s.at[..s.tail] + seq(|s.owner.items|, i requires i >= 0 => |s.log| + i);
    forall i | 0 <= i < |Contents(s)|
      ensures Contents(s')[i] == Contents(s)[i]
    {
      var p := s.head + i;
      assert Holds(s, p, Queued(p));
      assert Item(s', p) == Item(s, p) && Contents(s)[i] == Item(s, p);
    }
    forall j | 0 <= j < |s.owner.items|
      ensures Contents(s')[|Contents(s)| + j] == Some(s.owner.items[j])
    {
      assert Item(s', s.tail + j) == Some(s.owner.items[j]);
    }
  }

  lemma OwnerClaimsNewest<T>(s: State<T>)
    requires Inv(s) && (s.owner.PopLoadHead? || s.owner.PopCas?)
    ensures DequeStep(s, OwnerStep, Contents(s), Contents(OwnerNext(s)))
  {
  }

  lemma ThiefClaimsOldest<T>(s: State<T>, id: nat)
    requires Inv(s) && id in s.thieves && s.thieves[id].StealCas?
    ensures DequeStep(s, ThiefStep(id), Contents(s), Contents(ThiefNext(s, id)))
  {
  }

  /** The machine refines a sequential deque, event by event. */
  lemma RefinesDeque<T>(s: State<T>, e: Event<T>)
    requires Inv(s) && Enabled(s, e)
    ensures DequeStep(s, e, Contents(s), Contents(Next(s, e)))
  {
    hide ThievesInv, RingInv, PlaceInv, ItemAt;
    if e == OwnerStep && s.owner.PushPublish? {
      PublishAppends(s);
    } else if e == OwnerStep && (s.owner.PopLoadHead? || s.owner.PopCas?) {
      OwnerClaimsNewest(s);
    } else if e.ThiefStep? && s.thieves[e.id].StealCas? {
      ThiefClaimsOldest(s, e.id);
    } else {
      assert LiveEnd(s.owner, s.tail) == LiveEnd(Next(s, e).owner, Next(s, e).tail);
    }
  }

  /** A failed operation is justified when it fails: a pop gives up only on an empty deque, and a
      push is cut short only by the room that is left. */
  lemma FailuresAreHonest<T>(s: State<T>)
    requires Inv(s)
    ensures s.owner.Resting? && s.tail == 0 ==> Contents(s) == []
    ensures (s.owner.PopLoadHead? || s.owner.PopCas?) && OwnerNext(s).owner.PopRestore? ==> Contents(s) == []
    ensures s.owner.PushLoadHead? && OwnerNext(s).owner.Resting? ==> |Contents(s)| == s.cap
    ensures s.owner.PushLoadHead? && OwnerNext(s).owner.PushWait? && |OwnerNext(s).owner.items| < |s.owner.items|
            ==> |Contents(s)| + |OwnerNext(s).owner.items| == s.cap
  {
  }

  /** `head` never passes the owner's resting tail, and a slot is rewritten only when nobody still
      has the item that was in it one lap earlier. */
  lemma RewritesAfterExtraction<T>(run: seq<State<T>>, events: seq<Event<T>>, k: nat)
    requires IsRun(run, events) && k < |run|
    ensures run[k].owner.Resting? ==> run[k].head <= run[k].tail <= run[k].head + run[k].cap
    ensures var s := run[k]; s.owner.PushBuild? ==>
              && !(s.head <= s.owner.t + s.owner.i - s.cap)
              && forall id | ThiefClaims(s, id) :: s.thieves[id].h != s.owner.t + s.owner.i - s.cap
  {
    RunInv(run, events, k);
  }

  /** What a claimant is about to move out of its slot is the item it claimed. */
  lemma ClaimsHoldTheirItem<T>(s: State<T>)
    requires Inv(s)
    ensures s.owner.PopMove? ==> Read(s.buf, s.owner.t).data == Item(s, s.owner.t) != None
    ensures forall id | id in s.thieves && s.thieves[id].StealMove? ::
              Read(s.buf, s.thieves[id].h).data == Item(s, s.thieves[id].h) != None
  {
    assert forall id | id in s.thieves && s.thieves[id].StealMove? :: Holds(s, s.thieves[id].h, WithThief(id));
  }

  // ---------------------------------------------------------------- what an operation achieves

  /** `n` steps of a thief whom nobody disturbs. */
  function ThiefRun<T>(s: State<T>, id: nat, n: nat): (r: State<T>)
    requires WellFormed(s) && id in s.thieves
    ensures WellFormed(r) && id in r.thieves
    decreases n
  {
    if n == 0 then s else ThiefRun(ThiefNext(s, id), id, n - 1)
  }

  lemma StealClaims<T>(s: State<T>, id: nat)
    requires Inv(s) && id in s.thieves && s.thieves[id] == StealLoadTail(s.head) && s.head < s.tail
    ensures var s' := ThiefRun(s, id, 2);
            && Inv(s') && s'.thieves == s.thieves[id := StealMove(s.head)] && s'.owner == s.owner && s'.tail == s.tail
            && s'.log == s.log && s'.taken == s.taken && s'.at == s.at
            && Contents(s) != [] && Contents(s)[0] == Item(s, s.head) && Contents(s') == Contents(s)[1..]
  {
    hide RingInv, HistoryInv, Read, Write, ItemAt, OwnerInv;
    var s1 := ThiefNext(s, id);
    NextInv(s, ThiefStep(id));
    RefinesDeque(s, ThiefStep(id));
    NextInv(s1, ThiefStep(id));
    RefinesDeque(s1, ThiefStep(id));
    assert ThiefRun(s, id, 2) == ThiefRun(s1, id, 1) == ThiefNext(s1, id);
  }

  lemma StealCarriesOut<T>(s: State<T>, id: nat)
    requires Inv(s) && id in s.thieves && s.thieves[id].StealMove?
    ensures var s', h := ThiefRun(s, id, 2), s.thieves[id].h;
            && s'.thieves == s.thieves[id := Away] && s'.owner == s.owner && s'.tail == s.tail && s'.log == s.log && h < |s.at|
            && s'.taken == s.taken + [Take(s.at[h], Item(s, h))] && Contents(s') == Contents(s)
  {
    hide RingInv, TakenInv, Read, Write, ItemAt, OwnerInv;
    var s1 := ThiefNext(s, id);
    NextInv(s, ThiefStep(id));
    RefinesDeque(s, ThiefStep(id));
    RefinesDeque(s1, ThiefStep(id));
    assert ThiefRun(s, id, 2) == ThiefRun(s1, id, 1) == ThiefNext(s1, id);
    assert ThiefInv(s1, id);
  }

  /** An undisturbed steal returns the oldest item if there is one that the owner is not after. */
  lemma StealTakesOldest<T>(s: State<T>, id: nat)
    requires Inv(s) && Enabled(s, StartSteal(id)) && s.head < s.tail
    ensures Contents(s) != []
    ensures var s' := ThiefRun(Next(s, StartSteal(id)), id, 4);
            && s'.thieves == s.thieves && s'.owner == s.owner && s'.tail == s.tail && s'.log == s.log && s.head < |s.at|
            && s'.taken == s.taken + [Take(s.at[s.head], Contents(s)[0])] && Contents(s') == Contents(s)[1..]
  {
    hide RingInv, HistoryInv, OwnerInv, ThiefInv, ItemAt;
    var s1 := Next(s, StartSteal(id));
    NextInv(s, StartSteal(id));
    StealClaims(s1, id);
    StealCarriesOut(ThiefRun(s1, id, 2), id);
    assert ThiefRun(s1, id, 4) == ThiefRun(ThiefNext(s1, id), id, 3) == ThiefRun(ThiefRun(s1, id, 2), id, 2);
  }

  /** A steal that fails was right to: the deque is empty, another thief or the owner has the item since, or
      the owner is about to take the last one. */
  lemma StealFailsHonestly<T>(s: State<T>, id: nat)
    requires Inv(s) && id in s.thieves && (s.thieves[id].StealLoadTail? || s.thieves[id].StealCas?)
    ensures ThiefNext(s, id).thieves[id].Away? ==>
              Contents(s) == [] || s.thieves[id].h < s.head || (|Contents(s)| == 1 && s.tail < LiveEnd(s.owner, s.tail))
    ensures s.thieves[id].h == s.head < s.tail ==> !ThiefNext(s, id).thieves[id].Away?
  {
    hide RingInv, HistoryInv;
    assert ThiefInv(s, id);
  }

  /** `n` steps of the owner, undisturbed. */
  function OwnerRun<T>(s: State<T>, n: nat): (r: State<T>)
    requires WellFormed(s)
    ensures WellFormed(r)
    decreases n
  {
    if n == 0 then s else OwnerRun(OwnerNext(s), n - 1)
  }

  lemma RestingStays<T>(s: State<T>, n: nat)
    requires WellFormed(s) && s.owner.Resting?
    ensures OwnerRun(s, n) == s
  {
  }

  /** The owner's claim, carried out: two steps, and for the last item a third. */
  lemma PopCarriesOut<T>(s: State<T>)
    requires Inv(s) && s.owner.PopMove?
    ensures var s', t := OwnerRun(s, if s.owner.last then 3 else 2), s.owner.t;
            && s'.owner.Resting? && s'.thieves == s.thieves && s'.log == s.log && t < |s.at|
            && s'.taken == s.taken + [Take(s.at[t], Item(s, t))] && Contents(s') == Contents(s)
  {
    hide RingInv, TakenInv, Read, Write, ItemAt, ThievesInv, LiveEnd, Contents;
    var s1 := OwnerNext(s);
    NextInv(s, OwnerStep);
    RefinesDeque(s, OwnerStep);
    var s2 := OwnerNext(s1);
    NextInv(s1, OwnerStep);
    RefinesDeque(s1, OwnerStep);
    if s.owner.last {
      RefinesDeque(s2, OwnerStep);
      assert OwnerRun(s, 3) == OwnerRun(s1, 2) == OwnerRun(s2, 1) == OwnerNext(s2);
    } else {
      assert OwnerRun(s, 2) == OwnerRun(s1, 1) == s2;
    }
  }

  lemma PopStarts<T>(s: State<T>)
    requires Inv(s) && s.owner.Resting? && s.tail > 0
    ensures var s' := OwnerRun(Next(s, StartPop), 1);
            Inv(s') && s' == s.(tail := s.tail - 1, owner := PopLoadHead(s.tail - 1)) && Contents(s') == Contents(s)
  {
    hide RingInv, HistoryInv, Read, Write, ItemAt, ThievesInv;
    var s1 := Next(s, StartPop);
    NextInv(s, StartPop);
    RefinesDeque(s, StartPop);
    NextInv(s1, OwnerStep);
    RefinesDeque(s1, OwnerStep);
    assert OwnerRun(s1, 1) == OwnerRun(OwnerNext(s1), 0);
  }

  /** The owner's way to its claim, or to giving up. */
  lemma PopClaims<T>(s: State<T>)
    requires Inv(s) && s.owner.PopLoadHead?
    ensures Contents(s) == [] ==> OwnerRun(s, 2) == s.(tail := s.tail + 1, owner := Resting)
    ensures Contents(s) != [] ==>
              var s' := OwnerRun(s, if |Contents(s)| == 1 then 2 else 1);
              && Inv(s') && s'.owner == PopMove(s.tail, |Contents(s)| == 1)
              && s'.thieves == s.thieves && s'.log == s.log && s'.taken == s.taken && s'.at == s.at
              && Contents(s') == Contents(s)[..|Contents(s)| - 1] && Contents(s)[|Contents(s)| - 1] == Item(s, s.tail)
  {
    hide RingInv, HistoryInv, Read, Write, ItemAt, ThievesInv, WriteEnd, Holds, TakenInv;
    var s1 := OwnerNext(s);
    NextInv(s, OwnerStep);
    RefinesDeque(s, OwnerStep);
    assert OwnerRun(s, 1) == OwnerRun(s1, 0) && OwnerRun(s, 2) == OwnerRun(s1, 1) == OwnerNext(s1);
    if |Contents(s)| == 1 {
      NextInv(s1, OwnerStep);
      RefinesDeque(s1, OwnerStep);
    }
  }

  lemma RunInTwo<T>(s: State<T>, m: nat, n: nat)
    requires WellFormed(s)
    ensures OwnerRun(s, m + n) == OwnerRun(OwnerRun(s, m), n)
    decreases m
  {
    if m > 0 {
      RunInTwo(OwnerNext(s), m - 1, n);
    }
  }

  /** An undisturbed pop returns the newest item, or finds the deque empty and leaves everything as it was. */
  lemma PopTakesNewest<T>(s: State<T>)
    requires Inv(s) && s.owner.Resting?
    ensures var s', n := OwnerRun(Next(s, StartPop), 6), |Contents(s)|;
            if n == 0 then s' == s
            else
              && s'.owner.Resting? && s'.thieves == s.thieves && s'.log == s.log && 0 < s.tail <= |s.at|
              && s'.taken == s.taken + [Take(s.at[s.tail - 1], Contents(s)[n - 1])] && Contents(s') == Contents(s)[..n - 1]
  {
    hide Next, OwnerNext, OwnerRun, RingInv, HistoryInv, ThievesInv, ItemAt;
    var s1, n := Next(s, StartPop), |Contents(s)|;
    if s.tail == 0 {
      NothingToPop(s);
    } else {
      StartedWell(s);
      PopStarts(s);
      var s2 := OwnerRun(s1, 1);
      RunInTwo(s1, 1, 5);
      PopClaims(s2);
      if n == 0 {
        RunInTwo(s2, 2, 3);
        RestingStays(s, 3);
      } else {
        var m := if n == 1 then 2 else 1;
        var s3 := OwnerRun(s2, m);
        RunInTwo(s2, m, 5 - m);
        PopCarriesOut(s3);
        var k := if n == 1 then 3 else 2;
        RunInTwo(s3, k, 5 - m - k);
        RestingStays(OwnerRun(s3, k), 5 - m - k);
      }
    }
  }

  lemma NothingToPop<T>(s: State<T>)
    requires Inv(s) && s.owner.Resting? && s.tail == 0
    ensures Contents(s) == [] && OwnerRun(Next(s, StartPop), 6) == s
  {
    RestingStays(s, 6);
  }

  lemma StartedWell<T>(s: State<T>)
    requires Inv(s) && s.owner.Resting?
    ensures WellFormed(Next(s, StartPop))
  {
  }

  // ---------------------------------------------------------------- the wait of a push ends

  predicate ClaimsAt<T>(s: State<T>, id: nat, h: nat) { ThiefClaims(s, id) && s.thieves[id].h == h }

  ghost predicate Claimed<T>(s: State<T>, h: nat) {
    (OwnerClaims(s.owner) && s.owner.t == h) || exists id :: ClaimsAt(s, id, h)
  }

  /** The slot of position `p` is flagged as extracted, or the claimant of one lap earlier will do so. */
  ghost predicate Vacated<T>(s: State<T>, p: nat)
    requires WellFormed(s)
  {
    Read(s.buf, p).extracted || (p >= s.cap && Claimed(s, p - s.cap))
  }

  /** A slot that the owner may come to write next and that holds nothing it has pushed. */
  predicate Unused<T>(s: State<T>, p: nat) { WriteEnd(s.owner, s.tail) <= p < s.head + s.cap }

  ghost predicate FlagsInv<T>(s: State<T>)
    requires WellFormed(s)
  {
    forall p: nat | Unused(s, p) :: Vacated(s, p)
  }

  /** A step that stores nothing in a slot. */
  lemma FlagsWithoutStore<T>(s: State<T>, s': State<T>)
    requires WellFormed(s) && FlagsInv(s) && WellFormed(s') && s'.buf == s.buf && s'.cap == s.cap
    requires forall h: nat | Claimed(s, h) :: Claimed(s', h)
    requires forall p: nat | Unused(s', p) :: Unused(s, p) || (p >= s.cap && Claimed(s', p - s.cap))
    ensures FlagsInv(s')
  {
    hide WriteEnd, LiveEnd, Claimed;
    forall p: nat | Unused(s', p)
      ensures Vacated(s', p)
    {
      assert Unused(s, p) ==> Vacated(s, p);
    }
  }

  /** A claimant's store in the slot of position `h`. */
  lemma FlagsAfterClaimant<T>(s: State<T>, s': State<T>, h: nat, slot: Slot<T>)
    requires WellFormed(s) && FlagsInv(s) && WellFormed(s') && s'.cap == s.cap && s'.head == s.head
    requires s'.buf == Write(s.buf, h, slot) && (Read(s.buf, h).extracted ==> slot.extracted)
    requires s.head <= WriteEnd(s.owner, s.tail) && h < WriteEnd(s.owner, s.tail) <= h + s.cap
    requires WriteEnd(s.owner, s.tail) <= WriteEnd(s'.owner, s'.tail) || (WriteEnd(s'.owner, s'.tail) == h && WriteEnd(s.owner, s.tail) == h + 1 && slot.extracted)
    requires forall x: nat | Claimed(s, x) :: Claimed(s', x) || (x == h && slot.extracted)
    ensures FlagsInv(s')
  {
    hide WriteEnd, LiveEnd, Claimed, Write;
    SameStore(s.buf, h, slot);
    Frame(s.buf, h + s.cap, slot, WriteEnd(s.owner, s.tail));
    ReadWritten(s.buf, h, slot);
    SameSlot(s.buf, h);
    forall p: nat | Unused(s', p)
      ensures Vacated(s', p)
    {
      if p == h + s.cap {
        assert Unused(s, p) && Vacated(s, p);
      } else if p != h {
        assert Unused(s, p) && Vacated(s, p);
        assert Read(s'.buf, p) == Read(s.buf, p);
      }
    }
  }

  /** The owner's store behind all slots that anybody else uses. */
  lemma FlagsAfterPush<T>(s: State<T>, s': State<T>, p0: nat, slot: Slot<T>)
    requires WellFormed(s) && FlagsInv(s) && WellFormed(s') && s'.cap == s.cap && s'.head == s.head <= p0
    requires s'.buf == Write(s.buf, p0, slot) && WriteEnd(s.owner, s.tail) <= WriteEnd(s'.owner, s'.tail) == p0 + 1
    requires forall x: nat | Claimed(s, x) :: Claimed(s', x)
    ensures FlagsInv(s')
  {
    hide WriteEnd, LiveEnd, Claimed, Write;
    Frame(s.buf, p0, slot, p0);
    forall p: nat | Unused(s', p)
      ensures Vacated(s', p)
    {
      assert Unused(s, p) && Vacated(s, p);
      assert Read(s'.buf, p) == Read(s.buf, p);
    }
  }

  lemma SameStore<S>(buf: seq<S>, p: nat, v: S)
    requires |buf| > 0
    ensures Write(buf, p + |buf|, v) == Write(buf, p, v)
  {
  }

  lemma OwnerStoreKeepsFlags<T>(s: State<T>)
    requires Inv(s) && FlagsInv(s) && (s.owner.PushBuild? || s.owner.PushFlag? || s.owner.PopMove? || s.owner.PopFlag?)
    ensures FlagsInv(OwnerNext(s))
  {
    hide HistoryInv, RingInv, ThiefInv, Read, Write, FlagsInv, Claimed;
    var s' := OwnerNext(s);
    ClaimsOfOwner(s);
    match s.owner
    case PushBuild(items, t, i) => FlagsAfterPush(s, s', t + i, Read(s.buf, t + i).(data := Some(items[i])));
    case PushFlag(items, t, i) => FlagsAfterPush(s, s', t + i, Read(s.buf, t + i).(extracted := false));
    case PopMove(t, last) => FlagsAfterClaimant(s, s', t, Read(s.buf, t).(data := None));
    case PopFlag(t, last, v) => FlagsAfterClaimant(s, s', t, Read(s.buf, t).(extracted := true));
  }

  lemma OwnerKeepsFlags<T>(s: State<T>)
    requires Inv(s) && FlagsInv(s)
    ensures FlagsInv(OwnerNext(s))
  {
    hide HistoryInv, RingInv, ThiefInv, Read, Write, FlagsInv, Claimed;
    if s.owner.PushBuild? || s.owner.PushFlag? || s.owner.PopMove? || s.owner.PopFlag? {
      OwnerStoreKeepsFlags(s);
    } else {
      ClaimsOfOwner(s);
      FlagsWithoutStore(s, OwnerNext(s));
    }
  }

  lemma ClaimsOfOwner<T>(s: State<T>)
    requires Inv(s)
    ensures forall h: nat | Claimed(s, h) :: Claimed(OwnerNext(s), h) || (s.owner.PopFlag? && h == s.owner.t)
    ensures OwnerClaims(OwnerNext(s).owner) ==> Claimed(OwnerNext(s), OwnerNext(s).owner.t)
  {
    hide HistoryInv, RingInv, Read, Write, OwnerInv, ThiefInv, LiveEnd, WriteEnd;
    var s' := OwnerNext(s);
    forall h: nat | Claimed(s, h)
      ensures Claimed(s', h) || (s.owner.PopFlag? && h == s.owner.t)
    {
      if id :| ClaimsAt(s, id, h) {
        assert ClaimsAt(s', id, h);
      }
    }
  }

  lemma ThiefKeepsFlags<T>(s: State<T>, id: nat)
    requires Inv(s) && FlagsInv(s) && id in s.thieves
    ensures FlagsInv(ThiefNext(s, id))
  {
    hide HistoryInv, RingInv, Read, Write, FlagsInv, Claimed;
    var s' := ThiefNext(s, id);
    ClaimsOfThief(s, id);
    assert ThiefInv(s, id);
    match s.thieves[id]
    case StealMove(h) => FlagsAfterClaimant(s, s', h, Read(s.buf, h).(data := None));
    case StealFlag(h, v) => FlagsAfterClaimant(s, s', h, Read(s.buf, h).(extracted := true));
    case _ => FlagsWithoutStore(s, s');
  }

  lemma ClaimsOfThief<T>(s: State<T>, id: nat)
    requires Inv(s) && id in s.thieves
    ensures forall h: nat | Claimed(s, h) :: Claimed(ThiefNext(s, id), h) || (s.thieves[id].StealFlag? && h == s.thieves[id].h)
    ensures ThiefClaims(ThiefNext(s, id), id) ==> Claimed(ThiefNext(s, id), ThiefNext(s, id).thieves[id].h)
  {
    hide HistoryInv, RingInv, Read, Write, OwnerInv, ThiefInv, LiveEnd, WriteEnd;
    var s' := ThiefNext(s, id);
    forall h: nat | Claimed(s, h)
      ensures Claimed(s', h) || (s.thieves[id].StealFlag? && h == s.thieves[id].h)
    {
      if x :| ClaimsAt(s, x, h) {
        assert x != id || ThiefClaims(s', id) ==> ClaimsAt(s', x, h);
      }
    }
    if ThiefClaims(s', id) {
      assert ClaimsAt(s', id, s'.thieves[id].h);
    }
  }

  lemma StartKeepsFlags<T>(s: State<T>, e: Event<T>)
    requires Inv(s) && FlagsInv(s) && Enabled(s, e) && !e.OwnerStep? && !e.ThiefStep?
    ensures FlagsInv(Next(s, e))
  {
    hide HistoryInv, RingInv, ThiefInv, Read, Write, FlagsInv;
    var s' := Next(s, e);
    forall h: nat | Claimed(s, h)
      ensures Claimed(s', h)
    {
      if x :| ClaimsAt(s, x, h) {
        assert ClaimsAt(s', x, h);
      }
    }
    FlagsWithoutStore(s, s');
  }

  /** In every run the slots that a push may come to are extracted, or somebody is about to flag them. */
  lemma {:induction false} RunFlags<T>(run: seq<State<T>>, events: seq<Event<T>>, k: nat)
    requires IsRun(run, events) && k < |run|
    ensures Inv(run[k]) && FlagsInv(run[k])
  {
    hide Inv, FlagsInv, OwnerNext, ThiefNext, Init;
    RunInv(run, events, k);
    if k == 0 {
      InitFlags(run[0]);
    } else {
      RunFlags(run, events, k - 1);
      match events[k - 1]
      case OwnerStep => OwnerKeepsFlags(run[k - 1]);
      case ThiefStep(id) => ThiefKeepsFlags(run[k - 1], id);
      case _ => StartKeepsFlags(run[k - 1], events[k - 1]);
    }
  }

  lemma InitFlags<T>(s: State<T>)
    requires Init(s)
    ensures WellFormed(s) && FlagsInv(s)
  {
  }

  ghost predicate NobodyClaims<T>(s: State<T>) { forall id | id in s.thieves :: !ThiefClaims(s, id) }

  lemma PushStep<T>(s: State<T>)
    requires Inv(s) && FlagsInv(s) && NobodyClaims(s) && (s.owner.PushWait? || s.owner.PushBuild? || s.owner.PushFlag?)
    ensures WellFormed(s)
    ensures var s', items, t, i := OwnerNext(s), s.owner.items, s.owner.t, s.owner.i;
            && Inv(s') && FlagsInv(s') && s' == s.(buf := s'.buf, owner := s'.owner)
            && (s.owner.PushWait? ==> s'.owner == PushBuild(items, t, i))
            && (s.owner.PushBuild? ==> s'.owner == PushFlag(items, t, i))
            && (s.owner.PushFlag? ==> s'.owner == if i + 1 < |items| then PushWait(items, t, i + 1) else PushPublish(items, t))
  {
    hide HistoryInv, RingInv, ThiefInv, Read, Write;
    NextInv(s, OwnerStep);
    OwnerKeepsFlags(s);
    if s.owner.PushWait? {
      assert Unused(s, s.owner.t + s.owner.i) && Vacated(s, s.owner.t + s.owner.i);
    }
  }

  /** One turn of the loop of `pushBulk`. */
  lemma PushesOne<T>(s: State<T>)
    requires Inv(s) && FlagsInv(s) && s.owner.PushWait? && NobodyClaims(s)
    ensures var s', items, t, i := OwnerRun(s, 3), s.owner.items, s.owner.t, s.owner.i;
            && Inv(s') && FlagsInv(s') && s' == s.(buf := s'.buf, owner := s'.owner)
            && s'.owner == if i + 1 < |items| then PushWait(items, t, i + 1) else PushPublish(items, t)
  {
    hide BufferInv, ThievesInv, HistoryInv, FlagsInv, OwnerNext;
    PushStep(s);
    var s1 := OwnerNext(s);
    PushStep(s1);
    var s2 := OwnerNext(s1);
    PushStep(s2);
    assert OwnerRun(s, 3) == OwnerRun(s1, 2) == OwnerRun(s2, 1) == OwnerNext(s2);
  }

  lemma {:induction false} PushesAll<T>(s: State<T>)
    requires Inv(s) && FlagsInv(s) && s.owner.PushWait? && NobodyClaims(s)
    ensures var s' := OwnerRun(s, 3 * (|s.owner.items| - s.owner.i));
            Inv(s') && s' == s.(buf := s'.buf, owner := PushPublish(s.owner.items, s.owner.t))
    decreases |s.owner.items| - s.owner.i
  {
    hide BufferInv, ThievesInv, HistoryInv, FlagsInv, OwnerNext, OwnerRun;
    InvIsWellFormed(s);
    PushesOne(s);
    InvIsWellFormed(OwnerRun(s, 3));
    var s', n := OwnerRun(s, 3), |s.owner.items| - s.owner.i;
    RunInTwo(s, 3, 3 * (n - 1));
    if n > 1 {
      PushesAll(s');
    } else {
      NoSteps(s');
    }
  }

  lemma InvIsWellFormed<T>(s: State<T>)
    requires Inv(s)
    ensures WellFormed(s)
  {
  }

  lemma NoSteps<T>(s: State<T>)
    requires WellFormed(s)
    ensures OwnerRun(s, 0) == s
  {
  }

  /** The items of a push that there is room for. */
  function Fitting<T>(s: State<T>, items: seq<T>): (r: seq<T>)
    ensures |r| <= |items|
  {
    items[..Min(|items|, if |Contents(s)| < s.cap then s.cap - |Contents(s)| else 0)]
  }

  lemma PushStarts<T>(s: State<T>)
    requires Inv(s) && FlagsInv(s) && s.owner.PushLoadHead?
    ensures var s', fit := OwnerRun(s, 1), Fitting(s, s.owner.items);
            && s' == s.(owner := if fit == [] then Resting else PushWait(fit, s.owner.t, 0))
            && Inv(s') && FlagsInv(s')
  {
    hide HistoryInv, RingInv, ThiefInv, Read, Write, ItemAt, FlagsInv;
    var s' := OwnerNext(s);
    NextInv(s, OwnerStep);
    OwnerKeepsFlags(s);
    assert OwnerRun(s, 1) == OwnerRun(s', 0) == s';
    var items, fit := s.owner.items, Fitting(s, s.owner.items);
    assert |Contents(s)| == s.owner.t - s.head;
    assert fit == [] || fit == items[..|fit|];
  }

  lemma PushEnds<T>(s: State<T>)
    requires Inv(s) && s.owner.PushPublish?
    ensures var s', items := OwnerRun(s, 1), s.owner.items;
            && s'.owner.Resting? && s'.thieves == s.thieves && s'.taken == s.taken && s'.log == s.log + items
            && Contents(s') == Contents(s) + seq(|items|, i requires 0 <= i < |items| => Some(items[i]))
  {
    hide HistoryInv, RingInv, ThiefInv, Read, Write, ItemAt;
    PublishAppends(s);
    assert OwnerRun(s, 1) == OwnerRun(OwnerNext(s), 0);
  }

  /** An undisturbed push appends as many of its items as there is room for, in their order, once the thieves
      are done with what they claimed. */
  lemma PushAppends<T>(s: State<T>, items: seq<T>)
    requires Inv(s) && FlagsInv(s) && Enabled(s, StartPush(items)) && NobodyClaims(s)
    ensures var fit := Fitting(s, items);
            var s' := OwnerRun(Next(s, StartPush(items)), 3 * |fit| + 2);
            && s'.owner.Resting? && s'.thieves == s.thieves && s'.taken == s.taken && s'.log == s.log + fit
            && Contents(s') == Contents(s) + seq(|fit|, i requires 0 <= i < |fit| => Some(fit[i]))
  {
    hide HistoryInv, RingInv, ThiefInv, Read, Write, ItemAt, FlagsInv, OwnerRun;
    var fit, s1 := Fitting(s, items), Next(s, StartPush(items));
    NextInv(s, StartPush(items));
    RefinesDeque(s, StartPush(items));
    StartKeepsFlags(s, StartPush(items));
    PushStarts(s1);
    RunInTwo(s1, 1, 3 * |fit| + 1);
    var s2 := OwnerRun(s1, 1);
    if fit == [] {
      RestingStays(s2, 1);
    } else {
      PushesAll(s2);
      RunInTwo(s2, 3 * |fit|, 1);
      PushEnds(OwnerRun(s2, 3 * |fit|));
    }
  }
}
