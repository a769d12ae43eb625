/** KzAlloc/ObjectPool.h as a state machine: a lock-free stack of fixed-size slots with a tagged head,
    for any number of threads, one event per atomic load, store or compare-and-swap, sequentially
    consistent. Addresses are numbers and 0 is null; tags do not wrap. */
module ObjectPool {
  import opened Carving

  const BLOCK_SIZE: nat := 128 * 1024
  const LINK_SIZE: nat := 8

  datatype Tagged = Tagged(ptr: nat, tag: nat)

  /** What a thread does next: `New` is the A-states, falling into `Refill`, the R-states, when the
      stack is empty; `Delete` is the F-states. */
  datatype Pc =
    | Idle
    | ALoad
    | ANext(h: Tagged)
    | ACas(h: Tagged, next: nat)
    | RSystemAlloc
    | RLoadBlock(b: nat)
    | RLinkBlock(b: nat, first: nat)
    | RCasBlock(b: nat, first: nat)
    | RCarve(b: nat)
    | RLoad(slots: seq<nat>)
    | RLink(slots: seq<nat>, h: Tagged)
    | RCas(slots: seq<nat>, h: Tagged)
    | FLoad(obj: nat)
    | FSet(obj: nat, h: Tagged)
    | FCas(obj: nat, h: Tagged)

  /** Who has a carved slot: the stack, as its `i`-th slot from the bottom, the user, a thread that is
      freeing it, or a thread that has just carved it as the `i`-th of a private list. */
  datatype Owner = Pool(i: nat) | User | Freeing(id: nat) | Carving(id: nat, i: nat)

  /** How far a block from the system has come; `k` is its place on the list of blocks. */
  datatype Stage = Fresh(id: nat) | Listed(id: nat, k: nat) | Carved(k: nat)

  /** `mem` holds the first word of every slot and block. The last five components are history that
      no step reads: the owner and the block of each slot, the slots on the stack from the bottom
      up, the stage of each block, and the blocks on the list that the destructor walks, oldest first. */
  datatype State = State(
    objSize: nat, align: nat, head: Tagged, current: nat, mem: map<nat, nat>, threads: map<nat, Pc>,
    own: map<nat, Owner>, home: map<nat, nat>, stack: seq<nat>, stage: map<nat, Stage>, blocks: seq<nat>)

  datatype Event =
    | StartNew(id: nat)
    | StartDelete(id: nat, obj: nat)
    | UserWrite(obj: nat, v: nat)
    | SystemAlloc(id: nat, b: nat)
    | Step(id: nat, spurious: bool)

  ghost predicate Init(s: State) {
    && s.objSize >= LINK_SIZE && s.align > 0
    && s.head == Tagged(0, 0) && s.current == 0 && s.mem == map[]
    && (forall id | id in s.threads :: s.threads[id] == Idle)
    && s.own == map[] && s.home == map[] && s.stack == [] && s.stage == map[] && s.blocks == []
  }

  predicate Enabled(s: State, e: Event) {
    match e
    case StartNew(id) => id in s.threads && s.threads[id].Idle?
    case StartDelete(id, obj) => id in s.threads && s.threads[id].Idle? && obj in s.own && s.own[obj] == User
    case UserWrite(obj, v) => obj in s.own && s.own[obj] == User
    case SystemAlloc(id, b) =>
      && id in s.threads && s.threads[id].RSystemAlloc? && b > 0
      && forall b' | b' in s.stage :: Apart(b, b', BLOCK_SIZE)
    case Step(id, _) =>
      id in s.threads && !s.threads[id].Idle? && !s.threads[id].RSystemAlloc? && (s.threads[id].ANext? ==> s.threads[id].h.ptr in s.mem)
  }

  /** The first slot of block `b`: past the link word, rounded up to the alignment. */
  function FirstSlot(b: nat, align: nat): nat
    requires align > 0
  {
    (b + LINK_SIZE + align - 1) / align * align
  }

  function Slots(b: nat, align: nat, objSize: nat): seq<nat>
    requires objSize > 0 && align > 0
  {
    SlotsFrom(FirstSlot(b, align), BLOCK_SIZE - (FirstSlot(b, align) - b), objSize)
  }

  /** The memory after a block's slots are linked up privately, the last one carved first. */
  function Linked(mem: map<nat, nat>, slots: seq<nat>): map<nat, nat> {
    if slots == [] then mem
    else Linked(mem, slots[..|slots| - 1])[slots[|slots| - 1] := if |slots| == 1 then 0 else slots[|slots| - 2]]
  }

  function Goto(s: State, id: nat, pc: Pc): State { s.(threads := s.threads[id := pc]) }

  /** History: thread `id` has carved `slots`. */
  function CarveOwners(own: map<nat, Owner>, slots: seq<nat>, id: nat): map<nat, Owner> {
    if slots == [] then own
    else CarveOwners(own, slots[..|slots| - 1], id)[slots[|slots| - 1] := Carving(id, |slots| - 1)]
  }

  /** History: all that thread `id` has carved goes on top of a stack of height `height`. */
  function PoolOwners(own: map<nat, Owner>, id: nat, height: nat): map<nat, Owner> {
    map a | a in own :: if own[a].Carving? && own[a].id == id then Pool(height + own[a].i) else own[a]
  }

  function AfterHead(h: Tagged): Pc { if h.ptr == 0 then RSystemAlloc else ANext(h) }

  function Next(s: State, e: Event): State
    requires s.objSize > 0 && s.align > 0 && Enabled(s, e)
  {
    match e
    case StartNew(id) => Goto(s, id, ALoad)
    case StartDelete(id, obj) => Goto(s, id, FLoad(obj)).(own := s.own[obj := Freeing(id)])
    case UserWrite(obj, v) => s.(mem := s.mem[obj := v])
    case SystemAlloc(id, b) => Goto(s, id, RLoadBlock(b)).(mem := s.mem[b := 0], stage := s.stage[b := Fresh(id)])
    case Step(id, spurious) =>
      match s.threads[id] {
        case Idle => s
        case RSystemAlloc => s
        case ALoad => Goto(s, id, AfterHead(s.head))
        case ANext(h) => Goto(s, id, ACas(h, s.mem[h.ptr]))
        case ACas(h, next) =>
          if s.head != h || spurious then Goto(s, id, AfterHead(s.head))
          else Goto(s, id, Idle).(head := Tagged(next, h.tag + 1), own := s.own[h.ptr := User],
                                  stack := if s.stack == [] then [] else s.stack[..|s.stack| - 1])
        case RLoadBlock(b) => Goto(s, id, RLinkBlock(b, s.current))
        case RLinkBlock(b, first) => Goto(s, id, RCasBlock(b, first)).(mem := s.mem[b := first])
        case RCasBlock(b, first) =>
          if s.current != first || spurious then Goto(s, id, RLinkBlock(b, s.current))
          else Goto(s, id, RCarve(b)).(current := b, stage := s.stage[b := Listed(id, |s.blocks|)], blocks := s.blocks + [b])
        case RCarve(b) =>
          var slots := Slots(b, s.align, s.objSize);
          Goto(s, id, if slots == [] then ALoad else RLoad(slots))
          .(mem := Linked(s.mem, slots), stage := s.stage[b := Carved(if b in s.stage && s.stage[b].Listed? then s.stage[b].k else 0)],
            own := CarveOwners(s.own, slots, id), home := s.home + map a | a in slots :: b)
        case RLoad(slots) => Goto(s, id, RLink(slots, s.head))
        case RLink(slots, h) =>
          if slots == [] then Goto(s, id, ALoad) else Goto(s, id, RCas(slots, h)).(mem := s.mem[slots[0] := h.ptr])
        case RCas(slots, h) =>
          if slots == [] then Goto(s, id, ALoad)
          else if s.head != h || spurious then Goto(s, id, RLink(slots, s.head))
          else Goto(s, id, ALoad).(head := Tagged(slots[|slots| - 1], h.tag + 1),
                                   own := PoolOwners(s.own, id, |s.stack|), stack := s.stack + slots)
        case FLoad(obj) => Goto(s, id, FSet(obj, s.head))
        case FSet(obj, h) => Goto(s, id, FCas(obj, h)).(mem := s.mem[obj := h.ptr])
        case FCas(obj, h) =>
          if s.head != h || spurious then Goto(s, id, FSet(obj, s.head))
          else Goto(s, id, Idle).(head := Tagged(obj, h.tag + 1), own := s.own[obj := Pool(|s.stack|)], stack := s.stack + [obj])
      }
  }

  // ---------------------------------------------------------------- carving

  lemma RoundUpBounds(x: nat, align: nat)
    requires align > 0
    ensures x <= (x + align - 1) / align * align
  {
    var y := x + align - 1;
    assert y == y / align * align + y % align;
  }

  /** A block's slots lie behind its link word, inside the block, and do not overlap. */
  lemma SlotsOfBlock(b: nat, align: nat, objSize: nat)
    requires objSize > 0 && align > 0
    ensures var r := Slots(b, align, objSize);
            && (forall a | a in r :: b + LINK_SIZE <= a && a + objSize <= b + BLOCK_SIZE)
            && (forall i, j | 0 <= i < j < |r| :: r[i] + objSize <= r[j])
  {
    FirstSlotBounds(b, align);
    var left := BLOCK_SIZE - (FirstSlot(b, align) - b);
    if left >= 0 {
      SlotsFit(FirstSlot(b, align), left, objSize);
    }
  }

  lemma FirstSlotBounds(b: nat, align: nat)
    requires align > 0
    ensures b + LINK_SIZE <= FirstSlot(b, align)
  {
    RoundUpBounds(b + LINK_SIZE, align);
  }

  lemma LinkedSnoc(mem: map<nat, nat>, slots: seq<nat>, a: nat)
    ensures Linked(mem, slots + [a]) == Linked(mem, slots)[a := if slots == [] then 0 else slots[|slots| - 1]]
  {
    assert (slots + [a])[..|slots|] == slots;
  }

  lemma NothingLinked(mem: map<nat, nat>)
    ensures Linked(mem, []) == mem
  {
  }

  /** The carving loop of `Refill`, which walks the block and pushes each slot on a private list. */
  method Carve(mem0: map<nat, nat>, b: nat, align: nat, objSize: nat)
    returns (mem: map<nat, nat>, localHead: nat, localTail: nat)
    requires objSize > 0 && align > 0
    ensures var slots := Slots(b, align, objSize);
            && mem == Linked(mem0, slots)
            && (slots == [] ==> localHead == localTail == 0)
            && (slots != [] ==> localHead == slots[|slots| - 1] && localTail == slots[0])
  {
    hide FirstSlot, Linked;
    NothingLinked(mem0);
    mem, localHead, localTail := mem0, 0, 0;
    var memory: nat := FirstSlot(b, align);
    var leftBytes := BLOCK_SIZE - (memory - b);
    ghost var slots := Slots(b, align, objSize);
    ghost var done: seq<nat> := [];
    FirstSlotBounds(b, align);
    while leftBytes >= objSize
      invariant done + SlotsFrom(memory, leftBytes, objSize) == slots
      invariant mem == Linked(mem0, done)
      invariant done == [] ==> localHead == localTail == 0
      invariant done != [] ==> localHead == done[|done| - 1] > 0 && localTail == done[0]
      invariant memory > 0
      decreases leftBytes
    {
      var obj := memory;
      memory := memory + objSize;
      leftBytes := leftBytes - objSize;
      if localHead == 0 {
        localHead := obj;
        localTail := obj;
        mem := mem[obj := 0];
      } else {
        mem := mem[obj := localHead];
        localHead := obj;
      }
      LinkedSnoc(mem0, done, obj);
      assert done + ([obj] + SlotsFrom(memory, leftBytes, objSize)) == (done + [obj]) + SlotsFrom(memory, leftBytes, objSize);
      done := done + [obj];
    }
    assert done == slots;
  }

  // ---------------------------------------------------------------- the invariant

  /** What lies under element `i` of a list given from its last element up; 0 under the bottom. */
  function Below(s: seq<nat>, i: nat): nat { if 0 < i <= |s| then s[i - 1] else 0 }

  /** Following first words from `p` visits `s` from its top down and ends in null. */
  ghost predicate Chain(mem: map<nat, nat>, p: nat, s: seq<nat>) {
    && p == Below(s, |s|)
    && (forall i: nat | i < |s| :: s[i] > 0 && s[i] in mem)
    && (forall i: nat {:trigger mem[s[i]]} | i < |s| :: mem[s[i]] == Below(s, i))
  }

  /** The stack is a proper list of exactly the slots in the pool, each once. */
  ghost predicate StackInv(mem: map<nat, nat>, head: Tagged, own: map<nat, Owner>, stack: seq<nat>) {
    Chain(mem, head.ptr, stack) && PoolOf(own, stack)
  }

  predicate InPool(o: Owner) { o.Pool? }

  ghost predicate PoolOf(own: map<nat, Owner>, stack: seq<nat>) {
    && (forall i: nat | i < |stack| :: stack[i] in own && own[stack[i]] == Pool(i))
    && (forall a {:trigger InPool(own[a])} | a in own && InPool(own[a]) :: own[a].i < |stack| && stack[own[a].i] == a)
  }

  predicate OnList(stage: Stage, k: nat) { !stage.Fresh? && stage.k == k }

  /** The list of blocks is a proper list of exactly the blocks that have been put on it, each once. */
  ghost predicate BlocksInv(mem: map<nat, nat>, current: nat, stage: map<nat, Stage>, blocks: seq<nat>) {
    && Chain(mem, current, blocks)
    && Listing(stage, blocks)
    && (forall b | b in stage :: b > 0 && b in mem)
    && BlocksApart(stage)
  }

  predicate Published(stage: Stage) { !stage.Fresh? }

  ghost predicate Listing(stage: map<nat, Stage>, blocks: seq<nat>) {
    && (forall k: nat | k < |blocks| :: blocks[k] in stage && OnList(stage[blocks[k]], k))
    && (forall b {:trigger Published(stage[b])} | b in stage && Published(stage[b]) :: stage[b].k < |blocks| && blocks[stage[b].k] == b)
  }

  predicate Apart(a: nat, a': nat, size: nat) { a + size <= a' || a' + size <= a }

  ghost predicate BlocksApart(stage: map<nat, Stage>) {
    forall b, b' {:trigger Apart(b, b', BLOCK_SIZE)} | b in stage && b' in stage && b != b' :: Apart(b, b', BLOCK_SIZE)
  }

  /** Slot `a` lies in block `b`, behind the link word. */
  predicate Inside(a: nat, b: nat, objSize: nat) { b + LINK_SIZE <= a && a + objSize <= b + BLOCK_SIZE }

  /** Every slot lies in a carved block and no two slots overlap. */
  ghost predicate SlotsInv(objSize: nat, mem: map<nat, nat>, own: map<nat, Owner>, home: map<nat, nat>, stage: map<nat, Stage>) {
    Housed(objSize, mem, own.Keys, home, stage) && SlotsApart(objSize, own.Keys)
  }

  ghost predicate Housed(objSize: nat, mem: map<nat, nat>, slots: set<nat>, home: map<nat, nat>, stage: map<nat, Stage>) {
    && slots == home.Keys
    && (forall a | a in slots :: a > 0 && a in mem && home[a] in stage && stage[home[a]].Carved? && Inside(a, home[a], objSize))
  }

  ghost predicate SlotsApart(objSize: nat, slots: set<nat>) {
    forall a, a' {:trigger Apart(a, a', objSize)} | a in slots && a' in slots && a != a' :: Apart(a, a', objSize)
  }

  /** A head loaded earlier: if its tag is still current, the head has not changed at all. */
  predicate TagInv(head: Tagged, h: Tagged) {
    h.tag <= head.tag && (h.tag == head.tag ==> h == head)
  }

  /** A private list of freshly carved slots, linked from its last element down. */
  ghost predicate Private(mem: map<nat, nat>, own: map<nat, Owner>, id: nat, slots: seq<nat>) {
    && slots != []
    && (forall i: nat | i < |slots| :: slots[i] in own && own[slots[i]] == Carving(id, i) && slots[i] > 0 && slots[i] in mem)
    && (forall i: nat {:trigger mem[slots[i]]} | 0 < i < |slots| :: mem[slots[i]] == Below(slots, i))
  }

  ghost predicate ThreadInv(head: Tagged, mem: map<nat, nat>, own: map<nat, Owner>, stack: seq<nat>,
                            stage: map<nat, Stage>, id: nat, pc: Pc)
  {
    match pc
    case ANext(h) => TagInv(head, h) && h.ptr in own && h.ptr in mem
    case ACas(h, next) => TagInv(head, h) && h.ptr in own && (h == head ==> stack != [] && next == Below(stack, |stack| - 1))
    case RLoadBlock(b) => b in stage && stage[b] == Fresh(id)
    case RLinkBlock(b, _) => b in stage && stage[b] == Fresh(id)
    case RCasBlock(b, first) => b in stage && stage[b] == Fresh(id) && b in mem && mem[b] == first
    case RCarve(b) => b in stage && stage[b].Listed? && stage[b].id == id
    case RLoad(slots) => Private(mem, own, id, slots)
    case RLink(slots, h) => TagInv(head, h) && Private(mem, own, id, slots)
    case RCas(slots, h) => TagInv(head, h) && Private(mem, own, id, slots) && mem[slots[0]] == h.ptr
    case FLoad(obj) => obj in own && own[obj] == Freeing(id)
    case FSet(obj, h) => TagInv(head, h) && obj in own && own[obj] == Freeing(id)
    case FCas(obj, h) => TagInv(head, h) && obj in own && own[obj] == Freeing(id) && obj in mem && mem[obj] == h.ptr
    case _ => true
  }

  /** A thread in the middle of `Delete` or `Refill` has slot `a`, owned as `o`, in its hands. */
  predicate HoldsSlot(pc: Pc, a: nat, o: Owner) {
    match pc
    case FLoad(obj) => a == obj && o.Freeing?
    case FSet(obj, _) => a == obj && o.Freeing?
    case FCas(obj, _) => a == obj && o.Freeing?
    case RLoad(slots) => o.Carving? && o.i < |slots| && slots[o.i] == a
    case RLink(slots, _) => o.Carving? && o.i < |slots| && slots[o.i] == a
    case RCas(slots, _) => o.Carving? && o.i < |slots| && slots[o.i] == a
    case _ => false
  }

  predicate HoldsBlock(pc: Pc, b: nat) {
    match pc
    case RLoadBlock(b') => b == b'
    case RLinkBlock(b', _) => b == b'
    case RCasBlock(b', _) => b == b'
    case RCarve(b') => b == b'
    case _ => false
  }

  predicate InTransit(o: Owner) { o.Freeing? || o.Carving? }

  predicate Unfinished(stage: Stage) { !stage.Carved? }

  /** Nothing is lost: a slot or block in transit is in the hands of the thread history names. */
  ghost predicate HandsInv(threads: map<nat, Pc>, own: map<nat, Owner>, stage: map<nat, Stage>) {
    && (forall a {:trigger InTransit(own[a])} | a in own && InTransit(own[a]) ::
         own[a].id in threads && HoldsSlot(threads[own[a].id], a, own[a]))
    && (forall b {:trigger Unfinished(stage[b])} | b in stage && Unfinished(stage[b]) ::
         stage[b].id in threads && HoldsBlock(threads[stage[b].id], b))
  }

  ghost predicate MemoryInv(s: State) {
    && s.objSize >= LINK_SIZE && s.align > 0
    && StackInv(s.mem, s.head, s.own, s.stack)
    && BlocksInv(s.mem, s.current, s.stage, s.blocks)
    && SlotsInv(s.objSize, s.mem, s.own, s.home, s.stage)
  }

  ghost predicate ThreadsInv(s: State) {
    forall id | id in s.threads ::
      ThreadInv(s.head, s.mem, s.own, s.stack, s.stage, id, s.threads[id])
  }

  ghost predicate Inv(s: State) {
    MemoryInv(s) && ThreadsInv(s) && HandsInv(s.threads, s.own, s.stage)
  }

  lemma InitInv(s: State)
    requires Init(s)
    ensures Inv(s)
  {
  }

  // ---------------------------------------------------------------- every step keeps the invariant

  /** What a step guarantees to a thread `id` other than the one that takes it. */
  ghost predicate Rely(s: State, s': State, id: nat) {
    && s.head.tag <= s'.head.tag && (s.head.tag == s'.head.tag ==> s'.head == s.head && s'.stack == s.stack)
    && s.own.Keys <= s'.own.Keys && s.mem.Keys <= s'.mem.Keys
    && (forall a | a in s.own && (s.own[a].Freeing? || s.own[a].Carving?) && s.own[a].id == id && a in s.mem ::
         s'.own[a] == s.own[a] && s'.mem[a] == s.mem[a])
    && (forall b | b in s.stage :: b in s'.stage && (s.stage[b].Carved? ==> s'.stage[b].Carved?))
    && (forall b | b in s.stage && !s.stage[b].Carved? && s.stage[b].id == id && b in s.mem ::
         s'.stage[b] == s.stage[b] && s'.mem[b] == s.mem[b])
  }

  lemma OtherThread(s: State, s': State, id: nat)
    requires Inv(s) && id in s.threads && Rely(s, s', id)
    ensures ThreadInv(s'.head, s'.mem, s'.own, s'.stack, s'.stage, id, s.threads[id])
  {
    hide Chain;
  }

  lemma ThreadsStep(s: State, s': State, me: nat)
    requires Inv(s) && me in s'.threads && s'.threads == s.threads[me := s'.threads[me]]
    requires forall id | id != me && id in s.threads :: Rely(s, s', id)
    requires ThreadInv(s'.head, s'.mem, s'.own, s'.stack, s'.stage, me, s'.threads[me])
    ensures ThreadsInv(s')
  {
    forall id | id in s'.threads && id != me
      ensures ThreadInv(s'.head, s'.mem, s'.own, s'.stack, s'.stage, id, s'.threads[id])
    {
      OtherThread(s, s', id);
    }
  }

  /** Going to a new local state with nothing else changed, keeping hold of the same things. */
  lemma GotoInv(s: State, id: nat, pc: Pc)
    requires Inv(s) && id in s.threads
    requires ThreadInv(s.head, s.mem, s.own, s.stack, s.stage, id, pc)
    requires KeepsHold(s.threads[id], pc)
    ensures Inv(Goto(s, id, pc))
  {
    ThreadsStep(s, Goto(s, id, pc), id);
  }

  ghost predicate KeepsHold(from: Pc, to: Pc) {
    && (forall a, o | HoldsSlot(from, a, o) :: HoldsSlot(to, a, o))
    && (forall b | HoldsBlock(from, b) :: HoldsBlock(to, b))
  }

  // Components: what each kind of step does to the stack, the block list and the slots.

  lemma SlotIsNoBlock(objSize: nat, mem: map<nat, nat>, own: map<nat, Owner>, home: map<nat, nat>, stage: map<nat, Stage>, a: nat)
    requires SlotsInv(objSize, mem, own, home, stage) && BlocksApart(stage) && a in own && objSize > 0
    ensures a !in stage
  {
    assert Inside(a, home[a], objSize) && home[a] in stage;
    assert forall b | b in stage && b != home[a] :: Apart(b, home[a], BLOCK_SIZE);
  }

  /** Memory that lies inside a block no slot comes from yet is new to slots and blocks. */
  lemma FreshMemory(objSize: nat, mem: map<nat, nat>, own: map<nat, Owner>, home: map<nat, nat>, stage: map<nat, Stage>,
                    b: nat, x: nat)
    requires SlotsInv(objSize, mem, own, home, stage) && objSize > 0
    requires forall b' | b' in stage && (stage[b'].Carved? || b' != b) :: Apart(b, b', BLOCK_SIZE)
    requires b <= x && x + objSize <= b + BLOCK_SIZE
    ensures x !in own && (x != b ==> x !in stage)
    ensures forall a | a in own :: Apart(a, x, objSize)
  {
    forall a | a in own
      ensures Apart(a, x, objSize)
    {
      assert Inside(a, home[a], objSize) && Apart(b, home[a], BLOCK_SIZE);
    }
    assert x in own ==> Apart(x, x, objSize);
    assert x in stage && x != b ==> Apart(b, x, BLOCK_SIZE);
  }

  lemma WriteKeepsStack(mem: map<nat, nat>, head: Tagged, own: map<nat, Owner>, stack: seq<nat>, a: nat, v: nat)
    requires StackInv(mem, head, own, stack) && (a in own ==> !own[a].Pool?)
    ensures StackInv(mem[a := v], head, own, stack)
  {
  }

  lemma WriteKeepsBlocks(mem: map<nat, nat>, current: nat, stage: map<nat, Stage>, blocks: seq<nat>, a: nat, v: nat)
    requires BlocksInv(mem, current, stage, blocks) && (a in stage ==> stage[a].Fresh?)
    ensures BlocksInv(mem[a := v], current, stage, blocks)
  {
  }

  lemma OwnerChangeKeepsStack(mem: map<nat, nat>, head: Tagged, own: map<nat, Owner>, stack: seq<nat>, a: nat, o: Owner)
    requires StackInv(mem, head, own, stack) && (a in own ==> !own[a].Pool?) && !o.Pool?
    ensures StackInv(mem, head, own[a := o], stack)
  {
  }

  lemma PushKeepsStack(mem: map<nat, nat>, head: Tagged, own: map<nat, Owner>, stack: seq<nat>, a: nat, tag: nat)
    requires StackInv(mem, head, own, stack) && a in own && !own[a].Pool?
    requires a > 0 && a in mem && mem[a] == head.ptr
    ensures StackInv(mem, Tagged(a, tag), own[a := Pool(|stack|)], stack + [a])
  {
  }

  lemma PopKeepsStack(mem: map<nat, nat>, head: Tagged, own: map<nat, Owner>, stack: seq<nat>, tag: nat)
    requires StackInv(mem, head, own, stack) && stack != []
    ensures head.ptr in own && own[head.ptr] == Pool(|stack| - 1)
    ensures StackInv(mem, Tagged(Below(stack, |stack| - 1), tag), own[head.ptr := User], stack[..|stack| - 1])
  {
    var n: nat := |stack| - 1;
    var rest, own' := stack[..n], own[head.ptr := User];
    assert head.ptr == stack[n] && own[stack[n]] == Pool(n);
    forall i: nat | i < n
      ensures rest[i] in own' && own'[rest[i]] == Pool(i) && rest[i] > 0 && rest[i] in mem && mem[rest[i]] == Below(rest, i)
    {
      assert own[stack[i]] == Pool(i) && mem[stack[i]] == Below(stack, i) == Below(rest, i);
    }
  }

  lemma PushedChain(mem: map<nat, nat>, p: nat, stack: seq<nat>, slots: seq<nat>)
    requires Chain(mem, p, stack) && slots != []
    requires forall i: nat | i < |slots| :: slots[i] > 0 && slots[i] in mem
    requires forall i: nat {:trigger mem[slots[i]]} | 0 < i < |slots| :: mem[slots[i]] == Below(slots, i)
    requires mem[slots[0]] == p
    ensures Chain(mem, slots[|slots| - 1], stack + slots)
  {
    var s := stack + slots;
    forall i: nat | i < |s|
      ensures s[i] > 0 && s[i] in mem && mem[s[i]] == Below(s, i)
    {
      if i < |stack| {
        assert s[i] == stack[i] && Below(s, i) == Below(stack, i);
      } else {
        assert s[i] == slots[i - |stack|];
      }
    }
  }

  /** Pushing a privately linked list with its last element on top. */
  lemma PushAllKeepsStack(mem: map<nat, nat>, head: Tagged, own: map<nat, Owner>, stack: seq<nat>, id: nat, slots: seq<nat>, tag: nat)
    requires StackInv(mem, head, own, stack) && Private(mem, own, id, slots) && mem[slots[0]] == head.ptr
    requires forall a {:trigger own[a].Carving?} | a in own && own[a].Carving? && own[a].id == id :: own[a].i < |slots| && slots[own[a].i] == a
    ensures StackInv(mem, Tagged(slots[|slots| - 1], tag), PoolOwners(own, id, |stack|), stack + slots)
  {
    PushedChain(mem, head.ptr, stack, slots);
    PushedOwners(own, PoolOwners(own, id, |stack|), stack, slots, id);
  }

  lemma PushedOwners(own: map<nat, Owner>, own': map<nat, Owner>, stack: seq<nat>, slots: seq<nat>, id: nat)
    requires PoolOf(own, stack)
    requires forall i: nat | i < |slots| :: slots[i] in own && own[slots[i]] == Carving(id, i)
    requires forall a {:trigger own[a].Carving?} | a in own && own[a].Carving? && own[a].id == id :: own[a].i < |slots| && slots[own[a].i] == a
    requires own'.Keys == own.Keys
    requires forall a | a in own ::
               own'[a] == if own[a].Carving? && own[a].id == id then Pool(|stack| + own[a].i) else own[a]
    ensures PoolOf(own', stack + slots)
  {
    var s := stack + slots;
    forall i: nat | i < |s|
      ensures s[i] in own' && own'[s[i]] == Pool(i)
    {
      if i < |stack| {
        assert s[i] == stack[i] && own[stack[i]] == Pool(i);
      } else {
        assert s[i] == slots[i - |stack|];
      }
    }
  }

  lemma ListingGrows(stage: map<nat, Stage>, blocks: seq<nat>, b: nat, id: nat)
    requires Listing(stage, blocks) && b in stage && stage[b].Fresh?
    ensures Listing(stage[b := Listed(id, |blocks|)], blocks + [b])
  {
  }

  lemma ListingKeepsBlocks(mem: map<nat, nat>, current: nat, stage: map<nat, Stage>, blocks: seq<nat>, b: nat, id: nat)
    requires BlocksInv(mem, current, stage, blocks) && b in stage && stage[b].Fresh? && mem[b] == current
    ensures BlocksInv(mem, b, stage[b := Listed(id, |blocks|)], blocks + [b])
  {
    PushedChain(mem, current, blocks, [b]);
    ListingGrows(stage, blocks, b, id);
  }

  lemma NewBlockKeepsBlocks(mem: map<nat, nat>, current: nat, stage: map<nat, Stage>, blocks: seq<nat>, b: nat, id: nat)
    requires BlocksInv(mem, current, stage, blocks) && b > 0
    requires forall b' | b' in stage :: Apart(b, b', BLOCK_SIZE)
    ensures BlocksInv(mem[b := 0], current, stage[b := Fresh(id)], blocks)
  {
    assert b in stage ==> Apart(b, b, BLOCK_SIZE);
    forall x, y | x in stage[b := Fresh(id)] && y in stage[b := Fresh(id)] && x != y
      ensures Apart(x, y, BLOCK_SIZE)
    {
      assert x in stage ==> Apart(b, x, BLOCK_SIZE);
      assert y in stage ==> Apart(b, y, BLOCK_SIZE);
    }
  }

  // Carving a block.

  lemma {:induction false} LinkedFacts(mem: map<nat, nat>, slots: seq<nat>, keep: set<nat>)
    requires forall i: nat | i < |slots| :: slots[i] !in keep
    requires forall i, j | 0 <= i < j < |slots| :: slots[i] != slots[j]
    ensures mem.Keys <= Linked(mem, slots).Keys
    ensures forall i: nat | i < |slots| :: slots[i] in Linked(mem, slots)
    ensures forall i: nat | i < |slots| :: Linked(mem, slots)[slots[i]] == Below(slots, i)
    ensures forall a | a in keep && a in mem :: Linked(mem, slots)[a] == mem[a]
  {
    if slots != [] {
      var init, last := slots[..|slots| - 1], slots[|slots| - 1];
      var m := Linked(mem, init);
      LinkedFacts(mem, init, keep);
      assert Linked(mem, slots) == m[last := Below(slots, |init|)];
      forall i: nat | i < |slots|
        ensures slots[i] in Linked(mem, slots) && Linked(mem, slots)[slots[i]] == Below(slots, i)
      {
        if i < |init| {
          assert slots[i] == init[i] && m[init[i]] == Below(init, i);
        }
      }
    }
  }

  lemma {:induction false} CarveOwnersFacts(own: map<nat, Owner>, slots: seq<nat>, id: nat)
    requires forall i: nat | i < |slots| :: slots[i] !in own
    requires forall i, j | 0 <= i < j < |slots| :: slots[i] != slots[j]
    ensures own.Keys <= CarveOwners(own, slots, id).Keys
    ensures forall i: nat | i < |slots| :: slots[i] in CarveOwners(own, slots, id)
    ensures forall i: nat | i < |slots| :: CarveOwners(own, slots, id)[slots[i]] == Carving(id, i)
    ensures forall a | a in own :: CarveOwners(own, slots, id)[a] == own[a]
    ensures forall a | a in CarveOwners(own, slots, id) && a !in own ::
              var o := CarveOwners(own, slots, id)[a]; o.Carving? && o.id == id && o.i < |slots| && slots[o.i] == a
  {
    if slots != [] {
      CarveOwnersFacts(own, slots[..|slots| - 1], id);
    }
  }

  ghost predicate NewSlots(objSize: nat, own: map<nat, Owner>, stage: map<nat, Stage>, b: nat, slots: seq<nat>) {
    && (forall i: nat | i < |slots| :: Inside(slots[i], b, objSize) && slots[i] !in own && slots[i] !in stage)
    && (forall a, i: nat {:trigger Apart(a, slots[i], objSize)} | a in own && i < |slots| :: Apart(a, slots[i], objSize))
    && (forall i, j | 0 <= i < j < |slots| :: slots[i] + objSize <= slots[j])
  }

  lemma SlotsAreNew(objSize: nat, align: nat, mem: map<nat, nat>, own: map<nat, Owner>, home: map<nat, nat>,
                    stage: map<nat, Stage>, b: nat)
    requires SlotsInv(objSize, mem, own, home, stage) && BlocksApart(stage) && objSize > 0 && align > 0
    requires b in stage && !stage[b].Carved?
    ensures NewSlots(objSize, own, stage, b, Slots(b, align, objSize))
  {
    SlotsOfBlock(b, align, objSize);
    var slots := Slots(b, align, objSize);
    forall i: nat | i < |slots|
      ensures Inside(slots[i], b, objSize) && slots[i] !in own && slots[i] !in stage
      ensures forall a | a in own :: Apart(a, slots[i], objSize)
    {
      assert slots[i] in slots;
      FreshMemory(objSize, mem, own, home, stage, b, slots[i]);
    }
  }

  lemma ChainFrame(mem: map<nat, nat>, mem': map<nat, nat>, p: nat, s: seq<nat>)
    requires Chain(mem, p, s)
    requires forall i: nat | i < |s| :: s[i] in mem' && mem'[s[i]] == mem[s[i]]
    ensures Chain(mem', p, s)
  {
  }

  lemma CarveKeepsStack(mem: map<nat, nat>, head: Tagged, own: map<nat, Owner>, stack: seq<nat>,
                        objSize: nat, stage: map<nat, Stage>, b: nat, slots: seq<nat>, id: nat)
    requires StackInv(mem, head, own, stack) && NewSlots(objSize, own, stage, b, slots) && objSize > 0
    ensures StackInv(Linked(mem, slots), head, CarveOwners(own, slots, id), stack)
  {
    LinkedFacts(mem, slots, own.Keys);
    ChainFrame(mem, Linked(mem, slots), head.ptr, stack);
    CarveOwnersFacts(own, slots, id);
    PoolFrame(own, CarveOwners(own, slots, id), stack);
  }

  lemma PoolFrame(own: map<nat, Owner>, own': map<nat, Owner>, stack: seq<nat>)
    requires PoolOf(own, stack) && own.Keys <= own'.Keys
    requires forall a | a in own :: own'[a] == own[a]
    requires forall a | a in own' && a !in own :: !own'[a].Pool?
    ensures PoolOf(own', stack)
  {
  }

  lemma ListingCarved(stage: map<nat, Stage>, blocks: seq<nat>, b: nat)
    requires Listing(stage, blocks) && b in stage && stage[b].Listed?
    ensures Listing(stage[b := Carved(stage[b].k)], blocks)
  {
    assert forall b' | b' in stage && !stage[b'].Fresh? :: Published(stage[b']);
  }

  lemma CarveKeepsBlocks(mem: map<nat, nat>, current: nat, stage: map<nat, Stage>, blocks: seq<nat>,
                         objSize: nat, own: map<nat, Owner>, b: nat, slots: seq<nat>)
    requires BlocksInv(mem, current, stage, blocks) && NewSlots(objSize, own, stage, b, slots) && objSize > 0
    requires b in stage && stage[b].Listed?
    ensures BlocksInv(Linked(mem, slots), current, stage[b := Carved(stage[b].k)], blocks)
  {
    LinkedFacts(mem, slots, stage.Keys);
    ChainFrame(mem, Linked(mem, slots), current, blocks);
    ListingCarved(stage, blocks, b);
  }

  lemma CarveKeepsSlots(objSize: nat, mem: map<nat, nat>, own: map<nat, Owner>, home: map<nat, nat>, stage: map<nat, Stage>,
                        b: nat, slots: seq<nat>, id: nat)
    requires SlotsInv(objSize, mem, own, home, stage) && NewSlots(objSize, own, stage, b, slots) && objSize > 0
    requires b in stage && stage[b].Listed?
    ensures SlotsInv(objSize, Linked(mem, slots), CarveOwners(own, slots, id), home + map a | a in slots :: b,
                     stage[b := Carved(stage[b].k)])
  {
    LinkedFacts(mem, slots, {});
    CarveOwnersFacts(own, slots, id);
    CarvedHomes(objSize, mem, own, home, stage, b, slots, id, Linked(mem, slots), CarveOwners(own, slots, id));
    CarvedApart(objSize, own, stage, b, slots, CarveOwners(own, slots, id));
  }

  lemma CarvedApart(objSize: nat, own: map<nat, Owner>, stage: map<nat, Stage>, b: nat, slots: seq<nat>, own': map<nat, Owner>)
    requires NewSlots(objSize, own, stage, b, slots) && SlotsApart(objSize, own.Keys)
    requires forall a | a in own' && a !in own :: own'[a].Carving? && own'[a].i < |slots| && slots[own'[a].i] == a
    ensures SlotsApart(objSize, own'.Keys)
  {
    forall a, a' | a in own' && a' in own' && a != a'
      ensures Apart(a, a', objSize)
    {
      if a in own && a' !in own {
        assert Apart(a, slots[own'[a'].i], objSize);
      } else if a !in own && a' in own {
        assert Apart(a', slots[own'[a].i], objSize);
      } else if a !in own && a' !in own {
        var i, j := own'[a].i, own'[a'].i;
        assert slots[i] == a && slots[j] == a';
      }
    }
  }

  lemma CarvedHomes(objSize: nat, mem: map<nat, nat>, own: map<nat, Owner>, home: map<nat, nat>, stage: map<nat, Stage>,
                    b: nat, slots: seq<nat>, id: nat, mem': map<nat, nat>, own': map<nat, Owner>)
    requires Housed(objSize, mem, own.Keys, home, stage) && NewSlots(objSize, own, stage, b, slots)
    requires b in stage && stage[b].Listed?
    requires mem.Keys <= mem'.Keys && own.Keys <= own'.Keys
    requires forall i: nat | i < |slots| :: slots[i] in mem' && slots[i] in own'
    requires forall a | a in own' && a !in own :: own'[a].Carving? && own'[a].i < |slots| && slots[own'[a].i] == a
    ensures Housed(objSize, mem', own'.Keys, home + map a | a in slots :: b, stage[b := Carved(stage[b].k)])
  {
    var home', stage' := home + map a | a in slots :: b, stage[b := Carved(stage[b].k)];
    forall a | a in own'
      ensures a in home' && a > 0 && a in mem' && home'[a] in stage' && stage'[home'[a]].Carved? && Inside(a, home'[a], objSize)
    {
      if a in own {
        assert a !in slots && home'[a] == home[a];
      } else {
        assert slots[own'[a].i] == a && home'[a] == b;
      }
    }
    forall a | a in home'
      ensures a in own'
    {
    }
  }

  // Events. Each is proved in three parts: memory, the threads and what is in transit.

  lemma HandsStep(s: State, s': State, me: nat)
    requires Inv(s) && me in s'.threads && s'.threads == s.threads[me := s'.threads[me]]
    requires forall a {:trigger InTransit(s'.own[a])} | a in s'.own && InTransit(s'.own[a]) ::
               if s'.own[a].id == me then HoldsSlot(s'.threads[me], a, s'.own[a]) else a in s.own && s.own[a] == s'.own[a]
    requires forall b {:trigger Unfinished(s'.stage[b])} | b in s'.stage && Unfinished(s'.stage[b]) ::
               if s'.stage[b].id == me then HoldsBlock(s'.threads[me], b) else b in s.stage && s.stage[b] == s'.stage[b]
    ensures HandsInv(s'.threads, s'.own, s'.stage)
  {
  }

  lemma AfterHeadInv(s: State, id: nat)
    requires Inv(s) && id in s.threads
    requires forall a, o :: !HoldsSlot(s.threads[id], a, o)
    requires forall b :: !HoldsBlock(s.threads[id], b)
    ensures Inv(Goto(s, id, AfterHead(s.head)))
  {
    if s.head.ptr != 0 {
      assert s.head.ptr == s.stack[|s.stack| - 1];
    }
    GotoInv(s, id, AfterHead(s.head));
  }

  lemma ANextInv(s: State, id: nat, h: Tagged)
    requires Inv(s) && id in s.threads && s.threads[id] == ANext(h)
    ensures h.ptr in s.mem && Inv(Goto(s, id, ACas(h, s.mem[h.ptr])))
  {
    if h == s.head {
      assert s.head.ptr == s.stack[|s.stack| - 1];
    }
    GotoInv(s, id, ACas(h, s.mem[h.ptr]));
  }

  lemma StartDeleteMemory(s: State, id: nat, obj: nat)
    requires Inv(s) && Enabled(s, StartDelete(id, obj))
    ensures MemoryInv(Next(s, StartDelete(id, obj)))
  {
    OwnerChangeKeepsStack(s.mem, s.head, s.own, s.stack, obj, Freeing(id));
    assert s.own[obj := Freeing(id)].Keys == s.own.Keys;
  }

  lemma StartDeleteThreads(s: State, id: nat, obj: nat)
    requires Inv(s) && Enabled(s, StartDelete(id, obj))
    ensures ThreadsInv(Next(s, StartDelete(id, obj)))
  {
    var s' := Next(s, StartDelete(id, obj));
    forall other | other != id && other in s.threads
      ensures Rely(s, s', other)
    {
    }
    ThreadsStep(s, s', id);
  }

  lemma StartDeleteInv(s: State, id: nat, obj: nat)
    requires Inv(s) && Enabled(s, StartDelete(id, obj))
    ensures Inv(Next(s, StartDelete(id, obj)))
  {
    StartDeleteMemory(s, id, obj);
    StartDeleteThreads(s, id, obj);
    HandsStep(s, Next(s, StartDelete(id, obj)), id);
  }

  /** A store to the first word of a slot that is not on the stack. */
  lemma SlotWriteMemory(s: State, s': State, a: nat, v: nat)
    requires Inv(s) && a in s.own && !s.own[a].Pool?
    requires s' == s.(mem := s.mem[a := v], threads := s'.threads)
    ensures MemoryInv(s') && a !in s.stage
  {
    SlotIsNoBlock(s.objSize, s.mem, s.own, s.home, s.stage, a);
    WriteKeepsStack(s.mem, s.head, s.own, s.stack, a, v);
    WriteKeepsBlocks(s.mem, s.current, s.stage, s.blocks, a, v);
  }

  lemma UserWriteInv(s: State, obj: nat, v: nat)
    requires Inv(s) && Enabled(s, UserWrite(obj, v))
    ensures Inv(Next(s, UserWrite(obj, v)))
  {
    var s' := Next(s, UserWrite(obj, v));
    SlotWriteMemory(s, s', obj, v);
    forall id | id in s'.threads
      ensures ThreadInv(s'.head, s'.mem, s'.own, s'.stack, s'.stage, id, s'.threads[id])
    {
      OtherThread(s, s', id);
    }
  }

  lemma SystemAllocMemory(s: State, id: nat, b: nat)
    requires Inv(s) && Enabled(s, SystemAlloc(id, b))
    ensures MemoryInv(Next(s, SystemAlloc(id, b))) && b !in s.own && b !in s.stage
  {
    assert b in s.stage ==> Apart(b, b, BLOCK_SIZE);
    assert b in s.own ==> Inside(b, s.home[b], s.objSize) && Apart(b, s.home[b], BLOCK_SIZE);
    WriteKeepsStack(s.mem, s.head, s.own, s.stack, b, 0);
    NewBlockKeepsBlocks(s.mem, s.current, s.stage, s.blocks, b, id);
  }

  lemma SystemAllocInv(s: State, id: nat, b: nat)
    requires Inv(s) && Enabled(s, SystemAlloc(id, b))
    ensures Inv(Next(s, SystemAlloc(id, b)))
  {
    hide ThreadsInv, StackInv, BlocksInv;
    SystemAllocMemory(s, id, b);
    ThreadsStep(s, Next(s, SystemAlloc(id, b)), id);
    HandsStep(s, Next(s, SystemAlloc(id, b)), id);
  }

  /** The compare-and-swap of `New` installs the slot under the top: `next` was read when the head
      still had this tag, so it is that slot's link and not what a later owner wrote there. */
  lemma PopInstallsSuccessor(s: State, id: nat)
    requires Inv(s) && id in s.threads && s.threads[id].ACas? && s.threads[id].h == s.head
    ensures s.stack != [] && s.head.ptr == s.stack[|s.stack| - 1]
    ensures s.threads[id].next == Below(s.stack, |s.stack| - 1) == s.mem[s.head.ptr]
  {
  }

  lemma PopInv(s: State, id: nat)
    requires Inv(s) && id in s.threads && s.threads[id].ACas? && s.threads[id].h == s.head
    ensures Inv(Next(s, Step(id, false)))
  {
    hide ThreadsInv, StackInv;
    var s' := Next(s, Step(id, false));
    PopInstallsSuccessor(s, id);
    PopKeepsStack(s.mem, s.head, s.own, s.stack, s.head.tag + 1);
    assert s'.own.Keys == s.own.Keys;
    assert MemoryInv(s');
    ThreadsStep(s, s', id);
    HandsStep(s, s', id);
  }

  lemma RLinkBlockInv(s: State, id: nat, b: nat, first: nat)
    requires Inv(s) && id in s.threads && s.threads[id] == RLinkBlock(b, first)
    ensures Inv(Next(s, Step(id, false)))
  {
    hide StackInv, Chain, BlocksApart, Slots;
    var s' := Next(s, Step(id, false));
    assert b !in s.own by {
      if b in s.own { SlotIsNoBlock(s.objSize, s.mem, s.own, s.home, s.stage, b); }
    }
    WriteKeepsStack(s.mem, s.head, s.own, s.stack, b, first);
    WriteKeepsBlocks(s.mem, s.current, s.stage, s.blocks, b, first);
    assert MemoryInv(s');
    ThreadsStep(s, s', id);
    HandsStep(s, s', id);
  }

  lemma RCasBlockInv(s: State, id: nat, b: nat)
    requires Inv(s) && id in s.threads && s.threads[id] == RCasBlock(b, s.current)
    ensures Inv(Next(s, Step(id, false)))
  {
    hide StackInv, BlocksInv;
    var s' := Next(s, Step(id, false));
    ListingKeepsBlocks(s.mem, s.current, s.stage, s.blocks, b, id);
    assert MemoryInv(s');
    ThreadsStep(s, s', id);
    HandsStep(s, s', id);
  }

  lemma RCarveMemory(s: State, id: nat, b: nat)
    requires Inv(s) && id in s.threads && s.threads[id] == RCarve(b)
    ensures MemoryInv(Next(s, Step(id, false)))
  {
    var slots := Slots(b, s.align, s.objSize);
    SlotsAreNew(s.objSize, s.align, s.mem, s.own, s.home, s.stage, b);
    CarveKeepsStack(s.mem, s.head, s.own, s.stack, s.objSize, s.stage, b, slots, id);
    CarveKeepsBlocks(s.mem, s.current, s.stage, s.blocks, s.objSize, s.own, b, slots);
    CarveKeepsSlots(s.objSize, s.mem, s.own, s.home, s.stage, b, slots, id);
  }

  lemma CarvedFacts(mem: map<nat, nat>, own: map<nat, Owner>, stage: map<nat, Stage>, objSize: nat, b: nat, slots: seq<nat>, id: nat)
    requires NewSlots(objSize, own, stage, b, slots) && objSize > 0
    ensures var mem', own' := Linked(mem, slots), CarveOwners(own, slots, id);
            && Extends(mem, mem', own, own', stage)
            && (forall i: nat | i < |slots| :: slots[i] > 0 && slots[i] in own' && own'[slots[i]] == Carving(id, i)
                                               && slots[i] in mem' && mem'[slots[i]] == Below(slots, i))
            && (forall a | a in own' && a !in own :: own'[a].Carving? && own'[a].id == id
                                                     && own'[a].i < |slots| && slots[own'[a].i] == a)
  {
    LinkedFacts(mem, slots, own.Keys + stage.Keys);
    CarveOwnersFacts(own, slots, id);
  }

  /** New slots may have been added; the words and owners of the old ones are as they were. */
  ghost predicate Extends(mem: map<nat, nat>, mem': map<nat, nat>, own: map<nat, Owner>, own': map<nat, Owner>, stage: map<nat, Stage>) {
    && own.Keys <= own'.Keys && mem.Keys <= mem'.Keys
    && (forall a | a in own :: own'[a] == own[a])
    && (forall a | a in mem && (a in own || a in stage) :: mem'[a] == mem[a])
  }

  lemma RCarveThreads(s: State, s': State, id: nat, b: nat, slots: seq<nat>)
    requires Inv(s) && id in s.threads && s.threads[id] == RCarve(b)
    requires s'.head == s.head && s'.stack == s.stack
    requires s'.threads == s.threads[id := if slots == [] then ALoad else RLoad(slots)]
    requires b in s.stage && s.stage[b].Listed? && s'.stage == s.stage[b := Carved(s.stage[b].k)]
    requires Extends(s.mem, s'.mem, s.own, s'.own, s.stage)
    requires slots != [] ==> Private(s'.mem, s'.own, id, slots)
    ensures ThreadsInv(s')
  {
    ThreadsStep(s, s', id);
  }

  lemma RCarveHands(s: State, s': State, id: nat, b: nat, slots: seq<nat>)
    requires Inv(s) && id in s.threads && s.threads[id] == RCarve(b)
    requires s'.threads == s.threads[id := if slots == [] then ALoad else RLoad(slots)]
    requires b in s.stage && s.stage[b].Listed? && s'.stage == s.stage[b := Carved(s.stage[b].k)]
    requires Extends(s.mem, s'.mem, s.own, s'.own, s.stage)
    requires forall a | a in s'.own && a !in s.own :: s'.own[a].Carving? && s'.own[a].id == id
                                                      && s'.own[a].i < |slots| && slots[s'.own[a].i] == a
    ensures HandsInv(s'.threads, s'.own, s'.stage)
  {
    HandsStep(s, s', id);
  }

  lemma RCarveInv(s: State, id: nat, b: nat)
    requires Inv(s) && id in s.threads && s.threads[id] == RCarve(b)
    ensures Inv(Next(s, Step(id, false)))
  {
    hide StackInv, SlotsInv, Listing;
    var s', slots := Next(s, Step(id, false)), Slots(b, s.align, s.objSize);
    RCarveMemory(s, id, b);
    SlotsAreNew(s.objSize, s.align, s.mem, s.own, s.home, s.stage, b);
    CarvedFacts(s.mem, s.own, s.stage, s.objSize, b, slots, id);
    RCarveThreads(s, s', id, b, slots);
    RCarveHands(s, s', id, b, slots);
  }

  lemma RLinkInv(s: State, id: nat, slots: seq<nat>, h: Tagged)
    requires Inv(s) && id in s.threads && s.threads[id] == RLink(slots, h)
    ensures Inv(Next(s, Step(id, false)))
  {
    hide StackInv, BlocksInv;
    var s' := Next(s, Step(id, false));
    SlotWriteMemory(s, s', slots[0], h.ptr);
    ThreadsStep(s, s', id);
    HandsStep(s, s', id);
  }

  lemma HeldCarvings(s: State, id: nat, slots: seq<nat>, h: Tagged)
    requires Inv(s) && id in s.threads && s.threads[id] == RCas(slots, h)
    ensures forall a {:trigger s.own[a].Carving?} | a in s.own && s.own[a].Carving? && s.own[a].id == id :: s.own[a].i < |slots| && slots[s.own[a].i] == a
  {
    assert forall a | a in s.own && s.own[a].Carving? && s.own[a].id == id :: InTransit(s.own[a]);
  }

  lemma PoolOwnersKeys(own: map<nat, Owner>, id: nat, height: nat)
    ensures PoolOwners(own, id, height).Keys == own.Keys
  {
  }

  /** The state after thread `id` has pushed its private list. */
  function Pushed(s: State, id: nat, slots: seq<nat>): State
    requires slots != []
  {
    Goto(s, id, ALoad).(head := Tagged(slots[|slots| - 1], s.head.tag + 1),
                        own := PoolOwners(s.own, id, |s.stack|), stack := s.stack + slots)
  }

  lemma RCasIsPushed(s: State, id: nat, slots: seq<nat>)
    requires s.objSize > 0 && s.align > 0 && id in s.threads && s.threads[id] == RCas(slots, s.head) && slots != []
    ensures Next(s, Step(id, false)) == Pushed(s, id, slots)
  {
  }

  lemma PushedMemory(s: State, id: nat, slots: seq<nat>)
    requires MemoryInv(s) && slots != [] && Private(s.mem, s.own, id, slots) && s.mem[slots[0]] == s.head.ptr
    requires forall a {:trigger s.own[a].Carving?} | a in s.own && s.own[a].Carving? && s.own[a].id == id ::
               s.own[a].i < |slots| && slots[s.own[a].i] == a
    ensures MemoryInv(Pushed(s, id, slots))
  {
    PushAllKeepsStack(s.mem, s.head, s.own, s.stack, id, slots, s.head.tag + 1);
    PoolOwnersKeys(s.own, id, |s.stack|);
  }

  lemma PushedThreads(s: State, id: nat, slots: seq<nat>)
    requires Inv(s) && id in s.threads && s.threads[id] == RCas(slots, s.head) && slots != []
    ensures ThreadsInv(Pushed(s, id, slots))
  {
    PoolOwnersKeys(s.own, id, |s.stack|);
    ThreadsStep(s, Pushed(s, id, slots), id);
  }

  lemma PushedHands(s: State, id: nat, slots: seq<nat>)
    requires Inv(s) && id in s.threads && s.threads[id] == RCas(slots, s.head) && slots != []
    ensures var s' := Pushed(s, id, slots); HandsInv(s'.threads, s'.own, s'.stage)
  {
    HandsStep(s, Pushed(s, id, slots), id);
  }

  lemma RCasInv(s: State, id: nat, slots: seq<nat>)
    requires Inv(s) && id in s.threads && s.threads[id] == RCas(slots, s.head)
    ensures Inv(Next(s, Step(id, false)))
  {
    RCasIsPushed(s, id, slots);
    HeldCarvings(s, id, slots, s.head);
    PushedMemory(s, id, slots);
    PushedThreads(s, id, slots);
    PushedHands(s, id, slots);
  }

  lemma FSetThreads(s: State, id: nat, obj: nat, h: Tagged)
    requires Inv(s) && id in s.threads && s.threads[id] == FSet(obj, h) && obj !in s.stage
    ensures ThreadsInv(Next(s, Step(id, false)))
  {
    var s' := Next(s, Step(id, false));
    forall other | other != id && other in s.threads
      ensures Rely(s, s', other)
    {
    }
    ThreadsStep(s, s', id);
  }

  lemma FSetInv(s: State, id: nat, obj: nat, h: Tagged)
    requires Inv(s) && id in s.threads && s.threads[id] == FSet(obj, h)
    ensures Inv(Next(s, Step(id, false)))
  {
    hide StackInv, BlocksInv;
    SlotWriteMemory(s, Next(s, Step(id, false)), obj, h.ptr);
    FSetThreads(s, id, obj, h);
    HandsStep(s, Next(s, Step(id, false)), id);
  }

  lemma FCasInv(s: State, id: nat, obj: nat)
    requires Inv(s) && id in s.threads && s.threads[id] == FCas(obj, s.head)
    ensures Inv(Next(s, Step(id, false)))
  {
    hide StackInv, BlocksInv;
    var s' := Next(s, Step(id, false));
    PushKeepsStack(s.mem, s.head, s.own, s.stack, obj, s.head.tag + 1);
    assert s'.own.Keys == s.own.Keys;
    assert MemoryInv(s');
    ThreadsStep(s, s', id);
    HandsStep(s, s', id);
  }

  lemma NewStepInv(s: State, id: nat, spurious: bool)
    requires Inv(s) && Enabled(s, Step(id, spurious))
    requires s.threads[id].ALoad? || s.threads[id].ANext? || s.threads[id].ACas?
    ensures Inv(Next(s, Step(id, spurious)))
  {
    match s.threads[id] {
      case ALoad => AfterHeadInv(s, id);
      case ANext(h) => ANextInv(s, id, h);
      case ACas(h, next) =>
        if s.head != h || spurious { AfterHeadInv(s, id); } else { PopInv(s, id); }
    }
  }

  lemma BlockStepInv(s: State, id: nat, spurious: bool)
    requires Inv(s) && Enabled(s, Step(id, spurious))
    requires s.threads[id].RLoadBlock? || s.threads[id].RLinkBlock? || s.threads[id].RCasBlock?
    ensures Inv(Next(s, Step(id, spurious)))
  {
    match s.threads[id] {
      case RLoadBlock(b) => GotoInv(s, id, RLinkBlock(b, s.current));
      case RLinkBlock(b, first) => RLinkBlockInv(s, id, b, first);
      case RCasBlock(b, first) =>
        if s.current != first || spurious { GotoInv(s, id, RLinkBlock(b, s.current)); } else { RCasBlockInv(s, id, b); }
    }
  }

  lemma RetryPush(s: State, id: nat, slots: seq<nat>)
    requires Inv(s) && id in s.threads
    requires s.threads[id] == RLoad(slots) || (s.threads[id].RCas? && s.threads[id].slots == slots)
    ensures Inv(Goto(s, id, RLink(slots, s.head)))
  {
    GotoInv(s, id, RLink(slots, s.head));
  }

  lemma RetryDelete(s: State, id: nat, obj: nat)
    requires Inv(s) && id in s.threads
    requires s.threads[id] == FLoad(obj) || (s.threads[id].FCas? && s.threads[id].obj == obj)
    ensures Inv(Goto(s, id, FSet(obj, s.head)))
  {
    GotoInv(s, id, FSet(obj, s.head));
  }

  /** Where a step that only changes the thread's local state leads. */
  lemma LocalSteps(s: State, id: nat, spurious: bool)
    requires s.objSize > 0 && s.align > 0 && Enabled(s, Step(id, spurious))
    ensures var pc, s' := s.threads[id], Next(s, Step(id, spurious));
            && (pc.RLoad? ==> s' == Goto(s, id, RLink(pc.slots, s.head)))
            && (pc.RCas? && pc.slots != [] && (s.head != pc.h || spurious) ==> s' == Goto(s, id, RLink(pc.slots, s.head)))
            && (pc.FLoad? || (pc.FCas? && (s.head != pc.h || spurious)) ==> s' == Goto(s, id, FSet(pc.obj, s.head)))
  {
  }

  lemma StepInv(s: State, id: nat, spurious: bool)
    requires Inv(s) && Enabled(s, Step(id, spurious))
    requires !s.threads[id].ALoad? && !s.threads[id].ANext? && !s.threads[id].ACas?
    requires !s.threads[id].RLoadBlock? && !s.threads[id].RLinkBlock? && !s.threads[id].RCasBlock?
    ensures Inv(Next(s, Step(id, spurious)))
  {
    hide HandsInv, ThreadsInv, StackInv, BlocksInv, FirstSlot;
    LocalSteps(s, id, spurious);
    match s.threads[id] {
      case RCarve(b) => RCarveInv(s, id, b);
      case RLoad(slots) => RetryPush(s, id, slots);
      case RLink(slots, h) => RLinkInv(s, id, slots, h);
      case RCas(slots, h) =>
        HeldSlots(s, id);
        if s.head != h || spurious { RetryPush(s, id, slots); } else { RCasInv(s, id, slots); }
      case FLoad(obj) => RetryDelete(s, id, obj);
      case FSet(obj, h) => FSetInv(s, id, obj, h);
      case FCas(obj, h) =>
        if s.head != h || spurious { RetryDelete(s, id, obj); } else { FCasInv(s, id, obj); }
    }
  }

  lemma HeldSlots(s: State, id: nat)
    requires Inv(s) && id in s.threads && s.threads[id].RCas?
    ensures s.threads[id].slots != []
  {
  }

  lemma NextInv(s: State, e: Event)
    requires Inv(s) && Enabled(s, e)
    ensures Inv(Next(s, e))
  {
    match e
    case StartNew(id) => GotoInv(s, id, ALoad);
    case StartDelete(id, obj) => StartDeleteInv(s, id, obj);
    case UserWrite(obj, v) => UserWriteInv(s, obj, v);
    case SystemAlloc(id, b) => SystemAllocInv(s, id, b);
    case Step(id, spurious) =>
      match s.threads[id] {
        case ALoad => NewStepInv(s, id, spurious);
        case ANext(_) => NewStepInv(s, id, spurious);
        case ACas(_, _) => NewStepInv(s, id, spurious);
        case RLoadBlock(_) => BlockStepInv(s, id, spurious);
        case RLinkBlock(_, _) => BlockStepInv(s, id, spurious);
        case RCasBlock(_, _) => BlockStepInv(s, id, spurious);
        case _ => StepInv(s, id, spurious);
      }
  }

  // ---------------------------------------------------------------- what every run guarantees

  /** A run: the states visited and the events between them, interleaved in any way. */
  ghost predicate IsRun(run: seq<State>, events: seq<Event>) {
    && |run| == |events| + 1
    && Init(run[0])
    && forall i | 0 <= i < |events| :: run[i].objSize > 0 && run[i].align > 0 && Enabled(run[i], events[i]) && run[i + 1] == Next(run[i], events[i])
  }

  lemma {:induction false} RunInv(run: seq<State>, events: seq<Event>, i: nat)
    requires IsRun(run, events) && i < |run|
    ensures Inv(run[i])
  {
    if i == 0 {
      InitInv(run[0]);
    } else {
      RunInv(run, events, i - 1);
      NextInv(run[i - 1], events[i - 1]);
    }
  }

  /** The slot that event `e` makes `New` return, if it does. */
  predicate HandsOut(s: State, e: Event, a: nat) {
    && e.Step? && !e.spurious && e.id in s.threads && s.threads[e.id].ACas?
    && s.threads[e.id].h == s.head && s.head.ptr == a
  }

  predicate UserHas(s: State, a: nat) { a in s.own && s.own[a] == User }

  lemma CarveNext(s: State, id: nat)
    requires s.objSize > 0 && s.align > 0 && id in s.threads && s.threads[id].RCarve?
    requires var b := s.threads[id].b; b in s.stage && s.stage[b].Listed?
    ensures var s', b := Next(s, Step(id, false)), s.threads[id].b;
            && s'.own == CarveOwners(s.own, Slots(b, s.align, s.objSize), id)
            && s'.stage == s.stage[b := Carved(s.stage[b].k)] && s'.align == s.align && s'.objSize == s.objSize
  {
  }

  lemma CarvingIsListed(s: State, id: nat)
    requires ThreadsInv(s) && id in s.threads && s.threads[id].RCarve?
    ensures var b := s.threads[id].b; b in s.stage && s.stage[b].Listed?
  {
  }

  lemma CarveStep(s: State, id: nat)
    requires Inv(s) && id in s.threads && s.threads[id].RCarve?
    ensures var s', b := Next(s, Step(id, false)), s.threads[id].b;
            && s.own.Keys <= s'.own.Keys && (forall a | a in s.own :: s'.own[a] == s.own[a])
            && SlotsIn(Slots(b, s.align, s.objSize), s'.own)
            && s'.stage.Keys == s.stage.Keys && (forall b' | b' in s.stage && b' != b :: s'.stage[b'] == s.stage[b'])
            && s'.align == s.align && s'.objSize == s.objSize
  {
    hide StackInv, HandsInv, ThreadsInv;
    var b := s.threads[id].b;
    CarvingIsListed(s, id);
    CarveNext(s, id);
    SlotsAreNew(s.objSize, s.align, s.mem, s.own, s.home, s.stage, b);
    CarveOwnersFacts(s.own, Slots(b, s.align, s.objSize), id);
  }

  /** What a thread that is about to put slots on the stack owns: never the user's slots. */
  lemma DeleterOwns(s: State, id: nat)
    requires ThreadsInv(s) && id in s.threads && s.threads[id].FCas?
    ensures s.threads[id].obj in s.own && s.own[s.threads[id].obj] == Freeing(id)
  {
  }

  /** The owners after a step, as a change to the owners before it. */
  lemma OwnersStep(s: State, e: Event)
    requires s.objSize > 0 && s.align > 0 && Enabled(s, e) && !(e.Step? && s.threads[e.id].RCarve?)
    ensures var own' := Next(s, e).own;
            || own' == s.own
            || (e.StartDelete? && own' == s.own[e.obj := Freeing(e.id)])
            || (e.Step? && s.threads[e.id].ACas? && own' == s.own[s.threads[e.id].h.ptr := User])
            || (e.Step? && s.threads[e.id].RCas? && own' == PoolOwners(s.own, e.id, |s.stack|))
            || (e.Step? && s.threads[e.id].FCas? && own' == s.own[s.threads[e.id].obj := Pool(|s.stack|)])
  {
    match e
    case Step(id, spurious) =>
      match s.threads[id] {
        case ALoad =>
        case ANext(_) =>
        case ACas(_, _) =>
        case RLoadBlock(_) =>
        case RLinkBlock(_, _) =>
        case RCasBlock(_, _) =>
        case RLoad(_) =>
        case RLink(_, _) =>
        case RCas(_, _) =>
        case _ =>
      }
    case _ =>
  }

  lemma UserKeeps(s: State, e: Event, a: nat)
    requires Inv(s) && Enabled(s, e) && UserHas(s, a)
    ensures UserHas(Next(s, e), a) || (e.StartDelete? && e.obj == a)
  {
    hide StackInv;
    if e.Step? && s.threads[e.id].RCarve? {
      CarveStep(s, e.id);
    } else {
      OwnersStep(s, e);
      if e.Step? && s.threads[e.id].FCas? {
        DeleterOwns(s, e.id);
      }
    }
  }

  lemma {:induction false} UserKeepsUntilDelete(run: seq<State>, events: seq<Event>, i: nat, j: nat, a: nat)
    requires IsRun(run, events) && i <= j < |run| && UserHas(run[i], a)
    requires forall k | i <= k < j :: !(events[k].StartDelete? && events[k].obj == a)
    ensures UserHas(run[j], a)
    decreases j - i
  {
    if i < j {
      RunInv(run, events, i);
      UserKeeps(run[i], events[i], a);
      UserKeepsUntilDelete(run, events, i + 1, j, a);
    }
  }

  /** A slot that `New` returns is free, and `New` never returns it again before it is deleted. */
  lemma NeverHandedOutTwice(run: seq<State>, events: seq<Event>, i: nat, j: nat, a: nat)
    requires IsRun(run, events) && i < j < |events| && HandsOut(run[i], events[i], a) && HandsOut(run[j], events[j], a)
    ensures exists k :: i < k < j && events[k].StartDelete? && events[k].obj == a
  {
    RunInv(run, events, i);
    RunInv(run, events, j);
    HandedOut(run[i], events[i], a);
    HandedOut(run[j], events[j], a);
    if forall k | i + 1 <= k < j :: !(events[k].StartDelete? && events[k].obj == a) {
      UserKeepsUntilDelete(run, events, i + 1, j, a);
      assert false;
    }
  }

  lemma HandedOut(s: State, e: Event, a: nat)
    requires Inv(s) && Enabled(s, e) && HandsOut(s, e, a)
    ensures !UserHas(s, a) && UserHas(Next(s, e), a)
  {
    PopInstallsSuccessor(s, e.id);
  }

  /** The free list: following the links from `head` visits each slot of the pool once and ends. */
  lemma FreeListIsAcyclic(run: seq<State>, events: seq<Event>, k: nat)
    requires IsRun(run, events) && k < |run|
    ensures var s := run[k];
            && Chain(s.mem, s.head.ptr, s.stack)
            && (forall i, j | 0 <= i < j < |s.stack| :: s.stack[i] != s.stack[j])
            && (forall a :: a in s.stack <==> a in s.own && s.own[a].Pool?)
  {
    RunInv(run, events, k);
    var s := run[k];
    forall a
      ensures a in s.stack <==> a in s.own && s.own[a].Pool?
    {
      if a in s.own && s.own[a].Pool? {
        assert InPool(s.own[a]) && s.stack[s.own[a].i] == a;
      }
    }
    forall i, j | 0 <= i < j < |s.stack|
      ensures s.stack[i] != s.stack[j]
    {
      assert s.own[s.stack[i]] == Pool(i) && s.own[s.stack[j]] == Pool(j);
    }
  }

  ghost predicate AllCarved(s: State) {
    s.objSize > 0 && s.align > 0 && forall b | b in s.stage && s.stage[b].Carved? :: SlotsIn(Slots(b, s.align, s.objSize), s.own)
  }

  ghost predicate SlotsIn(slots: seq<nat>, own: map<nat, Owner>) { forall i | 0 <= i < |slots| :: slots[i] in own }

  lemma OwnersGrow(s: State, e: Event)
    requires s.objSize > 0 && s.align > 0 && Enabled(s, e) && !(e.Step? && s.threads[e.id].RCarve?)
    ensures Next(s, e).own.Keys >= s.own.Keys
  {
    OwnersStep(s, e);
    if e.Step? && s.threads[e.id].RCas? {
      PoolOwnersKeys(s.own, e.id, |s.stack|);
    }
  }

  lemma StageStep(s: State, e: Event)
    requires s.objSize > 0 && s.align > 0 && Enabled(s, e) && !(e.Step? && s.threads[e.id].RCarve?)
    ensures var s' := Next(s, e);
            && s'.align == s.align && s'.objSize == s.objSize
            && (|| s'.stage == s.stage
                || (e.SystemAlloc? && s'.stage == s.stage[e.b := Fresh(e.id)])
                || (e.Step? && s.threads[e.id].RCasBlock? && s'.stage == s.stage[s.threads[e.id].b := Listed(e.id, |s.blocks|)]))
  {
    match e
    case Step(id, spurious) =>
      match s.threads[id] {
        case ALoad =>
        case ANext(_) =>
        case ACas(_, _) =>
        case RLoadBlock(_) =>
        case RLinkBlock(_, _) =>
        case RCasBlock(_, _) =>
        case RLoad(_) =>
        case RLink(_, _) =>
        case RCas(_, _) =>
        case _ =>
      }
    case _ =>
  }

  lemma AllCarvedKept(s: State, e: Event)
    requires Inv(s) && Enabled(s, e) && AllCarved(s)
    ensures AllCarved(Next(s, e))
  {
    if e.Step? && s.threads[e.id].RCarve? {
      CarveStep(s, e.id);
    } else {
      StageStep(s, e);
      OwnersGrow(s, e);
    }
  }

  lemma {:induction false} RunCarvesAll(run: seq<State>, events: seq<Event>, k: nat)
    requires IsRun(run, events) && k < |run|
    ensures AllCarved(run[k])
  {
    hide Inv;
    if k > 0 {
      RunCarvesAll(run, events, k - 1);
      RunInv(run, events, k - 1);
      AllCarvedKept(run[k - 1], events[k - 1]);
    }
  }

  /** No slot is ever lost: each slot of each carved block is on the stack, with the user, or in the
      hands of one thread in the middle of `Delete` or `Refill`. Slots lie inside their blocks and
      neither slots nor blocks overlap. */
  lemma SlotsAreConserved(run: seq<State>, events: seq<Event>, k: nat)
    requires IsRun(run, events) && k < |run|
    ensures var s := run[k];
            && AllCarved(s) && s.own.Keys == s.home.Keys
            && (forall a | a in s.own :: Whereabouts(s, a))
            && (forall a | a in s.own :: s.home[a] in s.stage && Inside(a, s.home[a], s.objSize))
            && SlotsApart(s.objSize, s.own.Keys) && BlocksApart(s.stage)
  {
    RunInv(run, events, k);
    RunCarvesAll(run, events, k);
    forall a | a in run[k].own
      ensures Whereabouts(run[k], a)
    {
      SlotIsSomewhere(run[k], a);
    }
  }

  ghost predicate Whereabouts(s: State, a: nat)
    requires a in s.own
  {
    || a in s.stack
    || UserHas(s, a)
    || (InTransit(s.own[a]) && s.own[a].id in s.threads && HoldsSlot(s.threads[s.own[a].id], a, s.own[a]))
  }

  lemma SlotIsSomewhere(s: State, a: nat)
    requires Inv(s) && a in s.own
    ensures Whereabouts(s, a)
  {
    if InPool(s.own[a]) {
      assert s.stack[s.own[a].i] == a;
    } else if InTransit(s.own[a]) {
      assert HoldsSlot(s.threads[s.own[a].id], a, s.own[a]);
    } else {
      assert UserHas(s, a);
    }
  }

  /** Once every thread is idle, the list the destructor walks is exactly the blocks obtained. */
  lemma DestructorFreesEveryBlock(run: seq<State>, events: seq<Event>, k: nat)
    requires IsRun(run, events) && k < |run| && forall id | id in run[k].threads :: run[k].threads[id].Idle?
    ensures var s := run[k];
            && Chain(s.mem, s.current, s.blocks)
            && (forall i, j | 0 <= i < j < |s.blocks| :: s.blocks[i] != s.blocks[j])
            && (forall b :: b in s.blocks <==> b in s.stage)
  {
    RunInv(run, events, k);
    var s := run[k];
    forall b
      ensures b in s.blocks <==> b in s.stage
    {
      if b in s.stage {
        assert !Unfinished(s.stage[b]) && Published(s.stage[b]) && s.blocks[s.stage[b].k] == b;
      }
    }
    forall i, j | 0 <= i < j < |s.blocks|
      ensures s.blocks[i] != s.blocks[j]
    {
      assert OnList(s.stage[s.blocks[i]], i) && OnList(s.stage[s.blocks[j]], j);
    }
  }

  // ---------------------------------------------------------------- what an operation achieves

  /** `n` steps of a thread that nobody disturbs. */
  function Alone(s: State, id: nat, n: nat): State
    decreases n
  {
    if n == 0 || s.objSize == 0 || s.align == 0 || !Enabled(s, Step(id, false)) then s
    else Alone(Next(s, Step(id, false)), id, n - 1)
  }

  lemma AloneOnce(s: State, id: nat)
    requires s.objSize > 0 && s.align > 0 && Enabled(s, Step(id, false))
    ensures Alone(s, id, 1) == Next(s, Step(id, false))
  {
    assert Alone(Next(s, Step(id, false)), id, 0) == Next(s, Step(id, false));
  }

  lemma AloneInv(s: State, id: nat, n: nat)
    requires Inv(s)
    ensures Inv(Alone(s, id, n))
    decreases n
  {
    hide StackInv, BlocksInv, SlotsInv, ThreadsInv, HandsInv, Next;
    if n > 0 && Enabled(s, Step(id, false)) {
      NextInv(s, Step(id, false));
        AloneInv(Next(s, Step(id, false)), id, n - 1);
    }
  }

  lemma AloneTwice(s: State, id: nat, m: nat, n: nat)
    requires Inv(s)
    ensures Inv(Alone(s, id, m))
    ensures Alone(s, id, m + n) == Alone(Alone(s, id, m), id, n)
    decreases m
  {
    hide StackInv, BlocksInv, SlotsInv, ThreadsInv, HandsInv, Next;
    AloneInv(s, id, m);
    if m > 0 && Enabled(s, Step(id, false)) {
      NextInv(s, Step(id, false));
        AloneTwice(Next(s, Step(id, false)), id, m - 1, n);
    }
  }

  /** The head names the top of the stack, and null exactly if the stack is empty. */
  lemma HeadIsTop(s: State)
    requires Inv(s)
    ensures s.head.ptr == Below(s.stack, |s.stack|) && (s.head.ptr == 0 <==> s.stack == [])
    ensures s.stack != [] ==> s.head.ptr in s.own && s.own[s.head.ptr] == Pool(|s.stack| - 1) && s.head.ptr in s.mem
                              && s.mem[s.head.ptr] == Below(s.stack, |s.stack| - 1)
  {
  }

  /** An undisturbed `New` on a non-empty stack hands out its top slot. */
  lemma NewServesTop(s: State, id: nat)
    requires Inv(s) && Enabled(s, StartNew(id)) && s.stack != []
    ensures var n := |s.stack|;
            && s.stack[n - 1] in s.own
            && Alone(Next(s, StartNew(id)), id, 3)
               == s.(head := Tagged(Below(s.stack, n - 1), s.head.tag + 1), own := s.own[s.stack[n - 1] := User], stack := s.stack[..n - 1])
  {
    hide BlocksInv, SlotsInv, HandsInv, StackInv, ThreadsInv, Alone;
    HeadIsTop(s);
    NextInv(s, StartNew(id));
    LoadsTop(Next(s, StartNew(id)), id);
    assert s.threads[id := ALoad][id := Idle] == s.threads;
  }

  lemma LoadsTop(s: State, id: nat)
    requires Inv(s) && id in s.threads && s.threads[id].ALoad? && s.stack != []
    ensures Alone(s, id, 3) == s.(head := Tagged(Below(s.stack, |s.stack| - 1), s.head.tag + 1), own := s.own[s.head.ptr := User],
                                  stack := s.stack[..|s.stack| - 1], threads := s.threads[id := Idle])
  {
    hide BlocksInv, SlotsInv, HandsInv, StackInv, ThreadsInv, Alone, Slots, Linked, CarveOwners, PoolOwners;
    HeadIsTop(s);
    AloneOnce(s, id);
    var s1 := Next(s, Step(id, false));
    assert s1 == Goto(s, id, ANext(s.head));
    AloneTwice(s, id, 1, 2);
    AloneOnce(s1, id);
    var s2 := Next(s1, Step(id, false));
    assert s2 == Goto(s1, id, ACas(s.head, s.mem[s.head.ptr]));
    AloneTwice(s1, id, 1, 1);
    AloneOnce(s2, id);
    assert s.threads[id := ANext(s.head)][id := ACas(s.head, s.mem[s.head.ptr])][id := Idle] == s.threads[id := Idle];
  }

  /** An undisturbed `Delete` puts the slot on top. */
  lemma DeletePutsOnTop(s: State, id: nat, obj: nat)
    requires Inv(s) && Enabled(s, StartDelete(id, obj))
    ensures Alone(Next(s, StartDelete(id, obj)), id, 3)
            == s.(head := Tagged(obj, s.head.tag + 1), own := s.own[obj := Pool(|s.stack|)], stack := s.stack + [obj],
                  mem := s.mem[obj := s.head.ptr])
  {
    hide BlocksInv, SlotsInv, HandsInv, StackInv, ThreadsInv, Alone, Slots, Linked, CarveOwners, PoolOwners;
    NextInv(s, StartDelete(id, obj));
    var s0 := Next(s, StartDelete(id, obj));
    AloneOnce(s0, id);
    AloneTwice(s0, id, 1, 2);
    var s1 := Next(s0, Step(id, false));
    AloneOnce(s1, id);
    AloneTwice(s1, id, 1, 1);
    var s2 := Next(s1, Step(id, false));
    AloneOnce(s2, id);
    assert Next(s2, Step(id, false)).threads == s.threads;
    assert Next(s2, Step(id, false)).own == s.own[obj := Pool(|s.stack|)];
  }

  /** From the block that the system gave to the list of blocks. */
  lemma BlockIsListed(s: State, id: nat, b: nat)
    requires Inv(s) && id in s.threads && s.threads[id] == RLoadBlock(b)
    ensures var s' := Alone(s, id, 3);
            && s' == s.(mem := s.mem[b := s.current], current := b, blocks := s.blocks + [b], stage := s'.stage,
                        threads := s.threads[id := RCarve(b)])
  {
    hide BlocksInv, SlotsInv, HandsInv, StackInv, ThreadsInv, Alone, Slots, Linked, CarveOwners, PoolOwners;
    AloneOnce(s, id);
    AloneTwice(s, id, 1, 2);
    var s1 := Next(s, Step(id, false));
    AloneOnce(s1, id);
    AloneTwice(s1, id, 1, 1);
    var s2 := Next(s1, Step(id, false));
    AloneOnce(s2, id);
    assert Next(s2, Step(id, false)).threads == s.threads[id := RCarve(b)];
  }

  /** From the freshly carved slots to the stack. */
  lemma SlotsArePushed(s: State, id: nat, slots: seq<nat>)
    requires Inv(s) && id in s.threads && s.threads[id] == RLoad(slots)
    ensures var s' := Alone(s, id, 3);
            && slots != [] && s'.stack == s.stack + slots && s'.threads == s.threads[id := ALoad]
            && s'.blocks == s.blocks && s'.current == s.current && s'.head.ptr == slots[|slots| - 1]
  {
    hide BlocksInv, SlotsInv, HandsInv, StackInv, ThreadInv, Alone, Slots, Linked, CarveOwners, PoolOwners, AfterHead;
    AloneOnce(s, id);
    AloneTwice(s, id, 1, 2);
    assert Next(s, Step(id, false)) == Goto(s, id, RLink(slots, s.head));
    LinkedSlotsArePushed(Goto(s, id, RLink(slots, s.head)), id, slots);
    assert s.threads[id := RLink(slots, s.head)][id := ALoad] == s.threads[id := ALoad];
  }

  lemma LinkedSlotsArePushed(s: State, id: nat, slots: seq<nat>)
    requires Inv(s) && id in s.threads && s.threads[id] == RLink(slots, s.head)
    ensures var s' := Alone(s, id, 2);
            && slots != [] && s'.stack == s.stack + slots && s'.threads == s.threads[id := ALoad]
            && s'.blocks == s.blocks && s'.current == s.current && s'.head.ptr == slots[|slots| - 1]
  {
    hide BlocksInv, SlotsInv, HandsInv, StackInv, Alone, Slots, Linked, CarveOwners, PoolOwners, AfterHead;
    assert ThreadInv(s.head, s.mem, s.own, s.stack, s.stage, id, s.threads[id]);
    AloneOnce(s, id);
    AloneTwice(s, id, 1, 1);
    var s1 := Goto(s, id, RCas(slots, s.head)).(mem := s.mem[slots[0] := s.head.ptr]);
    assert Next(s, Step(id, false)) == s1;
    SlotsAreSwappedIn(s1, id, slots);
    assert s.threads[id := RCas(slots, s.head)][id := ALoad] == s.threads[id := ALoad];
  }

  lemma SlotsAreSwappedIn(s: State, id: nat, slots: seq<nat>)
    requires s.objSize > 0 && s.align > 0 && slots != [] && id in s.threads && s.threads[id] == RCas(slots, s.head)
    ensures var s' := Alone(s, id, 1);
            && s'.stack == s.stack + slots && s'.threads == s.threads[id := ALoad]
            && s'.blocks == s.blocks && s'.current == s.current && s'.head.ptr == slots[|slots| - 1]
  {
    hide Alone, Slots, Linked, CarveOwners, PoolOwners, AfterHead;
    AloneOnce(s, id);
  }

  /** An undisturbed `Refill` puts all slots of the new block on the stack and the block on the list. */
  lemma CarvesSlots(s: State, id: nat, b: nat)
    requires s.objSize > 0 && s.align > 0 && id in s.threads && s.threads[id] == RCarve(b) && Slots(b, s.align, s.objSize) != []
    ensures var s' := Alone(s, id, 1);
            && s'.threads == s.threads[id := RLoad(Slots(b, s.align, s.objSize))] && s'.stack == s.stack
            && s'.blocks == s.blocks && s'.current == s.current
  {
    hide Alone, Slots, Linked, CarveOwners, PoolOwners;
    AloneOnce(s, id);
  }

  lemma RefillPushesAll(s: State, id: nat, b: nat)
    requires Inv(s) && Enabled(s, SystemAlloc(id, b)) && Slots(b, s.align, s.objSize) != []
    ensures var s', slots := Alone(Next(s, SystemAlloc(id, b)), id, 7), Slots(b, s.align, s.objSize);
            && s'.threads == s.threads[id := ALoad] && s'.stack == s.stack + slots && s'.head.ptr == slots[|slots| - 1]
            && s'.blocks == s.blocks + [b] && s'.current == b
  {
    hide BlocksInv, SlotsInv, HandsInv, StackInv, ThreadsInv, Alone, Slots, Linked, CarveOwners, PoolOwners;
    NextInv(s, SystemAlloc(id, b));
    var s1 := Next(s, SystemAlloc(id, b));
    BlockIsListed(s1, id, b);
    AloneTwice(s1, id, 3, 4);
    var s4 := Alone(s1, id, 3);
    CarvesSlots(s4, id, b);
    AloneTwice(s4, id, 1, 3);
    SlotsArePushed(Alone(s4, id, 1), id, Slots(b, s.align, s.objSize));
    assert Alone(s1, id, 7).threads == s.threads[id := ALoad];
  }

  function PcOf(s: State, id: nat): Pc { if id in s.threads then s.threads[id] else Idle }

  /** Where a step of `New` or `Delete` can lead: out of it only by a successful exchange, to the system only from
      a look at the head. */
  lemma WhereStepsLead(s: State, id: nat, spurious: bool)
    requires s.objSize > 0 && s.align > 0 && Enabled(s, Step(id, spurious))
    ensures var pc, pc' := s.threads[id], PcOf(Next(s, Step(id, spurious)), id);
            && (pc'.Idle? ==> (pc.ACas? || pc.FCas?) && pc.h == s.head && !spurious)
            && (pc'.RSystemAlloc? ==> pc.ALoad? || pc.ACas?)
  {
    hide Next;
    if InRefill(s.threads[id]) {
      RefillGoesOn(s, id, spurious);
    } else {
      OthersGoOn(s, id, spurious);
    }
  }

  predicate InRefill(pc: Pc) { pc.RLoadBlock? || pc.RLinkBlock? || pc.RCasBlock? || pc.RCarve? || pc.RLoad? || pc.RLink? || pc.RCas? }

  lemma RefillGoesOn(s: State, id: nat, spurious: bool)
    requires s.objSize > 0 && s.align > 0 && Enabled(s, Step(id, spurious)) && InRefill(s.threads[id])
    ensures var pc' := PcOf(Next(s, Step(id, spurious)), id); !pc'.Idle? && !pc'.RSystemAlloc?
  {
    hide Slots, Linked, CarveOwners, PoolOwners;
  }

  lemma OthersGoOn(s: State, id: nat, spurious: bool)
    requires s.objSize > 0 && s.align > 0 && Enabled(s, Step(id, spurious)) && !InRefill(s.threads[id])
    ensures var pc, pc' := s.threads[id], PcOf(Next(s, Step(id, spurious)), id);
            && (pc'.Idle? ==> (pc.ACas? || pc.FCas?) && pc.h == s.head && !spurious)
            && (pc'.RSystemAlloc? ==> pc.ALoad? || pc.ACas?)
  {
    hide Slots, Linked, CarveOwners, PoolOwners;
  }

  /** `New` asks the system for a block only if it saw the stack empty, and then it does. */
  lemma RefillsOnlyWhenEmpty(s: State, id: nat, spurious: bool)
    requires Inv(s) && Enabled(s, Step(id, spurious))
    ensures PcOf(Next(s, Step(id, spurious)), id).RSystemAlloc? <==>
              && s.stack == []
              && (s.threads[id].ALoad? || (s.threads[id].ACas? && (spurious || s.threads[id].h != s.head)))
  {
    hide BlocksInv, SlotsInv, HandsInv, ThreadsInv, StackInv, Slots, Linked, CarveOwners, PoolOwners;
    WhereStepsLead(s, id, spurious);
    if s.threads[id].ALoad? || s.threads[id].ACas? {
      HeadIsTop(s);
    }
  }

  predicate InDelete(pc: Pc) { pc.FLoad? || pc.FSet? || pc.FCas? }

  /** `New` returns only with a slot, the top of the stack at that moment. */
  lemma NewReturnsWithSlot(s: State, id: nat, spurious: bool)
    requires Inv(s) && Enabled(s, Step(id, spurious)) && !InDelete(s.threads[id]) && PcOf(Next(s, Step(id, spurious)), id).Idle?
    ensures var s' := Next(s, Step(id, spurious));
            s.stack != [] && s'.stack == s.stack[..|s.stack| - 1] && s'.own == s.own[s.stack[|s.stack| - 1] := User]
  {
    hide BlocksInv, SlotsInv, HandsInv, StackInv, ThreadsInv, Slots, Linked, CarveOwners, PoolOwners;
    WhereStepsLead(s, id, spurious);
    PopInstallsSuccessor(s, id);
  }

  /** `Delete` returns only when its slot is on top. */
  lemma DeleteReturnsWhenDone(s: State, id: nat, spurious: bool)
    requires Inv(s) && Enabled(s, Step(id, spurious)) && InDelete(s.threads[id]) && PcOf(Next(s, Step(id, spurious)), id).Idle?
    ensures Next(s, Step(id, spurious)).stack == s.stack + [s.threads[id].obj]
  {
    hide BlocksInv, SlotsInv, HandsInv, StackInv, ThreadsInv, Slots, Linked, CarveOwners, PoolOwners;
    WhereStepsLead(s, id, spurious);
  }
}
