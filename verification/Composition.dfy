/** How the parts of the allocator fit together. The page heap keeps the promises on which the machine of
    module Allocator rests, step by step and so in every run of both, and the radix tree is the flat map
    of the page heap. */
module Composition {
  import A = Allocator
  import H = PageCache
  import P = PageHeap
  import T = PageMap
  import Z = SizeClasses

  // ---------------------------------------------------------------- page heap and central cache

  /** The machine's spans are the spans that the page heap has in use, and both see the same page map. */
  ghost predicate Backs(h: H.Heap, s: A.State) {
    && s.pmap == h.pmap
    && (forall x :: x in s.spans <==> InUse(h, x))
    && (forall x | x in s.spans :: SameRange(h.spans[x], s.spans[x]))
  }

  predicate InUse(h: H.Heap, x: nat) { x in h.spans && h.spans[x].use }

  predicate SameRange(s: H.Span, s': A.Span) { s'.page == s.page && s'.n == s.n }

  /** What a step of the page heap does for its caller: nothing to any span in use but `id`. */
  ghost predicate OthersStay(h: H.Heap, h': H.Heap, id: nat) {
    forall x | x != id :: (InUse(h, x) <==> InUse(h', x)) && (InUse(h, x) ==> h'.spans[x] == h.spans[x])
  }

  /** Whatever the page heap does to its own pages, the machine may take it as a change of other pages. */
  lemma PagesMayChange(h: H.Heap, h': H.Heap, s: A.State, id: nat)
    requires H.Inv(h) && H.Inv(h') && Backs(h, s) && OthersStay(h, h', id) && id !in s.spans
    ensures A.Enabled(s, A.OtherPages(h'.pmap))
  {
    hide H.InvBut;
    forall x, p | x in s.spans && A.InSpan(s.spans[x], p) && p in s.pmap
      ensures p in h'.pmap && h'.pmap[p] == s.pmap[p]
    {
      assert InUse(h, x) && InUse(h', x) && SameRange(h.spans[x], s.spans[x]);
      H.UsedLookup(h, x, p);
      H.UsedLookup(h', x, p);
    }
  }

  /** The page heap has handed out span `id`: nobody had it, and nobody else's span has changed. */
  ghost predicate HandsOut(h: H.Heap, h': H.Heap, id: nat, k: nat) {
    !InUse(h, id) && InUse(h', id) && h'.spans[id].n == k && OthersStay(h, h', id)
  }

  /** The machine's condition on the pages it gets holds of every span that the page heap hands out, and
      the two agree again afterwards. */
  lemma HandedOut(h: H.Heap, h': H.Heap, s: A.State, id: nat, k: nat, kind: A.Kind)
    requires H.Inv(h) && H.Inv(h') && Backs(h, s) && HandsOut(h, h', id, k)
    ensures A.Enabled(s, A.OtherPages(h'.pmap))
    ensures var s1, page := s.(pmap := h'.pmap), h'.spans[id].page;
            A.NewPages(s1, id, page, k) && Backs(h', A.AddSpan(s1, id, page, k, kind))
  {
    hide H.InvBut;
    PagesMayChange(h, h', s, id);
    PositiveSpan(h', id);
    var s1, page := s.(pmap := h'.pmap), h'.spans[id].page;
    forall x, p: nat | x in s1.spans && A.InSpan(s1.spans[x], p)
      ensures !(page <= p < page + k)
    {
      assert InUse(h, x) && InUse(h', x) && SameRange(h.spans[x], s.spans[x]);
      if H.InSpan(h'.spans[id], p) {
        H.SpansTile(h', id, x, p);
      }
    }
    AlreadyMapped(h', id, page, k);
  }

  lemma PositiveSpan(h: H.Heap, id: nat)
    requires H.Inv(h) && id in h.spans
    ensures id > 0 && h.spans[id].page > 0
  {
  }

  lemma AlreadyMapped(h: H.Heap, id: nat, page: nat, k: nat)
    requires H.Inv(h) && InUse(h, id) && page == h.spans[id].page && k == h.spans[id].n
    ensures A.MapPages(h.pmap, page, k, id) == h.pmap
  {
    hide H.InvBut;
    forall p: nat | page <= p < page + k
      ensures p in h.pmap && h.pmap[p] == id
    {
      H.UsedLookup(h, id, p);
    }
  }

  /** `GetOneSpan`: the span that `NewSpan` returns is one the machine may get. */
  lemma NewSpanRefines(h: H.Heap, h': H.Heap, s: A.State, t: nat, id: nat)
    requires H.Inv(h) && H.Inv(h') && Backs(h, s) && t in s.threads && s.threads[t].NeedSpan?
    requires HandsOut(h, h', id, A.SpanPages(s.threads[t].c))
    ensures A.Enabled(s, A.OtherPages(h'.pmap))
    ensures var s1, e := A.Next(s, A.OtherPages(h'.pmap)), A.NewSpan(t, id, h'.spans[id].page);
            A.Enabled(s1, e) && Backs(h', A.Next(s1, e))
  {
    hide H.InvBut, A.NewPages, A.SpanPages;
    HandedOut(h, h', s, id, A.SpanPages(s.threads[t].c), A.Held(t));
  }

  /** `malloc` of a large block. */
  lemma MallocLargeRefines(h: H.Heap, h': H.Heap, s: A.State, id: nat, size: nat)
    requires H.Inv(h) && H.Inv(h') && Backs(h, s) && Z.MAX_BYTES < size <= Z.WORD - Z.PAGE_SIZE
    requires HandsOut(h, h', id, Z.RoundUp(size) / Z.PAGE_SIZE)
    ensures A.Enabled(s, A.OtherPages(h'.pmap))
    ensures var s1, e := A.Next(s, A.OtherPages(h'.pmap)), A.MallocLarge(id, h'.spans[id].page, size);
            A.Enabled(s1, e) && Backs(h', A.Next(s1, e))
  {
    hide H.InvBut, A.NewPages, Z.RoundUp;
    HandedOut(h, h', s, id, Z.RoundUp(size) / Z.PAGE_SIZE, A.Large(Z.RoundUp(size)));
  }

  /** The cached part of `NewSpan` hands out a span. */
  lemma CachedHandsOut(h: H.Heap, h': H.Heap, b: H.Bin, k: nat, spare: nat)
    requires H.Inv(h) && H.CanCarve(h, b, k, spare) && P.Tidied(H.Carve(h, b, k, spare), h')
    ensures H.Inv(h') && HandsOut(h, h', H.List(h.lists, b)[0], k)
  {
    hide H.InvBut, H.Carve;
    P.CoverOf(h);
    H.CarveGives(h, b, k, spare);
    H.CarveInv(h, b, k, spare);
    P.TidiedInv(H.Carve(h, b, k, spare), h');
  }

  /** And so does the part after the system has been asked for pages, which a method of the page heap is. */
  method SystemHandsOut(heap: P.PageHeap, me: nat, k: nat, page: nat, id: nat, spare: nat, fails: set<nat>) returns (ok: bool, got: nat)
    requires heap.Valid() && me in heap.total && k > 0 && page > 0 && id > 0 && id !in heap.spans
    requires spare > 0 && spare !in heap.spans && spare != id
    requires forall p | p in heap.cover :: !H.InRange(p, page, P.RangePages(k))
    modifies heap
    ensures heap.Valid() && (ok ==> HandsOut(old(heap.State()), heap.State(), got, k))
    ensures !ok ==> OthersStay(old(heap.State()), heap.State(), id) && heap.pmap == old(heap.pmap)
  {
    ok, got := heap.NewSpanFromSystem(me, k, page, id, spare, fails);
  }

  /** Event `e` gives span `id` back: a large block is freed, or a thread returns its next idle span. */
  predicate GivesBack(s: A.State, e: A.Event, id: nat) {
    || e == A.FreeLarge(id)
    || (e.ReturnNext? && Returns(s, e.t) && s.threads[e.t].released != [] && s.threads[e.t].released[0] == id)
  }

  predicate Returns(s: A.State, t: nat) { t in s.threads && s.threads[t].Return? }

  lemma SpanGone(s: A.State, e: A.Event, id: nat)
    requires A.Enabled(s, e) && GivesBack(s, e, id)
    ensures A.Next(s, e).spans == s.spans - {id} && A.Next(s, e).pmap == s.pmap
  {
  }

  lemma PagesChange(s: A.State, pmap: map<nat, nat>)
    requires A.Enabled(s, A.OtherPages(pmap))
    ensures A.Next(s, A.OtherPages(pmap)) == s.(pmap := pmap)
  {
  }

  /** `ReleaseSpan` takes a span back: what it does to the page map is allowed after either event that gives
      the span up, and the two agree again. */
  lemma ReleaseRefines(h: H.Heap, h': H.Heap, s: A.State, e: A.Event, id: nat)
    requires H.Inv(h) && H.Inv(h') && Backs(h, s) && id in h.spans && P.Released(h, h', id)
    requires A.Enabled(s, e) && GivesBack(s, e, id)
    ensures var s1 := A.Next(s, e);
            A.Enabled(s1, A.OtherPages(h'.pmap)) && Backs(h', A.Next(s1, A.OtherPages(h'.pmap)))
  {
    hide H.InvBut, H.Alone, A.Next, GivesBack;
    var s1 := A.Next(s, e);
    SpanGone(s, e, id);
    assert OthersStay(h, h', id);
    forall x, p | x in s1.spans && A.InSpan(s1.spans[x], p) && p in s1.pmap
      ensures p in h'.pmap && h'.pmap[p] == s1.pmap[p]
    {
      assert InUse(h, x) && InUse(h', x) && SameRange(h.spans[x], s.spans[x]);
      H.UsedLookup(h, x, p);
      H.UsedLookup(h', x, p);
    }
    PagesChange(s1, h'.pmap);
  }

  /** All other steps of the machine leave the page heap alone. */
  lemma PrivateRefines(h: H.Heap, s: A.State, e: A.Event)
    requires Backs(h, s) && A.Enabled(s, e) && A.Private(e)
    ensures Backs(h, A.Next(s, e))
  {
    hide A.Next, A.Enabled, A.SameRanges;
    A.RangesKept(s, e);
    StillBacked(h, s, A.Next(s, e));
  }

  lemma StillBacked(h: H.Heap, s: A.State, s': A.State)
    requires Backs(h, s) && A.SameRanges(s, s')
    ensures Backs(h, s')
  {
  }

  // ---------------------------------------------------------------- the two together

  datatype System = System(heap: H.Heap, machine: A.State)

  /** `Own` is a step of the machine alone; in `Idle` the page heap erases empty entries, adds leaves, or
      fails to map new pages. */
  datatype Step =
    | Own(e: A.Event)
    | NewSpan(t: nat, id: nat)
    | MallocLarge(id: nat, size: nat)
    | GiveBack(e: A.Event, id: nat)
    | Idle

  predicate Alone(s: A.State, e: A.Event) {
    A.Private(e) || (e.ReturnNext? && Returns(s, e.t) && s.threads[e.t].released == [])
  }

  /** The machine with the span that the page heap has handed out. */
  function Received(s: A.State, h': H.Heap, id: nat, kind: A.Kind): A.State
    requires id in h'.spans
  {
    A.AddSpan(s.(pmap := h'.pmap), id, h'.spans[id].page, h'.spans[id].n, kind)
  }

  /** A step of both. Of the page heap it asks what its methods promise, of the machine only what its
      threads know: nothing is said about which pages a new span has. */
  ghost predicate Takes(x: System, step: Step, y: System) {
    match step
    case Own(e) => A.Enabled(x.machine, e) && Alone(x.machine, e) && y == System(x.heap, A.Next(x.machine, e))
    case NewSpan(t, id) =>
      && t in x.machine.threads && x.machine.threads[t].NeedSpan?
      && var c := x.machine.threads[t].c;
         && H.Inv(y.heap) && HandsOut(x.heap, y.heap, id, A.SpanPages(c))
         && y.machine == A.Goto(Received(x.machine, y.heap, id, A.Held(t)), t, A.Carve(c, id))
    case MallocLarge(id, size) =>
      && Z.MAX_BYTES < size <= Z.WORD - Z.PAGE_SIZE
      && H.Inv(y.heap) && HandsOut(x.heap, y.heap, id, Z.RoundUp(size) / Z.PAGE_SIZE)
      && y.machine == Received(x.machine, y.heap, id, A.Large(Z.RoundUp(size)))
    case GiveBack(e, id) =>
      && A.Enabled(x.machine, e) && GivesBack(x.machine, e, id)
      && H.Inv(y.heap) && id in x.heap.spans && P.Released(x.heap, y.heap, id)
      && y.machine == A.Next(x.machine, e).(pmap := y.heap.pmap)
    case Idle =>
      && H.Inv(y.heap) && OthersStay(x.heap, y.heap, 0) && y.machine == x.machine.(pmap := y.heap.pmap)
  }

  ghost predicate Sound(x: System) { H.Inv(x.heap) && A.Inv(x.machine) && Backs(x.heap, x.machine) }

  lemma OwnKeeps(x: System, e: A.Event, y: System)
    requires Sound(x) && Takes(x, Own(e), y)
    ensures Sound(y)
  {
    hide H.InvBut, A.Inv, A.Next, A.Enabled, A.SameRanges;
    A.NextInv(x.machine, e);
    if A.Private(e) {
      PrivateRefines(x.heap, x.machine, e);
    } else {
      NothingReturned(x.machine, e);
      StillBacked(x.heap, x.machine, y.machine);
    }
  }

  lemma NothingReturned(s: A.State, e: A.Event)
    requires A.Enabled(s, e) && Alone(s, e) && !A.Private(e)
    ensures A.SameRanges(s, A.Next(s, e))
  {
  }

  lemma NewSpanKeeps(x: System, t: nat, id: nat, y: System)
    requires Sound(x) && Takes(x, NewSpan(t, id), y)
    ensures Sound(y)
  {
    hide H.InvBut, A.Inv, A.Next, A.Enabled, A.SpanPages, Backs;
    var s, e := x.machine, A.NewSpan(t, id, y.heap.spans[id].page);
    NewSpanRefines(x.heap, y.heap, s, t, id);
    A.NextInv(s, A.OtherPages(y.heap.pmap));
    PagesChange(s, y.heap.pmap);
    A.NextInv(s.(pmap := y.heap.pmap), e);
    SpanAdded(s.(pmap := y.heap.pmap), e);
  }

  lemma SpanAdded(s: A.State, e: A.Event)
    requires A.Enabled(s, e)
    ensures e.NewSpan? ==> var c := s.threads[e.t].c;
            A.Next(s, e) == A.Goto(A.AddSpan(s, e.id, e.page, A.SpanPages(c), A.Held(e.t)), e.t, A.Carve(c, e.id))
    ensures e.MallocLarge? ==>
            A.Next(s, e) == A.AddSpan(s, e.id, e.page, Z.RoundUp(e.size) / Z.PAGE_SIZE, A.Large(Z.RoundUp(e.size)))
  {
    hide A.SpanPages, Z.RoundUp, A.AddSpan;
  }

  lemma MallocLargeKeeps(x: System, id: nat, size: nat, y: System)
    requires Sound(x) && Takes(x, MallocLarge(id, size), y)
    ensures Sound(y)
  {
    hide H.InvBut, A.Inv, A.Next, A.Enabled, Z.RoundUp, Backs;
    var s, e := x.machine, A.MallocLarge(id, y.heap.spans[id].page, size);
    MallocLargeRefines(x.heap, y.heap, s, id, size);
    A.NextInv(s, A.OtherPages(y.heap.pmap));
    PagesChange(s, y.heap.pmap);
    A.NextInv(s.(pmap := y.heap.pmap), e);
    SpanAdded(s.(pmap := y.heap.pmap), e);
  }

  lemma GiveBackKeeps(x: System, e: A.Event, id: nat, y: System)
    requires Sound(x) && Takes(x, GiveBack(e, id), y)
    ensures Sound(y)
  {
    hide H.InvBut, A.Inv, A.Next, A.Enabled, Backs, GivesBack, P.Released;
    ReleaseRefines(x.heap, y.heap, x.machine, e, id);
    A.NextInv(x.machine, e);
    A.NextInv(A.Next(x.machine, e), A.OtherPages(y.heap.pmap));
    PagesChange(A.Next(x.machine, e), y.heap.pmap);
  }

  lemma IdleKeeps(x: System, y: System)
    requires Sound(x) && Takes(x, Idle, y)
    ensures Sound(y)
  {
    hide H.InvBut, A.Inv, A.Next, A.Enabled;
    NoSpanIsNull(x.heap);
    NoSpanIsNull(y.heap);
    PagesMayChange(x.heap, y.heap, x.machine, 0);
    A.NextInv(x.machine, A.OtherPages(y.heap.pmap));
    PagesChange(x.machine, y.heap.pmap);
  }

  lemma NoSpanIsNull(h: H.Heap)
    requires H.Inv(h)
    ensures !InUse(h, 0)
  {
  }

  lemma StepKeeps(x: System, step: Step, y: System)
    requires Sound(x) && Takes(x, step, y)
    ensures Sound(y)
  {
    hide Sound, Takes;
    match step
    case Own(e) => OwnKeeps(x, e, y);
    case NewSpan(t, id) => NewSpanKeeps(x, t, id, y);
    case MallocLarge(id, size) => MallocLargeKeeps(x, id, size, y);
    case GiveBack(e, id) => GiveBackKeeps(x, e, id, y);
    case Idle => IdleKeeps(x, y);
  }

  ghost predicate Starts(x: System) {
    H.Inv(x.heap) && x.heap.spans == map[] && A.Init(x.machine) && x.machine.pmap == x.heap.pmap
  }

  lemma StartIsSound(x: System)
    requires Starts(x)
    ensures Sound(x)
  {
    hide H.InvBut, A.Inv;
    A.InitInv(x.machine);
  }

  ghost predicate IsRun(run: seq<System>, steps: seq<Step>) {
    && |run| == |steps| + 1
    && Starts(run[0])
    && forall i | 0 <= i < |steps| :: Takes(run[i], steps[i], run[i + 1])
  }

  lemma {:induction false} RunIsSound(run: seq<System>, steps: seq<Step>, k: nat)
    requires IsRun(run, steps) && k < |run|
    ensures Sound(run[k])
  {
    hide Sound, Takes, Starts;
    if k == 0 {
      StartIsSound(run[0]);
    } else {
      RunIsSound(run, steps, k - 1);
      StepKeeps(run[k - 1], steps[k - 1], run[k]);
    }
  }

  /** In every run of page heap and central caches together, two blocks that users hold are the same block
      or lie apart. */
  lemma BlocksNeverOverlap(run: seq<System>, steps: seq<Step>, k: nat, a: nat, size: nat, id: nat, a': nat, size': nat, id': nat)
    requires IsRun(run, steps) && k < |run|
    requires A.HeldByUser(run[k].machine, a, size, id) && A.HeldByUser(run[k].machine, a', size', id') && (a != a' || id != id')
    ensures a + size <= a' || a' + size' <= a
  {
    hide H.InvBut, Backs, A.HeldByUser;
    RunIsSound(run, steps, k);
    A.BlocksApart(run[k].machine, a, size, id, a', size', id');
  }

  /** Page `p` has bytes of the block. */
  predicate Under(p: nat, a: nat, size: nat) { p * Z.PAGE_SIZE < a + size && a < (p + 1) * Z.PAGE_SIZE }

  /** Each page under a block that a user holds was obtained from the system, and the page heap has it in a
      span in use, which its entry in the page map names: no free span, hot or cold, reaches into it. */
  lemma HeldPagesAreInUse(run: seq<System>, steps: seq<Step>, k: nat, a: nat, size: nat, id: nat, p: nat)
    requires IsRun(run, steps) && k < |run| && A.HeldByUser(run[k].machine, a, size, id) && Under(p, a, size)
    ensures var h := run[k].heap;
            && p in h.cover && InUse(h, id) && H.InSpan(h.spans[id], p) && p in h.pmap && h.pmap[p] == id
            && forall x | x in h.spans && !h.spans[x].use :: !H.InSpan(h.spans[x], p)
  {
    hide A.Inv, H.InvBut;
    RunIsSound(run, steps, k);
    var s, h := run[k].machine, run[k].heap;
    UnderSpan(s, a, size, id, p);
    assert InUse(h, id) && SameRange(h.spans[id], s.spans[id]);
    H.UsedLookup(h, id, p);
    Covered(h, id, p);
  }

  lemma UnderSpan(s: A.State, a: nat, size: nat, id: nat, p: nat)
    requires A.Inv(s) && A.HeldByUser(s, a, size, id) && Under(p, a, size)
    ensures s.spans[id].page <= p < s.spans[id].page + s.spans[id].n
  {
    A.BlockInSpan(s, a, size, id);
  }

  lemma Covered(h: H.Heap, id: nat, p: nat)
    requires H.Inv(h) && id in h.spans && H.InSpan(h.spans[id], p)
    ensures p in h.cover && forall x | x in h.spans && x != id :: !H.InSpan(h.spans[x], p)
  {
  }

  // ---------------------------------------------------------------- page heap and radix tree

  /** The tree holds the flat map, and its leaves are those that the page heap counts. */
  ghost predicate Holds(tree: T.PageMap, pmap: map<nat, nat>, leaves: set<nat>)
    requires tree.Valid()
    reads tree, tree.Repr
  {
    && (forall p: nat :: tree.Get(p) == if p in pmap then pmap[p] else 0)
    && (forall p: nat :: tree.HasLeaf(p) <==> p < H.PAGE_LIMIT && H.Leaf(p) in leaves)
  }

  lemma SamePageLimit(p: nat, q: nat)
    ensures T.PAGES == H.PAGE_LIMIT && T.LEN_LEAF == H.LEAF_PAGES
    ensures H.Leaf(p) == H.Leaf(q) ==> (p < H.PAGE_LIMIT <==> q < H.PAGE_LIMIT)
  {
  }

  /** `set` on the tree is what the page heap takes it for: one entry of the flat map and perhaps a new
      leaf, or no change if the system refuses a node. */
  method MapPage(tree: T.PageMap, p: nat, id: nat, oomRoot: bool, oomLeaf: bool, ghost pmap: map<nat, nat>, ghost leaves: set<nat>)
    returns (ok: bool, ghost fails: set<nat>)
    requires tree.Valid() && Holds(tree, pmap, leaves) && id > 0
    modifies tree.Repr
    ensures tree.Valid() && fails <= {H.Leaf(p)} && (ok <==> P.CanMap(leaves, fails, p))
    ensures ok ==> Holds(tree, pmap[p := id], leaves + {H.Leaf(p)})
    ensures !ok ==> Holds(tree, pmap, leaves)
  {
    fails := if (!tree.HasInternal(p) && oomRoot) || (!tree.HasLeaf(p) && oomLeaf) then {H.Leaf(p)} else {};
    forall q: nat
      ensures T.PAGES == H.PAGE_LIMIT && T.LEN_LEAF == H.LEAF_PAGES
      ensures H.Leaf(p) == H.Leaf(q) ==> (p < H.PAGE_LIMIT <==> q < H.PAGE_LIMIT)
    {
      SamePageLimit(p, q);
    }
    ok := tree.Set(p, id, oomRoot, oomLeaf);
  }

  /** Storing null takes an entry out. */
  method UnmapPage(tree: T.PageMap, p: nat, ghost pmap: map<nat, nat>, ghost leaves: set<nat>) returns (ok: bool)
    requires tree.Valid() && Holds(tree, pmap, leaves) && p < H.PAGE_LIMIT && H.Leaf(p) in leaves
    modifies tree.Repr
    ensures tree.Valid() && ok && Holds(tree, pmap - {p}, leaves)
  {
    forall q: nat
      ensures T.PAGES == H.PAGE_LIMIT && T.LEN_LEAF == H.LEAF_PAGES
      ensures H.Leaf(p) == H.Leaf(q) ==> (p < H.PAGE_LIMIT <==> q < H.PAGE_LIMIT)
    {
      SamePageLimit(p, q);
    }
    ok := tree.Set(p, 0, true, true);
  }
}
