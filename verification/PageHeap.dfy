/** The methods of `PageCacheShard` (KzAlloc/PageCache.cpp), which update the shard's fields in place. The
    fields of all shards are kept together: `me` says whose section it is. A method is one section
    under the shard's lock, so any interleaving of threads is a sequence of these calls; `NewSpan`,
    which lets go of its lock around `SystemAlloc`, is two sections. Each is proved against the
    transitions of module PageCache. */
module PageHeap {
  import opened Lists
  import opened PageCache

  /** Bin `b` is the best fit for `k` pages: the smallest sufficient hot one, else the smallest
      sufficient cold one. */
  ghost predicate BestFit(h: Heap, me: nat, k: nat, b: Bin) {
    && b.shard == me && b.n >= k && List(h.lists, b) != []
    && forall c: Bin | c.shard == me && c.n >= k && List(h.lists, c) != [] ::
         if b.cold then c.cold && b.n <= c.n else c.cold || b.n <= c.n
  }

  ghost predicate NothingFits(h: Heap, me: nat, k: nat) {
    forall c: Bin | c.shard == me && c.n >= k :: List(h.lists, c) == []
  }

  predicate InMap(c: Bin, me: nat, cold: bool, k: nat) { c.shard == me && c.cold == cold && c.n >= NPAGES && c.n >= k }

  ghost predicate IsLowerBound(lists: map<Bin, seq<nat>>, me: nat, cold: bool, k: nat, b: Bin) {
    && b in lists && InMap(b, me, cold, k)
    && forall c | c in lists && InMap(c, me, cold, k) :: b.n <= c.n
  }

  /** The same but for empty entries of the ordered maps. */
  ghost predicate Tidied(h: Heap, h': Heap) {
    h' == h.(lists := h'.lists) && forall b :: List(h'.lists, b) == List(h.lists, b)
  }

  lemma TidiedSelf(h: Heap)
    ensures Tidied(h, h)
  {
  }

  lemma TidiedTwice(h: Heap, h1: Heap, h2: Heap)
    requires Tidied(h, h1) && Tidied(h1, h2)
    ensures Tidied(h, h2) && h2.spans == h1.spans
  {
    forall b
      ensures List(h2.lists, b) == List(h.lists, b)
    {
      assert List(h2.lists, b) == List(h1.lists, b);
    }
  }

  lemma TidiedInv(h: Heap, h': Heap)
    requires Inv(h) && Tidied(h, h')
    ensures Inv(h')
  {
    forall b | b in h'.lists
      ensures NoRepeats(h'.lists[b])
    {
      assert List(h'.lists, b) == List(h.lists, b);
    }
    forall b, id
      ensures id in List(h'.lists, b) <==> Belongs(h.spans, b, id)
    {
      assert List(h'.lists, b) == List(h.lists, b);
    }
  }

  /** The field-by-field effect of the three allocation functions is `Carve`. */
  lemma FrontLast(spans: map<nat, Span>, id: nat, s: Span, split: nat, rest: Span, front: Span)
    requires id != split
    ensures spans[id := s][split := rest][id := front] == spans[id := front][split := rest]
  {
  }

  lemma CarveIs(h: Heap, h': Heap, b: Bin, k: nat, split: nat, id: nat, s: Span, rest: Span)
    requires CanCarve(h, b, k, split) && id == List(h.lists, b)[0] && s == h.spans[id]
    requires s.n > k ==> rest == Span(s.page + k, s.n - k, false, b.cold, b.shard)
    requires h'.total == LessTotal(h.total, s, k) && h'.leaves == h.leaves && h'.edges == h.edges
    requires s.n > k ==>
      && h'.spans == h.spans[id := s.(n := k)][split := rest][id := s.(n := k, use := true, cold := false)]
      && h'.lists == Push(Pop(h.lists, b), BinOf(rest), split)
      && h'.pmap == SetAll(SetEnds(h.pmap, rest, split), s.page, k, id)
      && h'.cover == SetAll(h.cover, rest.page, rest.n, split)
    requires s.n == k ==>
      && h'.spans == h.spans[id := s.(use := true, cold := false)] && h'.lists == Pop(h.lists, b)
      && h'.pmap == SetAll(h.pmap, s.page, k, id) && h'.cover == h.cover
    ensures h' == Carve(h, b, k, split)
  {
    hide SetAll, SetEnds, Push, Pop, Carve, LessTotal;
    if s.n > k {
      var front := s.(n := k, use := true, cold := false);
      assert rest == s.(page := s.page + k, n := s.n - k);
      CarveSplit(h, b, k, split, id, s, front, rest);
      FrontLast(h.spans, id, s.(n := k), split, rest, front);
    } else {
      CarveWhole(h, b, k, split, id, s);
    }
  }

  lemma SetNothing(m: map<nat, nat>, page: nat, id: nat)
    ensures SetAll(m, page, 0, id) == m
  {
  }

  lemma SetNext(m: map<nat, nat>, page: nat, n: nat, id: nat)
    ensures SetAll(m, page, n, id)[page + n := id] == SetAll(m, page, n + 1, id)
  {
  }

  lemma SetAndUnset(m: map<nat, nat>, page: nat, n: nat, id: nat)
    requires forall p: nat | InRange(p, page, n) :: p !in m
    ensures SetAll(m, page, n, id) - Pages(page, n) == m
  {
  }

  /** Taking all of a span's pages off the counter and putting the rest back takes off `k`. */
  lemma TakeAndPutBack(total: map<nat, nat>, s: Span, k: nat)
    requires s.shard in total && 0 < k <= s.n && !s.cold && total[s.shard] >= s.n
    ensures total[s.shard := total[s.shard] - s.n][s.shard := total[s.shard] - s.n + (s.n - k)] == LessTotal(total, s, k)
    ensures k == s.n ==> total[s.shard := total[s.shard] - s.n] == LessTotal(total, s, k)
  {
  }

  /** Nothing with `k` or more pages is in the shard's hot, or cold, lists. */
  ghost predicate NoneOfKind(h: Heap, me: nat, cold: bool, k: nat) {
    forall c: Bin | c.shard == me && c.cold == cold && c.n >= k :: List(h.lists, c) == []
  }

  ghost predicate SmallestOfKind(h: Heap, b: Bin, k: nat) {
    && b.n >= k && List(h.lists, b) != []
    && forall c: Bin | c.shard == b.shard && c.cold == b.cold && c.n >= k && List(h.lists, c) != [] :: b.n <= c.n
  }

  lemma CanTake(h: Heap, b: Bin, k: nat, spare: nat)
    requires Inv(h) && List(h.lists, b) != [] && 0 < k <= b.n && spare > 0 && spare !in h.spans
    ensures CanCarve(h, b, k, spare) && (b.cold || h.total[b.shard] >= b.n)
  {
    FrontBelongs(h, b);
    if !b.cold {
      TotalCovers(h, List(h.lists, b)[0]);
    }
  }

  lemma CarveTidied(h: Heap, h1: Heap, b: Bin, k: nat, spare: nat)
    requires CanCarve(h, b, k, spare) && Tidied(h, h1)
    ensures CanCarve(h1, b, k, spare) && Tidied(Carve(h, b, k, spare), Carve(h1, b, k, spare))
  {
    assert List(h1.lists, b) == List(h.lists, b);
    var id := List(h.lists, b)[0];
    var s := h.spans[id];
    if k == b.n {
      CarveWhole(h, b, k, spare, id, s);
      CarveWhole(h1, b, k, spare, id, s);
      PopTidied(h.lists, h1.lists, b);
    } else {
      var rest := s.(page := s.page + k, n := s.n - k);
      CarveSplit(h, b, k, spare, id, s, s.(n := k, use := true, cold := false), rest);
      CarveSplit(h1, b, k, spare, id, s, s.(n := k, use := true, cold := false), rest);
      PopTidied(h.lists, h1.lists, b);
      PushTidied(Pop(h.lists, b), Pop(h1.lists, b), BinOf(rest), spare);
    }
  }

  lemma PopTidied(lists: map<Bin, seq<nat>>, lists': map<Bin, seq<nat>>, b: Bin)
    requires (forall c :: List(lists', c) == List(lists, c)) && List(lists, b) != []
    ensures forall c :: List(Pop(lists', b), c) == List(Pop(lists, b), c)
  {
    assert List(lists', b) == List(lists, b);
    forall c
      ensures List(Pop(lists', b), c) == List(Pop(lists, b), c)
    {
      assert List(lists', c) == List(lists, c);
    }
  }

  lemma PushTidied(lists: map<Bin, seq<nat>>, lists': map<Bin, seq<nat>>, b: Bin, id: nat)
    requires forall c :: List(lists', c) == List(lists, c)
    ensures forall c :: List(Push(lists', b, id), c) == List(Push(lists, b, id), c)
  {
    assert List(lists', b) == List(lists, b);
    forall c
      ensures List(Push(lists', b, id), c) == List(Push(lists, b, id), c)
    {
      assert List(lists', c) == List(lists, c);
    }
  }

  /** Taking the best fit from a tidied heap is taking it from the heap. */
  lemma CarveKeeps(h: Heap, b: Bin, k: nat, spare: nat)
    requires CanCarve(h, b, k, spare)
    ensures Carve(h, b, k, spare).total.Keys == h.total.Keys
  {
    hide SetAll, SetEnds, Push, Pop;
  }

  lemma TookBest(h: Heap, h1: Heap, h2: Heap, me: nat, k: nat, b: Bin, spare: nat)
    requires Inv(h) && Tidied(h, h1) && b.shard == me && SmallestOfKind(h1, b, k) && (b.cold ==> NoneOfKind(h1, me, false, k))
    requires 0 < k && spare > 0 && spare !in h.spans && CanCarve(h1, b, k, spare) && Tidied(Carve(h1, b, k, spare), h2)
    ensures Inv(h2) && BestFit(h, me, k, b) && CanCarve(h, b, k, spare) && Tidied(Carve(h, b, k, spare), h2)
    ensures List(h1.lists, b)[0] == List(h.lists, b)[0] && h2.total.Keys == h.total.Keys
  {
    hide InvBut, Carve;
    assert forall c :: List(h1.lists, c) == List(h.lists, c);
    CanTake(h, b, k, spare);
    CarveKeeps(h, b, k, spare);
    CarveTidied(h, h1, b, k, spare);
    CarveInv(h, b, k, spare);
    TidiedInv(Carve(h, b, k, spare), h2);
  }

  lemma NothingOfEither(h: Heap, h1: Heap, me: nat, k: nat)
    requires Tidied(h, h1) && NoneOfKind(h1, me, false, k) && NoneOfKind(h1, me, true, k)
    ensures NothingFits(h, me, k)
  {
    forall c: Bin | c.shard == me && c.n >= k
      ensures List(h.lists, c) == []
    {
      assert List(h1.lists, c) == List(h.lists, c);
    }
  }

  /** A page map entry can be made: the page is in range and has a leaf, or can get one. */
  predicate CanMap(leaves: set<nat>, fails: set<nat>, p: nat) {
    p < PAGE_LIMIT && (Leaf(p) in leaves || Leaf(p) !in fails)
  }

  /** How many pages `NewSpan` asks the system for. */
  function RangePages(k: nat): nat { if k >= NPAGES then k else NPAGES - 1 }

  lemma LeafBetween(page: nat, n: nat, p: nat)
    requires 0 < n < NPAGES && InRange(p, page, n)
    ensures Leaf(p) == Leaf(page) || Leaf(p) == Leaf(page + n - 1)
  {
    assert Leaf(page) <= Leaf(p) <= Leaf(page + n - 1) <= Leaf(page) + 1;
  }

  lemma CoverOf(h: Heap)
    requires Inv(h)
    ensures CoverInv(h.spans, h.cover)
  {
  }

  lemma NothingMapped(h: Heap, page: nat, n: nat)
    requires Inv(h) && forall p | p in h.cover :: !InRange(p, page, n)
    ensures forall p: nat | InRange(p, page, n) :: p !in h.pmap
  {
  }

  lemma GrowLeaves(h: Heap, leaves: set<nat>)
    requires Inv(h) && h.leaves <= leaves
    ensures Inv(h.(leaves := leaves))
  {
  }

  lemma CanAdd(h: Heap, me: nat, s: Span, id: nat)
    requires Inv(h) && me in h.total && s.shard == me && !s.cold && s.page > 0 && s.n > 0 && id > 0 && id !in h.spans
    requires forall p | p in h.cover :: !InRange(p, s.page, s.n)
    requires forall p: nat | InRange(p, s.page, s.n) :: p < PAGE_LIMIT && Leaf(p) in h.leaves
    ensures Inv(AddRange(h, me, s.page, s.n, id, s.use))
  {
    AddRangeInv(h, me, s.page, s.n, id, s.use);
  }

  lemma AddedFacts(h: Heap, me: nat, page: nat, n: nat, id: nat, use: bool)
    requires me in h.total && n > 0 && id !in h.spans
    ensures var h' := AddRange(h, me, page, n, id, use);
            && h'.spans[id] == Span(page, n, use, false, me)
            && (use ==> forall p: nat | InRange(p, page, n) :: p in h'.pmap && h'.pmap[p] == id)
            && (!use ==> List(h'.lists, Bin(me, false, n)) != [])
            && h'.cover.Keys == h.cover.Keys + Pages(page, n)
            && (forall x | x in h.spans :: x != id && x in h'.spans && h'.spans[x] == h.spans[x])
            && (forall x | x in h'.spans && x != id :: x in h.spans && h.spans[x] == h'.spans[x])
  {
  }

  /** How a heap differs after span `id` has absorbed some neighbours. */
  ghost predicate Merged(h: Heap, h': Heap, id: nat) {
    && Grown(h.spans, h'.spans, id) && OnlyAbsorbed(h.spans, h'.spans, id)
    && h'.cover.Keys == h.cover.Keys && h'.edges == h.edges && h'.leaves == h.leaves && h'.pmap == h.pmap
    && id in h.spans && h.spans[id].shard in h.total && OthersKept(h.total, h'.total, h.spans[id].shard)
  }

  ghost predicate Grown(spans: map<nat, Span>, spans': map<nat, Span>, id: nat) {
    && id in spans && id in spans' && spans'[id].use && spans'[id].shard == spans[id].shard
    && 0 < spans'[id].page <= spans[id].page && spans[id].page + spans[id].n <= spans'[id].page + spans'[id].n
  }

  /** The spans other than `id` are as they were, but for free ones of its shard that now lie inside it. */
  ghost predicate OnlyAbsorbed(spans: map<nat, Span>, spans': map<nat, Span>, id: nat)
    requires id in spans && id in spans'
  {
    && (forall x | x in spans' && x != id :: x in spans && spans'[x] == spans[x])
    && (forall x | x in spans :: x in spans' || (FreeOf(spans[x], spans[id].shard) && Within(spans[x], spans'[id])))
  }

  predicate Within(s: Span, t: Span) { t.page <= s.page && s.page + s.n <= t.page + t.n }

  /** The spans in use, other than `id`, are the same and as they were. */
  ghost predicate UsedKept(spans: map<nat, Span>, spans': map<nat, Span>, id: nat) {
    && (forall x | x in spans && spans[x].use && x != id :: x in spans' && spans'[x] == spans[x])
    && (forall x | x in spans' && spans'[x].use && x != id :: x in spans && spans[x] == spans'[x])
  }

  ghost predicate OthersKept(total: map<nat, nat>, total': map<nat, nat>, me: nat) {
    total'.Keys == total.Keys && forall x | x in total && x != me :: total'[x] == total[x]
  }

  /** Span `nb` has the page just before or just after span `id`. */
  predicate NextTo(s: Span, t: Span) { s.page > 0 && (InSpan(t, s.page - 1) || InSpan(t, s.page + s.n)) }

  lemma SpansTouch(spans: map<nat, Span>, cover: map<nat, nat>, id: nat, nb: nat)
    requires CoverInv(spans, cover) && id in spans && nb in spans && nb != id && NextTo(spans[id], spans[nb])
    ensures spans[nb].page + spans[nb].n == spans[id].page || spans[id].page + spans[id].n == spans[nb].page
  {
    var s := spans[id];
    assert InSpan(s, s.page) && InSpan(s, s.page + s.n - 1);
    assert !InSpan(spans[nb], s.page) && !InSpan(spans[nb], s.page + s.n - 1);
  }

  /** The free neighbour found by a lookup can be absorbed. */
  lemma CanAbsorb(h: Heap, id: nat, nb: nat)
    requires InvBut(h, id) && id in h.spans && h.spans[id].use && nb in h.spans && nb != id
    requires FreeOf(h.spans[nb], h.spans[id].shard) && NextTo(h.spans[id], h.spans[nb])
    ensures CanMerge(h, id, nb) && (h.spans[nb].cold || h.total[h.spans[nb].shard] >= h.spans[nb].n)
    ensures InvBut(Merge(h, id, nb), id) && Merge(h, id, nb).cover.Keys == h.cover.Keys
    ensures h.spans[nb].page > 0
  {
    SpansTouch(h.spans, h.cover, id, nb);
    if !h.spans[nb].cold {
      TotalCovers(h, nb);
    }
    MergeInv(h, id, nb);
    MergeCover(h.spans, h.cover, id, nb, Merge(h, id, nb).spans, Merge(h, id, nb).cover);
  }

  /** Absorbing it is one more merge. */
  lemma AbsorbNext(h: Heap, h1: Heap, id: nat, nb: nat)
    requires Merged(h, h1, id) && CanMerge(h1, id, nb) && Merge(h1, id, nb).cover.Keys == h1.cover.Keys && h1.spans[nb].page > 0
    ensures Merged(h, Merge(h1, id, nb), id) && |Merge(h1, id, nb).spans| < |h1.spans|
  {
    assert Merge(h1, id, nb).spans.Keys == h1.spans.Keys - {nb};
  }

  lemma AbsorbRightKeepsLeft(h: Heap, id: nat, nb: nat)
    requires InvBut(h, id) && CanMerge(h, id, nb) && InSpan(h.spans[nb], h.spans[id].page + h.spans[id].n)
    requires NotFreeAt(h.spans, h.cover, h.spans[id].page - 1, h.spans[id].shard)
    ensures var h' := Merge(h, id, nb); NotFreeAt(h'.spans, h'.cover, h'.spans[id].page - 1, h'.spans[id].shard)
  {
    hide MapInv, EdgeInv, HotInv, ListsInv, LeavesInv, Unlink;
    var s, t := h.spans[id], h.spans[nb];
    assert t.page == s.page + s.n;
  }

  /** Shard `me`'s hot free spans have at most `m` pages. */
  ghost predicate HotUpTo(h: Heap, me: nat, m: nat) {
    forall x | x in h.spans && IsHot(h.spans[x], me) :: h.spans[x].n <= m
  }

  /** How a heap differs after some of shard `me`'s hot free spans, of at least `m` pages each, have
      become cold. */
  ghost predicate Cooled(h: Heap, h': Heap, me: nat, m: nat) {
    && h'.spans.Keys == h.spans.Keys
    && (forall x | x in h.spans :: h'.spans[x] == h.spans[x] || CooledSpan(h.spans[x], h'.spans[x], me, m))
    && h'.cover == h.cover && h'.edges == h.edges && h'.leaves == h.leaves && h'.pmap == h.pmap
    && me in h.total && OthersKept(h.total, h'.total, me)
  }

  predicate CooledSpan(s: Span, s': Span, me: nat, m: nat) { IsHot(s, me) && s.n >= m && s' == s.(cold := true) }

  /** Span `x` of `m` pages has become cold. */
  predicate CooledOne(h: Heap, h': Heap, x: nat, m: nat) {
    x in h.spans && x in h'.spans && !h.spans[x].cold && h'.spans[x].cold && h.spans[x].n == m
  }

  /** Nothing was cooled that did not have to be: nothing at all with the counter at or below the threshold, and
      otherwise the last and shortest span to be cooled, of `m` pages, was still needed. */
  ghost predicate InTime(h: Heap, h': Heap, me: nat, limit: nat, m: nat)
    requires me in h.total && me in h'.total
  {
    if h.total[me] <= limit then h'.spans == h.spans && h'.total == h.total
    else h'.total[me] > limit || (h'.total[me] + m > limit && exists x :: CooledOne(h, h', x, m))
  }

  /** What bringing the counter of shard `me` under its threshold does: the longest hot free spans become cold,
      none shorter than `m` pages and none longer is left, and no more of them than it takes. */
  ghost predicate Reclaimed(h: Heap, h': Heap, me: nat, limit: nat, m: nat) {
    Cooled(h, h', me, m) && HotUpTo(h', me, m) && InTime(h, h', me, limit, m)
  }

  lemma SameSpansCooled(h: Heap, h1: Heap, h2: Heap, m: nat)
    requires h2.spans == h1.spans
    ensures (exists x :: CooledOne(h, h1, x, m)) ==> exists x :: CooledOne(h, h2, x, m)
  {
    if x :| CooledOne(h, h1, x, m) {
      assert CooledOne(h, h2, x, m);
    }
  }

  lemma DropEmpty(h: Heap, h1: Heap, me: nat, limit: nat, m: nat, b: Bin)
    requires Inv(h1) && Reclaimed(h, h1, me, limit, m) && b in h1.lists && List(h1.lists, b) == []
    ensures var h2 := h1.(lists := h1.lists - {b}); Inv(h2) && Reclaimed(h, h2, me, limit, m)
    ensures |h1.lists - {b}| < |h1.lists|
  {
    SameSpansCooled(h, h1, h1.(lists := h1.lists - {b}), m);
    EraseKeepsLists(h1.spans, h1.lists, b);
    assert (h1.lists - {b}).Keys == h1.lists.Keys - {b};
  }

  /** Cooling the front span of the largest hot entry. */
  lemma CanCool(h: Heap, h1: Heap, me: nat, limit: nat, m: nat, b: Bin)
    requires Inv(h1) && Reclaimed(h, h1, me, limit, m) && h1.total[me] > limit && b.shard == me && !b.cold
    requires List(h1.lists, b) != [] && forall c | c in h1.lists && c.shard == me && !c.cold && List(h1.lists, c) != [] :: c.n <= b.n
    ensures Belongs(h1.spans, b, List(h1.lists, b)[0]) && me in h1.total && h1.total[me] >= b.n > 0
    ensures var h2 := Cool(h1, b); Inv(h2) && Reclaimed(h, h2, me, limit, b.n) && h2.total[me] == h1.total[me] - b.n
  {
    hide InvBut, Cooled, HotUpTo;
    FrontBelongs(h1, b);
    CoolInv(h1, b);
    LargestHot(h1, me, b);
    CooledMore(h, h1, me, m, b);
    StillHot(h, h1, me, m, List(h1.lists, b)[0]);
    assert CooledOne(h, Cool(h1, b), List(h1.lists, b)[0], b.n);
  }

  lemma LargestHot(h: Heap, me: nat, b: Bin)
    requires Inv(h) && forall c | c in h.lists && c.shard == me && !c.cold && List(h.lists, c) != [] :: c.n <= b.n
    ensures HotUpTo(h, me, b.n)
  {
    forall x | x in h.spans && IsHot(h.spans[x], me)
      ensures h.spans[x].n <= b.n
    {
      assert Belongs(h.spans, BinOf(h.spans[x]), x);
      assert x in List(h.lists, BinOf(h.spans[x]));
    }
  }

  /** What is hot now was hot before. */
  lemma StillHot(h: Heap, h1: Heap, me: nat, m: nat, x: nat)
    requires Cooled(h, h1, me, m) && x in h1.spans && !h1.spans[x].cold
    ensures x in h.spans && h.spans[x] == h1.spans[x] && me in h.total && me in h1.total
  {
  }

  lemma CooledMore(h: Heap, h1: Heap, me: nat, m: nat, b: Bin)
    requires Cooled(h, h1, me, m) && HotUpTo(h1, me, m) && HotUpTo(h1, me, b.n) && b.shard == me && !b.cold && me in h1.total
    requires List(h1.lists, b) != [] && Belongs(h1.spans, b, List(h1.lists, b)[0])
    ensures Cooled(h, Cool(h1, b), me, b.n) && HotUpTo(Cool(h1, b), me, b.n)
  {
    assert b.n <= m;
  }

  /** The hot lists for more than `i` pages are empty. */
  ghost predicate NoneAbove(h: Heap, me: nat, i: nat) {
    forall c | c in h.lists && c.shard == me && !c.cold && c.n > i :: List(h.lists, c) == []
  }

  lemma NoneLeft(h: Heap, me: nat)
    requires Inv(h) && me in h.total && NoneAbove(h, me, 0)
    ensures h.total[me] == 0
  {
    forall n
      ensures List(h.lists, Bin(me, false, n)) == []
    {
      if n == 0 && List(h.lists, Bin(me, false, 0)) != [] {
        FrontBelongs(h, Bin(me, false, 0));
      }
    }
    NoHotPages(h, me);
  }

  lemma HotBounded(h: Heap, me: nat)
    requires Inv(h) && me in h.total
    ensures HotUpTo(h, me, h.total[me])
  {
    forall x | x in h.spans && IsHot(h.spans[x], me)
      ensures h.spans[x].n <= h.total[me]
    {
      TotalCovers(h, x);
    }
  }

  lemma ReclaimedTwice(h: Heap, h1: Heap, h2: Heap, me: nat, limit: nat, m: nat, m': nat)
    requires Reclaimed(h, h1, me, limit, m) && Reclaimed(h1, h2, me, limit, m')
    ensures exists l :: Reclaimed(h, h2, me, limit, l)
  {
    if h1.spans == h2.spans {
      SameSpansCooled(h, h1, h2, m);
      assert Reclaimed(h, h2, me, limit, m);
    } else {
      var x :| x in h1.spans && h1.spans[x] != h2.spans[x];
      assert m' <= h1.spans[x].n <= m;
      if y :| CooledOne(h1, h2, y, m') {
        assert CooledOne(h, h2, y, m');
      }
      assert Reclaimed(h, h2, me, limit, m');
    }
  }

  lemma NothingReclaimed(h: Heap, me: nat, limit: nat)
    requires Inv(h) && me in h.total
    ensures Reclaimed(h, h, me, limit, h.total[me])
  {
    hide InvBut;
    HotBounded(h, me);
  }

  /** What giving span `id` back does: it is free and has absorbed its free neighbours, so that it now
      has none; the spans in use stay as they were, and so do the pages that all spans tile. */
  ghost predicate Released(h: Heap, h': Heap, id: nat)
    requires id in h.spans
  {
    && id in h'.spans && FreeOf(h'.spans[id], h.spans[id].shard) && Alone(h', id)
    && h'.spans[id].page <= h.spans[id].page && h.spans[id].page + h.spans[id].n <= h'.spans[id].page + h'.spans[id].n
    && UsedKept(h.spans, h'.spans, id)
    && h'.cover.Keys == h.cover.Keys && h'.edges == h.edges && h'.leaves == h.leaves
    && h.spans[id].shard in h.total && OthersKept(h.total, h'.total, h.spans[id].shard)
  }

  /** Span `id` has absorbed its free neighbours, and nothing else has changed but that it is hot and free. */
  ghost predicate EntersAs(h: Heap, h': Heap, id: nat) {
    exists h1 :: Merged(h, h1, id) && CanFinish(h1, id) && Alone(h1, id) && h' == Finish(h1, id)
  }

  predicate CanFinish(h: Heap, id: nat) { id in h.spans && h.spans[id].n > 0 && h.spans[id].shard in h.total }

  lemma UsedSpan(h: Heap, id: nat)
    requires Inv(h) && id in h.spans && h.spans[id].use
    ensures InvBut(h, id) && h.spans[id].page > 0 && h.spans[id].shard in h.total
  {
  }

  lemma MergedTwice(h: Heap, h1: Heap, h2: Heap, id: nat)
    requires Merged(h, h1, id) && Merged(h1, h2, id)
    ensures Merged(h, h2, id)
  {
  }

  lemma FinishMerged(h: Heap, h1: Heap, id: nat)
    requires InvBut(h1, id) && Merged(h, h1, id) && Alone(h1, id)
    ensures h1.spans[id].n > 0 && h1.spans[id].shard in h1.total
    ensures Inv(Finish(h1, id)) && Released(h, Finish(h1, id), id)
  {
    hide InvBut;
    FinishInv(h1, id);
    NonEmptySpan(h1, id);
  }

  lemma NonEmptySpan(h: Heap, id: nat)
    requires InvBut(h, id) && id in h.spans
    ensures h.spans[id].n > 0
  {
  }

  lemma CoolReleased(h: Heap, h1: Heap, h2: Heap, id: nat, m: nat)
    requires id in h.spans && Released(h, h1, id) && Cooled(h1, h2, h.spans[id].shard, m)
    ensures Released(h, h2, id)
  {
  }

  class PageHeap {
    var spans: map<nat, Span>
    var pmap: map<nat, nat>
    var leaves: set<nat>
    var lists: map<Bin, seq<nat>>
    var total: map<nat, nat>
    var threshold: map<nat, nat>
    ghost var cover: map<nat, nat>
    ghost var edges: set<nat>

    ghost function State(): Heap
      reads this
    {
      Heap(spans, pmap, leaves, lists, total, cover, edges)
    }

    ghost predicate Valid()
      reads this
    {
      Inv(State()) && threshold.Keys == total.Keys
    }

    /** The shards are initialised and hold nothing. */
    constructor (limits: map<nat, nat>)
      ensures Valid() && spans == map[] && cover == map[] && threshold == limits && total.Keys == limits.Keys
    {
      spans, pmap, leaves, lists := map[], map[], {}, map[];
      total := map me | me in limits :: 0;
      threshold := limits;
      cover, edges := map[], {};
      new;
      forall me | me in total
        ensures total[me] == |HotPages(spans, cover, me)|
      {
        assert HotPages(spans, cover, me) == {};
      }
    }

    /** The loops that map each page of a range. */
    method MapPages(page: nat, k: nat, id: nat)
      modifies this`pmap
      ensures pmap == SetAll(old(pmap), page, k, id)
    {
      var i := 0;
      while i < k
        invariant i <= k
        invariant pmap == SetAll(old(pmap), page, i, id)
      {
        pmap := pmap[page + i := id];
        i := i + 1;
      }
    }

    /** The part the three allocation functions have in common: what is left over after `k` pages
        becomes span `spare` and goes to a list as hot or cold as the one it came from. */
    method SplitOff(b: Bin, k: nat, id: nat, spare: nat)
      requires id in spans && k < spans[id].n && b.shard in total
      modifies this`spans, this`pmap, this`lists, this`total, this`cover
      ensures var s := old(spans[id]); var rest := Span(s.page + k, s.n - k, false, b.cold, b.shard);
              && spans == old(spans)[id := s.(n := k)][spare := rest]
              && lists == Push(old(lists), BinOf(rest), spare)
              && total == (if b.cold then old(total) else old(total)[b.shard := old(total)[b.shard] + rest.n])
              && pmap == SetEnds(old(pmap), rest, spare)
              && cover == SetAll(old(cover), rest.page, rest.n, spare)
      ensures old(lists).Keys <= lists.Keys
    {
      var s := spans[id];
      var split := Span(s.page + k, s.n - k, false, b.cold, b.shard);
      spans := spans[id := s.(n := k)][spare := split];
      lists := Push(lists, Bin(b.shard, b.cold, split.n), spare);
      if !b.cold {
        total := total[b.shard := total[b.shard] + split.n];
      }
      pmap := pmap[split.page := spare];
      pmap := pmap[split.page + split.n - 1 := spare];
      cover := SetAll(cover, split.page, split.n, spare);
    }

    /** The second half of the three methods below: what is beyond `k` pages is split off, and the pages
        of the front are mapped. */
    method CutFront(b: Bin, k: nat, id: nat, spare: nat)
      requires id in spans && 0 < k <= spans[id].n && b.shard in total && spare != id
      modifies this`spans, this`pmap, this`lists, this`total, this`cover
      ensures var s := old(spans[id]); var rest := Span(s.page + k, if s.n > k then s.n - k else 0, false, b.cold, b.shard);
              if s.n > k then
                && spans == old(spans)[id := s.(n := k)][spare := rest][id := s.(n := k, use := true, cold := false)]
                && lists == Push(old(lists), BinOf(rest), spare)
                && total == (if b.cold then old(total) else old(total)[b.shard := old(total)[b.shard] + rest.n])
                && pmap == SetAll(SetEnds(old(pmap), rest, spare), s.page, k, id)
                && cover == SetAll(old(cover), rest.page, rest.n, spare)
              else
                && spans == old(spans)[id := s.(use := true, cold := false)] && lists == old(lists) && total == old(total)
                && pmap == SetAll(old(pmap), s.page, k, id) && cover == old(cover)
      ensures old(lists).Keys <= lists.Keys
    {
      hide SetAll, SetEnds, Push;
      var s := spans[id];
      if s.n > k {
        SplitOff(b, k, id, spare);
      }
      MapPages(s.page, k, id);
      spans := spans[id := spans[id].(use := true, cold := false)];
    }

    method AllocFromHotList(b: Bin, k: nat, spare: nat) returns (id: nat)
      requires CanCarve(State(), b, k, spare) && !b.cold && b.n < NPAGES && total[b.shard] >= b.n
      modifies this`spans, this`pmap, this`lists, this`total, this`cover
      ensures State() == Carve(old(State()), b, k, spare) && id == old(List(lists, b)[0])
    {
      hide SetAll, SetEnds, Carve, Push;
      id := lists[b][0];
      lists := lists[b := lists[b][1..]];
      var s := spans[id];
      TakeAndPutBack(total, s, k);
      total := total[b.shard := total[b.shard] - s.n];
      CutFront(b, k, id, spare);
      CarveIs(old(State()), State(), b, k, spare, id, s, Span(s.page + k, if s.n > k then s.n - k else 0, false, b.cold, b.shard));
    }

    method AllocFromColdList(b: Bin, k: nat, spare: nat) returns (id: nat)
      requires CanCarve(State(), b, k, spare) && b.cold && b.n < NPAGES
      modifies this`spans, this`pmap, this`lists, this`total, this`cover
      ensures State() == Carve(old(State()), b, k, spare) && id == old(List(lists, b)[0])
    {
      hide SetAll, SetEnds, Carve, Push;
      id := lists[b][0];
      lists := lists[b := lists[b][1..]];
      var s := spans[id];
      CutFront(b, k, id, spare);
      CarveIs(old(State()), State(), b, k, spare, id, s, Span(s.page + k, if s.n > k then s.n - k else 0, false, b.cold, b.shard));
    }

    /** The map version, hot or cold, which drops the entry it has emptied. */
    method AllocFromMap(b: Bin, k: nat, spare: nat) returns (id: nat)
      requires CanCarve(State(), b, k, spare) && b.n >= NPAGES && (b.cold || total[b.shard] >= b.n)
      modifies this`spans, this`pmap, this`lists, this`total, this`cover
      ensures Tidied(Carve(old(State()), b, k, spare), State()) && id == old(List(lists, b)[0])
    {
      hide SetAll, SetEnds, Carve, Push;
      id := lists[b][0];
      lists := lists[b := lists[b][1..]];
      var s := spans[id];
      if !b.cold {
        TakeAndPutBack(total, s, k);
        total := total[b.shard := total[b.shard] - s.n];
      }
      CutFront(b, k, id, spare);
      CarveIs(old(State()), State(), b, k, spare, id, s, Span(s.page + k, if s.n > k then s.n - k else 0, false, b.cold, b.shard));
      EraseIfEmpty(b);
    }

    method EraseIfEmpty(b: Bin)
      requires b in lists
      modifies this`lists
      ensures Tidied(old(State()), State()) && (old(lists)[b] == [] ==> lists == old(lists) - {b})
    {
      if lists[b] == [] {
        lists := lists - {b};
      }
    }

    /** `lower_bound(k)` on the hot or cold ordered map: the entry with the smallest key from `k` on. */
    method LowerBound(me: nat, cold: bool, k: nat) returns (b: Bin, found: bool)
      ensures found ==> IsLowerBound(lists, me, cold, k, b)
      ensures !found ==> forall c | c in lists :: !InMap(c, me, cold, k)
    {
      var todo := lists.Keys;
      b, found := Bin(me, cold, 0), false;
      while todo != {}
        invariant todo <= lists.Keys
        invariant found ==> b in lists && InMap(b, me, cold, k)
        invariant forall c | c in lists && c !in todo && InMap(c, me, cold, k) :: found && b.n <= c.n
      {
        var c :| c in todo;
        if InMap(c, me, cold, k) && (!found || c.n < b.n) {
          b, found := c, true;
        }
        todo := todo - {c};
      }
    }

    /** Phase 1 (hot) or phase 2 (cold) of `NewSpan`: the array, then the map. `again` says that an entry
        of the map that a merge has left empty was erased and the search has to start over. */
    method TakeKind(me: nat, cold: bool, k: nat, spare: nat) returns (found: bool, again: bool, id: nat, ghost b: Bin)
      requires Valid() && k > 0 && spare > 0 && spare !in spans
      modifies this`spans, this`pmap, this`lists, this`total, this`cover
      ensures again ==> !found && Valid() && Tidied(old(State()), State()) && |lists| < |old(lists)|
      ensures !found && !again ==> State() == old(State()) && NoneOfKind(State(), me, cold, k)
      ensures found ==> b.shard == me && b.cold == cold && SmallestOfKind(old(State()), b, k) && CanCarve(old(State()), b, k, spare)
      ensures found ==> id == List(old(lists), b)[0] && Tidied(Carve(old(State()), b, k, spare), State())
    {
      hide InvBut;
      var fit, hit := SmallFit(me, cold, k);
      b := fit;
      if hit {
        CanTake(State(), fit, k, spare);
        assert SmallestOfKind(State(), fit, k);
        if cold {
          id := AllocFromColdList(fit, k, spare);
        } else {
          id := AllocFromHotList(fit, k, spare);
        }
        return true, false, id, fit;
      }
      fit, hit := LowerBound(me, cold, k);
      if hit {
        if lists[fit] == [] {
          TidiedInv(State(), State().(lists := lists - {fit}));
          EraseIfEmpty(fit);
          return false, true, 0, fit;
        }
        CanTake(State(), fit, k, spare);
        assert SmallestOfKind(State(), fit, k);
        id := AllocFromMap(fit, k, spare);
        return true, false, id, fit;
      }
      return false, false, 0, fit;
    }

    /** The cached part of `NewSpan`, which goes round once more for every empty entry it erases. */
    method TakeCached(me: nat, k: nat, spare: nat) returns (found: bool, id: nat, ghost b: Bin)
      requires Valid() && k > 0 && spare > 0 && spare !in spans
      modifies this`spans, this`pmap, this`lists, this`total, this`cover
      ensures Valid()
      ensures !found ==> NothingFits(old(State()), me, k) && Tidied(old(State()), State())
      ensures found ==> BestFit(old(State()), me, k, b) && CanCarve(old(State()), b, k, spare)
      ensures found ==> id == List(old(lists), b)[0] && Tidied(Carve(old(State()), b, k, spare), State())
    {
      hide InvBut, Tidied, Carve, BestFit, SmallestOfKind, NoneOfKind, NothingFits;
      ghost var h := State();
      TidiedSelf(h);
      while true
        invariant Valid() && Tidied(h, State()) && spare !in spans
        decreases |lists|
      {
        ghost var h1 := State();
        var again;
        found, again, id, b := TakeKind(me, false, k, spare);
        if again {
          TidiedTwice(h, h1, State());
          continue;
        }
        if found {
          TookBest(h, h1, State(), me, k, b, spare);
          return;
        }
        found, again, id, b := TakeKind(me, true, k, spare);
        if again {
          TidiedTwice(h, h1, State());
          continue;
        }
        if found {
          TookBest(h, h1, State(), me, k, b, spare);
          return;
        }
        NothingOfEither(h, h1, me, k);
        return;
      }
    }

    /** The search of the hot or cold array, upward from `k`. */
    method SmallFit(me: nat, cold: bool, k: nat) returns (b: Bin, found: bool)
      ensures found ==> b == Bin(me, cold, b.n) && k <= b.n < NPAGES && List(lists, b) != []
      ensures found ==> forall n | k <= n < b.n :: List(lists, Bin(me, cold, n)) == []
      ensures !found ==> forall n | k <= n < NPAGES :: List(lists, Bin(me, cold, n)) == []
    {
      var i := k;
      while i < NPAGES
        invariant forall n | k <= n < i && n < NPAGES :: List(lists, Bin(me, cold, n)) == []
      {
        if List(lists, Bin(me, cold, i)) != [] {
          return Bin(me, cold, i), true;
        }
        i := i + 1;
      }
      return Bin(me, cold, k), false;
    }

    /** `PageMap::set`: fails, with nothing changed, when the page has no leaf and none can be allocated;
        `fails` holds the leaves for which the system has no memory. */
    method SetEntry(p: nat, id: nat, fails: set<nat>) returns (ok: bool)
      modifies this`pmap, this`leaves
      ensures ok <==> CanMap(old(leaves), fails, p)
      ensures old(leaves) <= leaves
      ensures ok ==> pmap == old(pmap)[p := id] && leaves == old(leaves) + {Leaf(p)}
      ensures !ok ==> pmap == old(pmap) && leaves == old(leaves)
    {
      if p >= PAGE_LIMIT || (Leaf(p) !in leaves && Leaf(p) in fails) {
        return false;
      }
      leaves := leaves + {Leaf(p)};
      pmap := pmap[p := id];
      return true;
    }

    /** All pages of a large range; on failure the entries already made are taken back. */
    method MapLarge(page: nat, n: nat, id: nat, fails: set<nat>) returns (ok: bool)
      requires forall p: nat | InRange(p, page, n) :: p !in pmap
      modifies this`pmap, this`leaves
      ensures ok <==> forall p: nat | InRange(p, page, n) :: CanMap(old(leaves), fails, p)
      ensures old(leaves) <= leaves
      ensures ok ==> pmap == SetAll(old(pmap), page, n, id) && forall p: nat | InRange(p, page, n) :: Leaf(p) in leaves
      ensures !ok ==> pmap == old(pmap)
    {
      hide SetAll, Pages;
      var mapped := 0;
      ok := true;
      SetNothing(pmap, page, id);
      while mapped < n && ok
        invariant mapped <= n && old(leaves) <= leaves
        invariant pmap == SetAll(old(pmap), page, mapped, id)
        invariant forall p: nat | InRange(p, page, mapped) :: CanMap(old(leaves), fails, p) && Leaf(p) in leaves
        invariant forall l | l in leaves && l !in old(leaves) :: l !in fails
        invariant !ok ==> mapped < n && !CanMap(old(leaves), fails, page + mapped)
        decreases n - mapped, ok
      {
        SetNext(old(pmap), page, mapped, id);
        ok := SetEntry(page + mapped, id, fails);
        if ok {
          mapped := mapped + 1;
        }
      }
      if !ok {
        assert InRange(page + mapped, page, n);
        Unmap(page, mapped);
        SetAndUnset(old(pmap), page, mapped, id);
      }
    }

    method Unmap(page: nat, n: nat)
      modifies this`pmap
      ensures pmap == old(pmap) - Pages(page, n)
    {
      var j := 0;
      while j < n
        invariant j <= n
        invariant pmap == old(pmap) - Pages(page, j)
      {
        pmap := pmap - {page + j};
        j := j + 1;
      }
    }

    /** The first and the last page of a small range, which lie in at most two leaves. */
    method MapEnds(s: Span, id: nat, fails: set<nat>) returns (ok: bool)
      requires 0 < s.n < NPAGES && forall p: nat | InRange(p, s.page, s.n) :: p !in pmap
      modifies this`pmap, this`leaves
      ensures ok <==> CanMap(old(leaves), fails, s.page) && CanMap(old(leaves), fails, s.page + s.n - 1)
      ensures old(leaves) <= leaves
      ensures ok ==> pmap == SetEnds(old(pmap), s, id) && forall p: nat | InRange(p, s.page, s.n) :: p < PAGE_LIMIT && Leaf(p) in leaves
      ensures !ok ==> pmap == old(pmap)
    {
      assert InRange(s.page, s.page, s.n);
      ok := SetEntry(s.page, id, fails);
      if ok {
        ok := SetEntry(s.page + s.n - 1, id, fails);
        if !ok {
          pmap := pmap - {s.page};
          assert pmap == old(pmap);
        } else {
          forall p: nat | InRange(p, s.page, s.n)
            ensures Leaf(p) in leaves
          {
            LeafBetween(s.page, s.n, p);
          }
        }
      }
    }

    /** `NewSpan` after it has its lock back, with the `n` pages from `page` on that the system gave it:
        span `id` is made for them. It fails, leaving all but the radix tree's nodes as it was, exactly
        when a page that has to be mapped cannot be. */
    method AddFromSystem(me: nat, k: nat, page: nat, id: nat, fails: set<nat>) returns (ok: bool)
      requires Valid() && me in total && k > 0 && page > 0 && id > 0 && id !in spans
      requires forall p | p in cover :: !InRange(p, page, RangePages(k))
      modifies this
      ensures Valid() && threshold == old(threshold) && old(leaves) <= leaves
      ensures ok <==> if k < NPAGES then CanMap(old(leaves), fails, page) && CanMap(old(leaves), fails, page + RangePages(k) - 1)
                      else forall p: nat | InRange(p, page, k) :: CanMap(old(leaves), fails, p)
      ensures ok ==> State() == AddRange(old(State()).(leaves := leaves), me, page, RangePages(k), id, k >= NPAGES)
      ensures !ok ==> State() == old(State()).(leaves := leaves)
    {
      hide InvBut;
      ghost var h := State();
      var span := Span(page, RangePages(k), k >= NPAGES, false, me);
      NothingMapped(h, page, span.n);
      if k >= NPAGES {
        ok := MapLarge(page, k, id, fails);
      } else {
        ok := MapEnds(span, id, fails);
      }
      GrowLeaves(h, leaves);
      if ok {
        CanAdd(h.(leaves := leaves), me, span, id);
        Install(span, id);
      }
    }

    /** The new span is entered and, unless it is large, put on its hot list. */
    method Install(span: Span, id: nat)
      requires span.shard in total && span.n > 0 && !span.cold
      modifies this`spans, this`lists, this`total, this`cover, this`edges
      ensures spans == old(spans)[id := span] && cover == SetAll(old(cover), span.page, span.n, id) && edges == old(edges) + {span.page}
      ensures lists == (if span.use then old(lists) else Push(old(lists), BinOf(span), id))
      ensures total == (if span.use then old(total) else old(total)[span.shard := old(total)[span.shard] + span.n])
    {
      spans := spans[id := span];
      cover, edges := SetAll(cover, span.page, span.n, id), edges + {span.page};
      if !span.use {
        lists := Push(lists, BinOf(span), id);
        total := total[span.shard := total[span.shard] + span.n];
      }
    }

    /** The second section of `NewSpan`: a range of fewer than `NPAGES` pages went to the hot lists, and
        going round again always finds something. */
    method NewSpanFromSystem(me: nat, k: nat, page: nat, id: nat, spare: nat, fails: set<nat>) returns (ok: bool, got: nat)
      requires Valid() && me in total && k > 0 && page > 0 && id > 0 && id !in spans && spare > 0 && spare !in spans && spare != id
      requires forall p | p in cover :: !InRange(p, page, RangePages(k))
      modifies this
      ensures Valid() && threshold == old(threshold)
      ensures ok <==> if k < NPAGES then CanMap(old(leaves), fails, page) && CanMap(old(leaves), fails, page + RangePages(k) - 1)
                      else forall p: nat | InRange(p, page, k) :: CanMap(old(leaves), fails, p)
      ensures ok ==> got in spans && spans[got] == Span(spans[got].page, k, true, false, me)
      ensures ok ==> forall p: nat | InRange(p, spans[got].page, k) :: p in pmap && pmap[p] == got
      ensures ok ==> cover.Keys == old(cover).Keys + Pages(page, RangePages(k))
      ensures forall x | x in old(spans) && old(spans)[x].use :: x in spans && spans[x] == old(spans)[x] && (ok ==> x != got)
      ensures forall x | x in spans && spans[x].use && (ok ==> x != got) :: x in old(spans) && old(spans)[x] == spans[x]
      ensures !ok ==> State() == old(State()).(leaves := leaves)
    {
      hide InvBut;
      ok := AddFromSystem(me, k, page, id, fails);
      if !ok {
        return false, 0;
      }
      ghost var h1 := State();
      AddedFacts(old(State()).(leaves := leaves), me, page, RangePages(k), id, k >= NPAGES);
      if k >= NPAGES {
        return true, id;
      }
      ghost var b;
      var found;
      found, got, b := TakeCached(me, k, spare);
      assert List(h1.lists, Bin(me, false, RangePages(k))) != [];
      assert found;
      CoverOf(h1);
      CarveGives(h1, b, k, spare);
    }

    /** A neighbour leaves its list and becomes part of span `id`; its object is deleted. */
    method Absorb(id: nat, nb: nat)
      requires CanMerge(State(), id, nb) && (spans[nb].cold || total[spans[nb].shard] >= spans[nb].n)
      modifies this`spans, this`lists, this`total, this`cover
      ensures State() == Merge(old(State()), id, nb)
    {
      var s, t := spans[id], spans[nb];
      lists := Unlink(lists, nb);
      if !t.cold {
        total := total[t.shard := total[t.shard] - t.n];
      }
      cover := SetAll(cover, t.page, t.n, id);
      spans := (spans - {nb})[id := Union(s, t)];
    }

    /** One turn of a merge loop: looks page `p` up, just before or just after span `id`, and absorbs
        the span found there if it is free and of the same shard. */
    method TryMerge(id: nat, p: nat) returns (merged: bool, ghost nb: nat)
      requires InvBut(State(), id) && id in spans && spans[id].use && spans[id].page > 0
      requires p + 1 == spans[id].page || p == spans[id].page + spans[id].n
      modifies this`spans, this`lists, this`total, this`cover
      ensures InvBut(State(), id)
      ensures !merged ==> State() == old(State()) && NotFreeAt(spans, cover, p, spans[id].shard)
      ensures merged ==> CanMerge(old(State()), id, nb) && State() == Merge(old(State()), id, nb) && cover.Keys == old(cover).Keys
      ensures merged ==> old(spans)[nb].page > 0 && InSpan(old(spans)[nb], p)
    {
      NeighbourLookup(State(), id, p);
      merged, nb := false, 0;
      if p in pmap && !spans[pmap[p]].use && spans[pmap[p]].shard == spans[id].shard {
        merged, nb := true, pmap[p];
        CanAbsorb(State(), id, pmap[p]);
        Absorb(id, pmap[p]);
      }
    }

    /** The loop that merges to the left. */
    method MergeLeft(id: nat)
      requires InvBut(State(), id) && id in spans && spans[id].use && spans[id].page > 0 && spans[id].shard in total
      modifies this`spans, this`lists, this`total, this`cover
      ensures InvBut(State(), id) && Merged(old(State()), State(), id)
      ensures NotFreeAt(spans, cover, spans[id].page - 1, spans[id].shard)
    {
      hide InvBut;
      var more := true;
      while more
        invariant InvBut(State(), id) && Merged(old(State()), State(), id)
        invariant !more ==> NotFreeAt(spans, cover, spans[id].page - 1, spans[id].shard)
        decreases |spans|, more
      {
        ghost var h, nb := State(), 0;
        more, nb := TryMerge(id, spans[id].page - 1);
        if more {
          AbsorbNext(old(State()), h, id, nb);
        }
      }
    }

    method MergeRight(id: nat)
      requires InvBut(State(), id) && id in spans && spans[id].use && spans[id].page > 0 && spans[id].shard in total
      requires NotFreeAt(spans, cover, spans[id].page - 1, spans[id].shard)
      modifies this`spans, this`lists, this`total, this`cover
      ensures InvBut(State(), id) && Merged(old(State()), State(), id) && Alone(State(), id)
    {
      hide InvBut, NotFreeAt;
      var more := true;
      while more
        invariant InvBut(State(), id) && Merged(old(State()), State(), id)
        invariant NotFreeAt(spans, cover, spans[id].page - 1, spans[id].shard)
        invariant !more ==> NotFreeAt(spans, cover, spans[id].page + spans[id].n, spans[id].shard)
        decreases |spans|, more
      {
        ghost var h, nb := State(), 0;
        more, nb := TryMerge(id, spans[id].page + spans[id].n);
        if more {
          AbsorbNext(old(State()), h, id, nb);
          AbsorbRightKeepsLeft(h, id, nb);
        }
      }
    }

    /** The merged span becomes hot and free: only its first and last page are mapped. */
    method EnterFree(id: nat)
      requires id in spans && spans[id].n > 0 && spans[id].shard in total
      modifies this`spans, this`pmap, this`lists, this`total
      ensures State() == Finish(old(State()), id)
    {
      var s := spans[id].(use := false, cold := false);
      spans := spans[id := s];
      pmap := pmap[s.page := id];
      pmap := pmap[s.page + s.n - 1 := id];
      lists := Push(lists, BinOf(s), id);
      total := total[s.shard := total[s.shard] + s.n];
    }

    /** `ReleaseSpanToCold` on the front span of a hot list. */
    method CoolFront(b: Bin)
      requires List(lists, b) != [] && Belongs(spans, b, List(lists, b)[0]) && !b.cold && b.shard in total && total[b.shard] >= b.n
      modifies this`spans, this`lists, this`total
      ensures State() == Cool(old(State()), b)
    {
      var id := lists[b][0];
      lists := lists[b := lists[b][1..]];
      total := total[b.shard := total[b.shard] - spans[id].n];
      spans := spans[id := spans[id].(cold := true)];
      lists := Push(lists, Bin(b.shard, true, spans[id].n), id);
    }

    /** The last entry of the hot map. */
    method LastEntry(me: nat) returns (b: Bin, found: bool)
      ensures found ==> b in lists && InMap(b, me, false, 0)
      ensures forall c | c in lists && InMap(c, me, false, 0) :: found && c.n <= b.n
    {
      var todo := lists.Keys;
      b, found := Bin(me, false, 0), false;
      while todo != {}
        invariant todo <= lists.Keys
        invariant found ==> b in lists && InMap(b, me, false, 0)
        invariant forall c | c in lists && c !in todo && InMap(c, me, false, 0) :: found && c.n <= b.n
      {
        var c :| c in todo;
        if InMap(c, me, false, 0) && (!found || b.n < c.n) {
          b, found := c, true;
        }
        todo := todo - {c};
      }
    }

    /** The first loop of `ReleaseSomeSpansToSystem`: the largest entry of the hot map, again and again. */
    method CoolLarge(me: nat, ghost m: nat) returns (ghost m': nat)
      requires Valid() && me in total && Reclaimed(State(), State(), me, threshold[me], m)
      modifies this`spans, this`lists, this`total
      ensures Inv(State()) && Reclaimed(old(State()), State(), me, threshold[me], m')
      ensures total[me] <= threshold[me] || forall c | c in lists :: !InMap(c, me, false, 0)
    {
      hide InvBut;
      m' := m;
      var b, found := LastEntry(me);
      while total[me] > threshold[me] && found
        invariant Inv(State()) && Reclaimed(old(State()), State(), me, threshold[me], m')
        invariant found ==> b in lists && InMap(b, me, false, 0)
        invariant forall c | c in lists && InMap(c, me, false, 0) :: found && c.n <= b.n
        decreases total[me], |lists|
      {
        if lists[b] == [] {
          DropEmpty(old(State()), State(), me, threshold[me], m', b);
          EraseIfEmpty(b);
        } else {
          CanCool(old(State()), State(), me, threshold[me], m', b);
          m' := b.n;
          CoolFront(b);
        }
        b, found := LastEntry(me);
      }
    }

    /** The second loop: the hot array from the largest size down, until the counter is low enough. */
    method CoolSmall(me: nat, ghost m: nat) returns (ghost m': nat)
      requires Valid() && me in total && Reclaimed(State(), State(), me, threshold[me], m)
      requires total[me] > threshold[me] ==> forall c | c in lists :: !InMap(c, me, false, 0)
      modifies this`spans, this`lists, this`total
      ensures Inv(State()) && Reclaimed(old(State()), State(), me, threshold[me], m')
      ensures total[me] <= threshold[me]
    {
      hide InvBut;
      m' := m;
      var i: nat := NPAGES - 1;
      while i > 0 && total[me] > threshold[me]
        invariant i < NPAGES
        invariant Inv(State()) && Reclaimed(old(State()), State(), me, threshold[me], m')
        invariant total[me] > threshold[me] ==> NoneAbove(State(), me, i)
      {
        var b := Bin(me, false, i);
        while total[me] > threshold[me] && List(lists, b) != []
          invariant Inv(State()) && Reclaimed(old(State()), State(), me, threshold[me], m')
          invariant total[me] > threshold[me] ==> NoneAbove(State(), me, i)
          decreases total[me]
        {
          CanCool(old(State()), State(), me, threshold[me], m', b);
          m' := i;
          CoolFront(b);
        }
        i := i - 1;
      }
      if total[me] > threshold[me] {
        NoneLeft(State(), me);
      }
    }

    method ReleaseSomeSpansToSystem(me: nat)
      requires Valid() && me in total
      modifies this`spans, this`lists, this`total
      ensures Valid() && total[me] <= threshold[me]
      ensures exists m :: Reclaimed(old(State()), State(), me, threshold[me], m)
    {
      hide InvBut;
      ghost var h := State();
      NothingReclaimed(h, me, threshold[me]);
      ghost var m := CoolLarge(me, total[me]);
      ghost var h1 := State();
      NothingReclaimed(h1, me, threshold[me]);
      ghost var m' := CoolSmall(me, total[me]);
      ReclaimedTwice(h, h1, State(), me, threshold[me], m, m');
    }

    /** `ReleaseSpan`: merge with free neighbours on both sides, enter as hot and free, and bring the
        counter back under the threshold. */
    method ReleaseSpan(id: nat)
      requires Valid() && id in spans && spans[id].use
      modifies this`spans, this`pmap, this`lists, this`total, this`cover
      ensures Valid()
      ensures Released(old(State()), State(), id)
      ensures total[spans[id].shard] <= threshold[spans[id].shard]
      ensures exists h, m :: EntersAs(old(State()), h, id) && Reclaimed(h, State(), spans[id].shard, threshold[spans[id].shard], m)
    {
      hide InvBut;
      ghost var h := State();
      UsedSpan(h, id);
      MergeLeft(id);
      ghost var h1 := State();
      MergeRight(id);
      ghost var h2 := State();
      MergedTwice(h, h1, h2, id);
      FinishMerged(h, h2, id);
      EnterFree(id);
      ghost var h3 := State();
      assert EntersAs(h, h3, id);
      var me := spans[id].shard;
      if total[me] > threshold[me] {
        ReleaseSomeSpansToSystem(me);
        ghost var m :| Reclaimed(h3, State(), me, threshold[me], m);
        CoolReleased(h, h3, State(), id, m);
      } else {
        NothingReclaimed(h3, me, threshold[me]);
      }
    }
  }
}
