/** KzAlloc/PageCache.cpp: page spans that are split, merged and kept in hot and cold containers. All
    shards are modelled at once: `Bin` says whose list it is. The page map is flat here; module
    PageMap shows that the radix tree is this map. Each section under a shard's lock is one step. */
module PageCache {
  import opened Lists

  /** Spans of fewer pages are kept in arrays, the others in ordered maps. */
  const NPAGES: nat := 129
  const LEAF_PAGES: nat := 2048
  const PAGE_LIMIT: nat := 0x8_0000_0000

  datatype Span = Span(page: nat, n: nat, use: bool, cold: bool, shard: nat)

  /** The list of shard `shard` for its hot or cold spans of `n` pages. */
  datatype Bin = Bin(shard: nat, cold: bool, n: nat)

  /** `spans` holds the live `Span` objects by address, `pmap` the page map with null left out, and
      `leaves` the allocated leaves of the radix tree. A large bin is in `lists` if its map has an
      entry for it; a small bin that is not in `lists` is empty. The last two components are
      history: the live span on each page obtained from the system, and the first pages of the
      ranges they came in. */
  datatype Heap = Heap(
    spans: map<nat, Span>, pmap: map<nat, nat>, leaves: set<nat>, lists: map<Bin, seq<nat>>, total: map<nat, nat>,
    cover: map<nat, nat>, edges: set<nat>)

  predicate InSpan(s: Span, p: nat) { s.page <= p < s.page + s.n }

  predicate InRange(p: nat, page: nat, n: nat) { page <= p < page + n }

  function Pages(page: nat, n: nat): set<nat> { set p: nat | page <= p < page + n && InRange(p, page, n) }

  function Leaf(p: nat): nat { p / LEAF_PAGES }

  function BinOf(s: Span): Bin { Bin(s.shard, s.cold, s.n) }

  function List(lists: map<Bin, seq<nat>>, b: Bin): seq<nat> { if b in lists then lists[b] else [] }

  function Push(lists: map<Bin, seq<nat>>, b: Bin, id: nat): map<Bin, seq<nat>> { lists[b := [id] + List(lists, b)] }

  function Pop(lists: map<Bin, seq<nat>>, b: Bin): map<Bin, seq<nat>>
    requires List(lists, b) != []
  {
    lists[b := List(lists, b)[1..]]
  }

  /** `Span::Remove`: out of whichever list the span is in. */
  function Unlink(lists: map<Bin, seq<nat>>, id: nat): map<Bin, seq<nat>> {
    map b | b in lists :: Without(lists[b], id)
  }

  function SetAll(m: map<nat, nat>, page: nat, n: nat, id: nat): map<nat, nat> {
    m + map p: nat | page <= p < page + n && InRange(p, page, n) :: id
  }

  function SetEnds(m: map<nat, nat>, s: Span, id: nat): map<nat, nat>
    requires s.n > 0
  {
    m[s.page := id][s.page + s.n - 1 := id]
  }

  // ---------------------------------------------------------------- the invariant

  /** The live spans tile the pages in `cover`. */
  ghost predicate CoverInv(spans: map<nat, Span>, cover: map<nat, nat>) {
    && (forall id | id in spans :: id > 0 && spans[id].n > 0 && spans[id].page > 0)
    && (forall p | p in cover :: cover[p] in spans && InSpan(spans[cover[p]], p))
    && (forall id, p {:trigger InSpan(spans[id], p)} | id in spans && InSpan(spans[id], p) :: p in cover && cover[p] == id)
  }

  predicate MustMap(s: Span, p: nat) { s.use || p == s.page || p == s.page + s.n - 1 }

  /** Every page of a span in use, and the first and last page of a free one, map to it; a page that
      was not obtained from the system maps to null. Nothing is said about the inside of a free
      span, nor about span `skip`. */
  ghost predicate MapInv(spans: map<nat, Span>, cover: map<nat, nat>, pmap: map<nat, nat>, skip: nat) {
    && pmap.Keys <= cover.Keys
    && (forall p | p in cover && cover[p] != skip && cover[p] in spans && MustMap(spans[cover[p]], p) ::
         p in pmap && pmap[p] == cover[p])
  }

  predicate FreeTogether(s: Span, t: Span) { !s.use && !t.use && s.shard == t.shard }

  /** `p` is the first page of a span whose left neighbour is free in the same shard, as it is. */
  predicate Mergeable(spans: map<nat, Span>, cover: map<nat, nat>, p: nat) {
    && p > 0 && p in cover && p - 1 in cover && cover[p - 1] != cover[p] && cover[p] in spans && cover[p - 1] in spans
    && FreeTogether(spans[cover[p - 1]], spans[cover[p]])
  }

  /** Free spans of one shard touch only where two ranges from the system do. */
  ghost predicate EdgeInv(spans: map<nat, Span>, cover: map<nat, nat>, edges: set<nat>) {
    && (forall p: nat | p in cover && p > 0 && p - 1 !in cover :: p in edges)
    && (forall p: nat {:trigger Mergeable(spans, cover, p)} | Mergeable(spans, cover, p) :: p in edges)
  }

  predicate IsHot(s: Span, me: nat) { !s.use && !s.cold && s.shard == me }

  function HotPages(spans: map<nat, Span>, cover: map<nat, nat>, me: nat): set<nat> {
    set p | p in cover && cover[p] in spans && IsHot(spans[cover[p]], me)
  }

  /** `_totalFreePages` is the number of pages in the shard's hot free spans. */
  ghost predicate HotInv(spans: map<nat, Span>, cover: map<nat, nat>, total: map<nat, nat>) {
    && (forall me | me in total :: total[me] == |HotPages(spans, cover, me)|)
    && (forall id | id in spans :: spans[id].shard in total)
  }

  predicate Belongs(spans: map<nat, Span>, b: Bin, id: nat) { id in spans && !spans[id].use && BinOf(spans[id]) == b }

  /** Every free span is in its own bin, once, and bins hold nothing else. */
  ghost predicate ListsInv(spans: map<nat, Span>, lists: map<Bin, seq<nat>>) {
    && (forall b | b in lists :: NoRepeats(lists[b]))
    && (forall b, id {:trigger id in List(lists, b)} :: id in List(lists, b) <==> Belongs(spans, b, id))
  }

  /** The radix tree has a leaf for every page. */
  ghost predicate LeavesInv(cover: map<nat, nat>, leaves: set<nat>) {
    forall p | p in cover :: p < PAGE_LIMIT && Leaf(p) in leaves
  }

  /** The invariant while span `skip` is being merged: only its own page map entries may be behind. */
  ghost predicate InvBut(h: Heap, skip: nat) {
    && CoverInv(h.spans, h.cover)
    && MapInv(h.spans, h.cover, h.pmap, skip)
    && EdgeInv(h.spans, h.cover, h.edges)
    && HotInv(h.spans, h.cover, h.total)
    && ListsInv(h.spans, h.lists)
    && LeavesInv(h.cover, h.leaves)
  }

  ghost predicate Inv(h: Heap) { InvBut(h, 0) }

  // ---------------------------------------------------------------- sequences and sets

  lemma {:induction false} PagesCount(page: nat, n: nat)
    ensures |Pages(page, n)| == n
  {
    if n == 0 {
      assert Pages(page, n) == {};
    } else {
      PagesCount(page, n - 1);
      assert Pages(page, n) == Pages(page, n - 1) + {page + n - 1};
    }
  }

  lemma SubsetCount(s: set<nat>, t: set<nat>)
    requires t <= s
    ensures |s - t| == |s| - |t|
  {
    assert s == (s - t) + t;
  }

  // ---------------------------------------------------------------- lists

  lemma PushKeepsLists(spans: map<nat, Span>, lists: map<Bin, seq<nat>>, id: nat, s: Span)
    requires ListsInv(spans, lists) && !s.use && (id in spans ==> spans[id].use)
    ensures ListsInv(spans[id := s], Push(lists, BinOf(s), id))
  {
    var lists' := Push(lists, BinOf(s), id);
    assert id in List(lists, BinOf(s)) <==> Belongs(spans, BinOf(s), id);
    forall b, x
      ensures x in List(lists', b) <==> Belongs(spans[id := s], b, x)
    {
      assert x in List(lists, b) <==> Belongs(spans, b, x);
    }
  }

  /** The front span of a bin leaves it and is in use. */
  lemma PopKeepsLists(spans: map<nat, Span>, lists: map<Bin, seq<nat>>, b: Bin, s: Span)
    requires ListsInv(spans, lists) && List(lists, b) != [] && s.use
    ensures Belongs(spans, b, List(lists, b)[0])
    ensures ListsInv(spans[List(lists, b)[0] := s], Pop(lists, b))
  {
    var id, lists' := List(lists, b)[0], Pop(lists, b);
    assert id in List(lists, b) <==> Belongs(spans, b, id);
    var l := lists[b];
    assert l == [id] + l[1..];
    TailHasNoRepeats(l);
    forall c, x
      ensures x in List(lists', c) <==> Belongs(spans[id := s], c, x)
    {
      assert x in List(lists, c) <==> Belongs(spans, c, x);
    }
  }

  lemma UnlinkKeepsLists(spans: map<nat, Span>, lists: map<Bin, seq<nat>>, id: nat)
    requires ListsInv(spans, lists)
    ensures ListsInv(spans - {id}, Unlink(lists, id))
  {
    forall b | b in lists
      ensures NoRepeats(Without(lists[b], id))
    {
      WithoutFacts(lists[b], id);
    }
    forall b, x
      ensures x in List(Unlink(lists, id), b) <==> Belongs(spans - {id}, b, x)
    {
      WithoutFacts(List(lists, b), id);
      assert x in List(lists, b) <==> Belongs(spans, b, x);
    }
  }

  /** An empty entry of a map may be erased. */
  lemma EraseKeepsLists(spans: map<nat, Span>, lists: map<Bin, seq<nat>>, b: Bin)
    requires ListsInv(spans, lists) && List(lists, b) == []
    ensures ListsInv(spans, lists - {b})
  {
    forall c, x
      ensures x in List(lists - {b}, c) <==> Belongs(spans, c, x)
    {
      assert x in List(lists, c) <==> Belongs(spans, c, x);
    }
  }

  // ---------------------------------------------------------------- taking a span

  function Minus(a: nat, b: nat): nat { if a >= b then a - b else 0 }

  /** The first span of bin `b` goes into use with its first `k` pages; the rest, if any, becomes span
      `split` and goes back to the same kind of list. */
  function Carve(h: Heap, b: Bin, k: nat, split: nat): Heap
    requires List(h.lists, b) != [] && List(h.lists, b)[0] in h.spans && 0 < k <= h.spans[List(h.lists, b)[0]].n
    requires b.shard in h.total
  {
    var id := List(h.lists, b)[0];
    var s := h.spans[id];
    var front, rest := s.(n := k, use := true, cold := false), Span(s.page + k, s.n - k, false, b.cold, b.shard);
    var h1 := h.(spans := h.spans[id := front], lists := Pop(h.lists, b),
                 total := if b.cold then h.total else h.total[b.shard := Minus(h.total[b.shard], k)]);
    var h2 := if s.n == k then h1
              else h1.(spans := h1.spans[split := rest], lists := Push(h1.lists, BinOf(rest), split),
                       cover := SetAll(h1.cover, rest.page, rest.n, split), pmap := SetEnds(h1.pmap, rest, split));
    h2.(pmap := SetAll(h2.pmap, s.page, k, id))
  }

  lemma SplitCover(spans: map<nat, Span>, cover: map<nat, nat>, id: nat, k: nat, front: Span, rest: Span, split: nat)
    requires CoverInv(spans, cover) && id in spans && 0 < k < spans[id].n && split > 0 && split !in spans
    requires front.page == spans[id].page && front.n == k && rest.page == front.page + k && rest.n == spans[id].n - k
    ensures CoverInv(spans[id := front][split := rest], SetAll(cover, rest.page, rest.n, split))
  {
    var spans', cover' := spans[id := front][split := rest], SetAll(cover, rest.page, rest.n, split);
    forall p | p in cover'
      ensures cover'[p] in spans' && InSpan(spans'[cover'[p]], p)
    {
      if InSpan(rest, p) {
        assert cover'[p] == split;
      } else {
        assert cover[p] in spans && InSpan(spans[cover[p]], p);
      }
    }
    forall x, p | x in spans' && InSpan(spans'[x], p)
      ensures p in cover' && cover'[p] == x
    {
      if x != split {
        assert InSpan(spans[x], p);
        assert InSpan(rest, p) ==> InSpan(spans[id], p);
      }
    }
  }

  lemma SameRangeCover(spans: map<nat, Span>, cover: map<nat, nat>, id: nat, s: Span)
    requires CoverInv(spans, cover) && id in spans && s.page == spans[id].page && s.n == spans[id].n
    ensures CoverInv(spans[id := s], cover)
  {
    var spans' := spans[id := s];
    forall x, p | x in spans' && InSpan(spans'[x], p)
      ensures p in cover && cover[p] == x
    {
      assert InSpan(spans[x], p);
    }
    forall p | p in cover
      ensures InSpan(spans'[cover[p]], p)
    {
      assert InSpan(spans[cover[p]], p);
    }
  }

  lemma SplitMap(spans: map<nat, Span>, cover: map<nat, nat>, pmap: map<nat, nat>, id: nat, k: nat, front: Span, rest: Span, split: nat)
    requires CoverInv(spans, cover) && MapInv(spans, cover, pmap, 0) && id in spans && 0 < k < spans[id].n && split > 0 && split !in spans
    requires front.page == spans[id].page && front.n == k && rest.page == front.page + k && rest.n == spans[id].n - k
    requires !spans[id].use && front.use && !rest.use
    ensures MapInv(spans[id := front][split := rest], SetAll(cover, rest.page, rest.n, split),
                   SetAll(SetEnds(pmap, rest, split), front.page, k, id), 0)
  {
    var spans', cover', pmap' := spans[id := front][split := rest], SetAll(cover, rest.page, rest.n, split),
                                 SetAll(SetEnds(pmap, rest, split), front.page, k, id);
    forall p | p in pmap'
      ensures p in cover'
    {
      if InRange(p, front.page, spans[id].n) {
        assert InSpan(spans[id], p);
      }
    }
    forall p | p in cover' && MustMap(spans'[cover'[p]], p)
      ensures p in pmap' && pmap'[p] == cover'[p]
    {
      if InRange(p, front.page, spans[id].n) {
        assert InSpan(spans[id], p);
      } else {
        assert cover[p] != id by { assert InSpan(spans[cover[p]], p); }
      }
    }
  }

  lemma TakeMap(spans: map<nat, Span>, cover: map<nat, nat>, pmap: map<nat, nat>, id: nat, s: Span)
    requires CoverInv(spans, cover) && MapInv(spans, cover, pmap, 0) && id in spans
    requires s.page == spans[id].page && s.n == spans[id].n
    ensures MapInv(spans[id := s], cover, SetAll(pmap, s.page, s.n, id), 0)
  {
    var spans', pmap' := spans[id := s], SetAll(pmap, s.page, s.n, id);
    forall p | p in pmap'
      ensures p in cover
    {
      if InRange(p, s.page, s.n) { assert InSpan(spans[id], p); }
    }
    forall p | p in cover && MustMap(spans'[cover[p]], p)
      ensures p in pmap' && pmap'[p] == cover[p]
    {
      assert InSpan(spans[cover[p]], p);
      if InRange(p, s.page, s.n) { assert InSpan(spans[id], p); }
    }
  }

  lemma SplitEdges(spans: map<nat, Span>, cover: map<nat, nat>, edges: set<nat>, id: nat, k: nat, front: Span, rest: Span, split: nat)
    requires CoverInv(spans, cover) && EdgeInv(spans, cover, edges) && id in spans && 0 < k < spans[id].n && split > 0 && split !in spans
    requires front.page == spans[id].page && front.n == k && rest.page == front.page + k && rest.n == spans[id].n - k
    requires !spans[id].use && front.use && rest.shard == spans[id].shard
    ensures EdgeInv(spans[id := front][split := rest], SetAll(cover, rest.page, rest.n, split), edges)
  {
    var spans', cover' := spans[id := front][split := rest], SetAll(cover, rest.page, rest.n, split);
    forall p: nat | p in cover' && p > 0 && p - 1 !in cover'
      ensures p in edges
    {
      if InRange(p, front.page, spans[id].n) { assert InSpan(spans[id], p); }
    }
    forall p: nat | Mergeable(spans', cover', p)
      ensures p in edges
    {
      assert InRange(p, rest.page, rest.n) ==> InSpan(spans[id], p);
      assert InRange(p - 1, rest.page, rest.n) ==> InSpan(spans[id], p - 1);
      assert InSpan(spans[id], p - 1) ==> p - 1 in cover && cover[p - 1] == id;
      assert p in cover && p - 1 in cover && Mergeable(spans, cover, p);
    }
  }

  lemma TakeEdges(spans: map<nat, Span>, cover: map<nat, nat>, edges: set<nat>, id: nat, s: Span)
    requires EdgeInv(spans, cover, edges) && id in spans && s.use
    ensures EdgeInv(spans[id := s], cover, edges)
  {
    forall p: nat | Mergeable(spans[id := s], cover, p)
      ensures p in edges
    {
      assert Mergeable(spans, cover, p);
    }
  }

  /** Some pages are no longer in a hot free span; all else stays. */
  lemma FewerHot(spans: map<nat, Span>, cover: map<nat, nat>, total: map<nat, nat>, spans': map<nat, Span>, cover': map<nat, nat>,
                 me: nat, page: nat, n: nat)
    requires HotInv(spans, cover, total) && cover'.Keys == cover.Keys && me in total
    requires forall x | x in spans' :: spans'[x].shard in total
    requires forall p | p in cover :: cover[p] in spans && cover'[p] in spans'
    requires forall p | p in cover && !InRange(p, page, n) :: SameHeat(spans[cover[p]], spans'[cover'[p]])
    requires forall p: nat | InRange(p, page, n) :: p in cover && IsHot(spans[cover[p]], me) && NotHot(spans'[cover'[p]])
    ensures total[me] >= n && HotInv(spans', cover', total[me := total[me] - n])
  {
    hide HotPages, Pages, SameHeat, IsHot, NotHot;
    LostPages(spans, cover, spans', cover', me, page, n);
    OtherShardsHot(spans, cover, total, spans', cover', me, page, n);
    PagesCount(page, n);
    SubsetCount(HotPages(spans, cover, me), Pages(page, n));
  }

  lemma LostPages(spans: map<nat, Span>, cover: map<nat, nat>, spans': map<nat, Span>, cover': map<nat, nat>, me: nat, page: nat, n: nat)
    requires cover'.Keys == cover.Keys
    requires forall p | p in cover :: cover[p] in spans && cover'[p] in spans'
    requires forall p | p in cover && !InRange(p, page, n) :: SameHeat(spans[cover[p]], spans'[cover'[p]])
    requires forall p: nat | InRange(p, page, n) :: p in cover && IsHot(spans[cover[p]], me) && NotHot(spans'[cover'[p]])
    ensures HotPages(spans', cover', me) == HotPages(spans, cover, me) - Pages(page, n)
    ensures Pages(page, n) <= HotPages(spans, cover, me)
  {
    forall p
      ensures p in HotPages(spans', cover', me) <==> p in HotPages(spans, cover, me) && p !in Pages(page, n)
    {
    }
  }

  lemma OtherShardsHot(spans: map<nat, Span>, cover: map<nat, nat>, total: map<nat, nat>, spans': map<nat, Span>, cover': map<nat, nat>,
                       me: nat, page: nat, n: nat)
    requires cover'.Keys == cover.Keys
    requires forall p | p in cover :: cover[p] in spans && cover'[p] in spans'
    requires forall p | p in cover && !InRange(p, page, n) :: SameHeat(spans[cover[p]], spans'[cover'[p]])
    requires forall p: nat | InRange(p, page, n) :: p in cover && IsHot(spans[cover[p]], me) && NotHot(spans'[cover'[p]])
    ensures forall x | x in total && x != me :: HotPages(spans', cover', x) == HotPages(spans, cover, x)
  {
    forall x | x in total && x != me
      ensures HotPages(spans', cover', x) == HotPages(spans, cover, x)
    {
      forall p
        ensures p in HotPages(spans', cover', x) <==> p in HotPages(spans, cover, x)
      {
      }
    }
  }

  predicate SameHeat(s: Span, t: Span) { NotHot(s) == NotHot(t) && (NotHot(s) || s.shard == t.shard) }

  predicate NotHot(s: Span) { s.use || s.cold }

  ghost predicate CanCarve(h: Heap, b: Bin, k: nat, split: nat) {
    && List(h.lists, b) != [] && 0 < k <= b.n && split > 0 && split !in h.spans
    && Belongs(h.spans, b, List(h.lists, b)[0]) && b.shard in h.total
  }

  lemma FrontBelongs(h: Heap, b: Bin)
    requires Inv(h) && List(h.lists, b) != []
    ensures Belongs(h.spans, b, List(h.lists, b)[0]) && b.shard in h.total && b.n > 0
  {
    assert List(h.lists, b)[0] in List(h.lists, b);
  }

  lemma CarveLists(spans: map<nat, Span>, lists: map<Bin, seq<nat>>, b: Bin, front: Span, rest: Span, split: nat)
    requires ListsInv(spans, lists) && List(lists, b) != [] && front.use && !rest.use && split !in spans
    ensures ListsInv(spans[List(lists, b)[0] := front][split := rest], Push(Pop(lists, b), BinOf(rest), split))
  {
    var id := List(lists, b)[0];
    PopKeepsLists(spans, lists, b, front);
    PushKeepsLists(spans[id := front], Pop(lists, b), split, rest);
  }

  /** More pages are in a hot free span; all else stays. */
  lemma MoreHot(spans: map<nat, Span>, cover: map<nat, nat>, total: map<nat, nat>, spans': map<nat, Span>, cover': map<nat, nat>,
                me: nat, page: nat, n: nat)
    requires HotInv(spans, cover, total) && me in total
    requires forall x | x in spans' :: spans'[x].shard in total
    requires forall p | p in cover :: cover[p] in spans && p in cover' && cover'[p] in spans'
    requires forall p | p in cover' && !InRange(p, page, n) :: p in cover && SameHeat(spans[cover[p]], spans'[cover'[p]])
    requires forall p: nat | InRange(p, page, n) :: p in cover' && cover'[p] in spans' && IsHot(spans'[cover'[p]], me) && (p in cover ==> NotHot(spans[cover[p]]))
    ensures HotInv(spans', cover', total[me := total[me] + n])
  {
    hide HotPages, Pages, SameHeat, IsHot, NotHot;
    GainedPages(spans, cover, spans', cover', me, page, n);
    OthersAsHot(spans, cover, total, spans', cover', me, page, n);
    PagesCount(page, n);
    SubsetCount(HotPages(spans', cover', me), Pages(page, n));
  }

  lemma GainedPages(spans: map<nat, Span>, cover: map<nat, nat>, spans': map<nat, Span>, cover': map<nat, nat>, me: nat, page: nat, n: nat)
    requires forall p | p in cover :: cover[p] in spans && p in cover' && cover'[p] in spans'
    requires forall p | p in cover' && !InRange(p, page, n) :: p in cover && SameHeat(spans[cover[p]], spans'[cover'[p]])
    requires forall p: nat | InRange(p, page, n) :: p in cover' && cover'[p] in spans' && IsHot(spans'[cover'[p]], me) && (p in cover ==> NotHot(spans[cover[p]]))
    ensures HotPages(spans, cover, me) == HotPages(spans', cover', me) - Pages(page, n)
    ensures Pages(page, n) <= HotPages(spans', cover', me)
  {
    forall p
      ensures p in HotPages(spans, cover, me) <==> p in HotPages(spans', cover', me) && p !in Pages(page, n)
    {
    }
  }

  lemma OthersAsHot(spans: map<nat, Span>, cover: map<nat, nat>, total: map<nat, nat>, spans': map<nat, Span>, cover': map<nat, nat>,
                    me: nat, page: nat, n: nat)
    requires forall p | p in cover :: cover[p] in spans && p in cover' && cover'[p] in spans'
    requires forall p | p in cover' && !InRange(p, page, n) :: p in cover && SameHeat(spans[cover[p]], spans'[cover'[p]])
    requires forall p: nat | InRange(p, page, n) :: p in cover' && cover'[p] in spans' && IsHot(spans'[cover'[p]], me) && (p in cover ==> NotHot(spans[cover[p]]))
    ensures forall x | x in total && x != me :: HotPages(spans', cover', x) == HotPages(spans, cover, x)
  {
    forall x | x in total && x != me
      ensures HotPages(spans', cover', x) == HotPages(spans, cover, x)
    {
      forall p
        ensures p in HotPages(spans', cover', x) <==> p in HotPages(spans, cover, x)
      {
      }
    }
  }

  lemma SameHot(spans: map<nat, Span>, cover: map<nat, nat>, total: map<nat, nat>, spans': map<nat, Span>, cover': map<nat, nat>)
    requires HotInv(spans, cover, total)
    requires forall x | x in spans' :: spans'[x].shard in total
    requires forall p | p in cover :: cover[p] in spans && p in cover' && cover'[p] in spans' && SameHeat(spans[cover[p]], spans'[cover'[p]])
    requires forall p | p in cover' && p !in cover :: cover'[p] in spans' && NotHot(spans'[cover'[p]])
    ensures HotInv(spans', cover', total)
  {
    forall x | x in total
      ensures HotPages(spans', cover', x) == HotPages(spans, cover, x)
    {
    }
  }

  function LessTotal(total: map<nat, nat>, s: Span, k: nat): map<nat, nat>
    requires s.shard in total
  {
    if s.cold then total else total[s.shard := Minus(total[s.shard], k)]
  }

  lemma TakeTotal(spans: map<nat, Span>, cover: map<nat, nat>, total: map<nat, nat>, id: nat, front: Span)
    requires CoverInv(spans, cover) && HotInv(spans, cover, total) && id in spans && !spans[id].use
    requires front == spans[id].(use := true, cold := false)
    ensures HotInv(spans[id := front], cover, LessTotal(total, spans[id], front.n))
  {
    var s, spans' := spans[id], spans[id := front];
    forall p | p in cover
      ensures cover[p] in spans && cover[p] in spans'
      ensures s.cold || !InRange(p, s.page, s.n) ==> SameHeat(spans[cover[p]], spans'[cover[p]])
    {
      assert InSpan(spans[cover[p]], p);
    }
    if s.cold {
      SameHot(spans, cover, total, spans', cover);
    } else {
      assert forall p: nat | InRange(p, s.page, s.n) :: InSpan(s, p) && p in cover && cover[p] == id;
      FewerHot(spans, cover, total, spans', cover, s.shard, s.page, s.n);
    }
  }

  lemma OwnPages(spans: map<nat, Span>, cover: map<nat, nat>, id: nat)
    requires CoverInv(spans, cover) && id in spans
    ensures forall p: nat | InRange(p, spans[id].page, spans[id].n) :: p in cover && cover[p] == id
    ensures forall p | p in cover && cover[p] == id :: InRange(p, spans[id].page, spans[id].n)
  {
    forall p: nat | InRange(p, spans[id].page, spans[id].n)
      ensures p in cover && cover[p] == id
    {
      assert InSpan(spans[id], p);
    }
  }

  lemma SplitHeat(spans: map<nat, Span>, cover: map<nat, nat>, id: nat, k: nat, split: nat, front: Span, rest: Span,
                  spans': map<nat, Span>, cover': map<nat, nat>)
    requires CoverInv(spans, cover) && id in spans && !spans[id].use && 0 < k < spans[id].n && split !in spans
    requires front == spans[id].(n := k, use := true, cold := false)
    requires rest == spans[id].(page := spans[id].page + k, n := spans[id].n - k)
    requires spans' == spans[id := front][split := rest] && cover' == SetAll(cover, rest.page, rest.n, split)
    ensures cover'.Keys == cover.Keys
    ensures forall p | p in cover :: cover[p] in spans && cover'[p] in spans'
    ensures forall p | p in cover && !InRange(p, front.page, k) :: SameHeat(spans[cover[p]], spans'[cover'[p]])
    ensures forall p: nat | InRange(p, front.page, k) :: p in cover && cover[p] == id && cover'[p] == id
  {
    OwnPages(spans, cover, id);
    assert forall p: nat | InRange(p, rest.page, rest.n) :: InRange(p, spans[id].page, spans[id].n);
    forall p | p in cover && !InRange(p, front.page, k)
      ensures SameHeat(spans[cover[p]], spans'[cover'[p]])
    {
      if InRange(p, rest.page, rest.n) {
        assert cover[p] == id && cover'[p] == split;
      } else {
        assert cover[p] != id && cover'[p] == cover[p];
      }
    }
  }

  lemma FrontHeat(spans: map<nat, Span>, cover: map<nat, nat>, id: nat, front: Span, spans': map<nat, Span>, cover': map<nat, nat>)
    requires id in spans && id in spans' && !spans[id].use && spans'[id] == front && front.use
    requires cover'.Keys == cover.Keys && forall p | p in cover :: cover[p] in spans && cover'[p] in spans'
    requires forall p: nat | InRange(p, front.page, front.n) :: p in cover && cover[p] == id && cover'[p] == id
    ensures forall p: nat | InRange(p, front.page, front.n) ::
              && p in cover && NotHot(spans'[cover'[p]])
              && if spans[id].cold then SameHeat(spans[cover[p]], spans'[cover'[p]]) else IsHot(spans[cover[p]], spans[id].shard)
  {
  }

  lemma SplitTotal(spans: map<nat, Span>, cover: map<nat, nat>, total: map<nat, nat>, id: nat, k: nat, split: nat, front: Span, rest: Span,
                   spans': map<nat, Span>, cover': map<nat, nat>)
    requires CoverInv(spans, cover) && HotInv(spans, cover, total)
    requires id in spans && !spans[id].use && 0 < k < spans[id].n && split !in spans
    requires front == spans[id].(n := k, use := true, cold := false)
    requires rest == spans[id].(page := spans[id].page + k, n := spans[id].n - k)
    requires spans' == spans[id := front][split := rest] && cover' == SetAll(cover, rest.page, rest.n, split)
    ensures HotInv(spans', cover', LessTotal(total, spans[id], k))
  {
    hide HotPages, SetAll, CoverInv, SameHeat, IsHot, NotHot;
    SplitHeat(spans, cover, id, k, split, front, rest, spans', cover');
    FrontHeat(spans, cover, id, front, spans', cover');
    assert forall x | x in spans' :: spans'[x].shard in total;
    if spans[id].cold {
      SameHot(spans, cover, total, spans', cover');
    } else {
      FewerHot(spans, cover, total, spans', cover', spans[id].shard, front.page, k);
    }
  }

  lemma SplitKeys(cover: map<nat, nat>, page: nat, n: nat, id: nat)
    requires forall p: nat | InRange(p, page, n) :: p in cover
    ensures SetAll(cover, page, n, id).Keys == cover.Keys
  {
  }

  lemma WholeInv(h: Heap, b: Bin, k: nat, split: nat)
    requires Inv(h) && CanCarve(h, b, k, split) && k == b.n
    ensures Inv(Carve(h, b, k, split))
  {
    var id := List(h.lists, b)[0];
    var front := h.spans[id].(n := k, use := true, cold := false);
    SameRangeCover(h.spans, h.cover, id, front);
    TakeMap(h.spans, h.cover, h.pmap, id, front);
    TakeEdges(h.spans, h.cover, h.edges, id, front);
    TakeTotal(h.spans, h.cover, h.total, id, front);
    PopKeepsLists(h.spans, h.lists, b, front);
  }

  lemma CarveSplit(h: Heap, b: Bin, k: nat, split: nat, id: nat, s: Span, front: Span, rest: Span)
    requires CanCarve(h, b, k, split) && k < b.n && id == List(h.lists, b)[0] && s == h.spans[id]
    requires front == s.(n := k, use := true, cold := false)
    requires rest == s.(page := s.page + k, n := s.n - k)
    ensures Carve(h, b, k, split)
         == h.(spans := h.spans[id := front][split := rest], lists := Push(Pop(h.lists, b), BinOf(rest), split),
               total := LessTotal(h.total, s, k), cover := SetAll(h.cover, rest.page, rest.n, split),
               pmap := SetAll(SetEnds(h.pmap, rest, split), front.page, k, id))
  {
    hide SetAll, SetEnds, Push, Pop;
    assert rest == Span(s.page + k, s.n - k, false, b.cold, b.shard);
  }

  lemma CarveWhole(h: Heap, b: Bin, k: nat, split: nat, id: nat, s: Span)
    requires CanCarve(h, b, k, split) && k == b.n && id == List(h.lists, b)[0] && s == h.spans[id]
    ensures Carve(h, b, k, split)
         == h.(spans := h.spans[id := s.(use := true, cold := false)], lists := Pop(h.lists, b),
               total := LessTotal(h.total, s, k), pmap := SetAll(h.pmap, s.page, k, id))
  {
  }

  lemma SplitInv(h: Heap, b: Bin, k: nat, split: nat)
    requires Inv(h) && CanCarve(h, b, k, split) && k < b.n
    ensures Inv(Carve(h, b, k, split))
  {
    hide CoverInv, MapInv, EdgeInv, HotInv, ListsInv, LeavesInv, SetAll, SetEnds, Push, Pop, LessTotal, Carve;
    var id := List(h.lists, b)[0];
    var s := h.spans[id];
    var front, rest := s.(n := k, use := true, cold := false), s.(page := s.page + k, n := s.n - k);
    CarveSplit(h, b, k, split, id, s, front, rest);
    SplitCover(h.spans, h.cover, id, k, front, rest, split);
    SplitMap(h.spans, h.cover, h.pmap, id, k, front, rest, split);
    SplitEdges(h.spans, h.cover, h.edges, id, k, front, rest, split);
    SplitTotal(h.spans, h.cover, h.total, id, k, split, front, rest, h.spans[id := front][split := rest], SetAll(h.cover, rest.page, rest.n, split));
    CarveLists(h.spans, h.lists, b, front, rest, split);
    SplitLeaves(h.spans, h.cover, h.leaves, id, rest, split);
  }

  lemma SplitLeaves(spans: map<nat, Span>, cover: map<nat, nat>, leaves: set<nat>, id: nat, rest: Span, split: nat)
    requires CoverInv(spans, cover) && LeavesInv(cover, leaves) && id in spans
    requires spans[id].page <= rest.page && rest.page + rest.n == spans[id].page + spans[id].n
    ensures LeavesInv(SetAll(cover, rest.page, rest.n, split), leaves)
  {
    OwnPages(spans, cover, id);
    assert forall p: nat | InRange(p, rest.page, rest.n) :: InRange(p, spans[id].page, spans[id].n);
  }

  lemma CarveInv(h: Heap, b: Bin, k: nat, split: nat)
    requires Inv(h) && CanCarve(h, b, k, split)
    ensures Inv(Carve(h, b, k, split))
  {
    if k == b.n {
      WholeInv(h, b, k, split);
    } else {
      SplitInv(h, b, k, split);
    }
  }

  // ---------------------------------------------------------------- pages from the system

  ghost predicate NewRange(h: Heap, page: nat, n: nat, id: nat) {
    && page > 0 && n > 0 && id > 0 && id !in h.spans
    && (forall p | p in h.cover :: !InRange(p, page, n))
    && (forall p: nat | InRange(p, page, n) :: p < PAGE_LIMIT && Leaf(p) in h.leaves)
  }

  /** A range from the system becomes span `id`: in use with all its pages mapped, or hot and free
      with its first and last page mapped. */
  function AddRange(h: Heap, me: nat, page: nat, n: nat, id: nat, use: bool): Heap
    requires n > 0 && me in h.total
  {
    var s := Span(page, n, use, false, me);
    h.(spans := h.spans[id := s], cover := SetAll(h.cover, page, n, id), edges := h.edges + {page},
       pmap := if use then SetAll(h.pmap, page, n, id) else SetEnds(h.pmap, s, id),
       lists := if use then h.lists else Push(h.lists, BinOf(s), id),
       total := if use then h.total else h.total[me := h.total[me] + n])
  }

  lemma AddCover(spans: map<nat, Span>, cover: map<nat, nat>, id: nat, s: Span)
    requires CoverInv(spans, cover) && id > 0 && id !in spans && s.page > 0 && s.n > 0
    requires forall p | p in cover :: !InRange(p, s.page, s.n)
    ensures CoverInv(spans[id := s], SetAll(cover, s.page, s.n, id))
  {
    var spans', cover' := spans[id := s], SetAll(cover, s.page, s.n, id);
    forall p | p in cover'
      ensures cover'[p] in spans' && InSpan(spans'[cover'[p]], p)
    {
      if !InRange(p, s.page, s.n) {
        assert InSpan(spans[cover[p]], p);
      }
    }
    forall x, p | x in spans' && InSpan(spans'[x], p)
      ensures p in cover' && cover'[p] == x
    {
      if x != id {
        assert InSpan(spans[x], p);
      }
    }
  }

  lemma AddMap(spans: map<nat, Span>, cover: map<nat, nat>, pmap: map<nat, nat>, id: nat, s: Span)
    requires CoverInv(spans, cover) && MapInv(spans, cover, pmap, 0) && id > 0 && id !in spans && s.n > 0
    requires forall p | p in cover :: !InRange(p, s.page, s.n)
    ensures MapInv(spans[id := s], SetAll(cover, s.page, s.n, id), if s.use then SetAll(pmap, s.page, s.n, id) else SetEnds(pmap, s, id), 0)
  {
    var spans', cover' := spans[id := s], SetAll(cover, s.page, s.n, id);
    var pmap' := if s.use then SetAll(pmap, s.page, s.n, id) else SetEnds(pmap, s, id);
    forall p | p in pmap'
      ensures p in cover'
    {
      assert p in pmap || InRange(p, s.page, s.n);
    }
    forall p | p in cover' && MustMap(spans'[cover'[p]], p)
      ensures p in pmap' && pmap'[p] == cover'[p]
    {
      if !InRange(p, s.page, s.n) {
        assert cover[p] in spans && MustMap(spans[cover[p]], p);
      }
    }
  }

  lemma AddEdges(spans: map<nat, Span>, cover: map<nat, nat>, edges: set<nat>, id: nat, s: Span)
    requires CoverInv(spans, cover) && EdgeInv(spans, cover, edges) && id !in spans
    requires forall p | p in cover :: !InRange(p, s.page, s.n)
    ensures EdgeInv(spans[id := s], SetAll(cover, s.page, s.n, id), edges + {s.page})
  {
    var spans', cover' := spans[id := s], SetAll(cover, s.page, s.n, id);
    forall p: nat | Mergeable(spans', cover', p)
      ensures p in edges + {s.page}
    {
      if p != s.page {
        assert !InRange(p, s.page, s.n);
        if InRange(p - 1, s.page, s.n) {
          assert p in cover && p - 1 !in cover;
        } else {
          assert Mergeable(spans, cover, p);
        }
      }
    }
  }

  lemma AddUsedInv(h: Heap, me: nat, page: nat, n: nat, id: nat)
    requires Inv(h) && me in h.total && NewRange(h, page, n, id)
    ensures Inv(AddRange(h, me, page, n, id, true))
  {
    var s := Span(page, n, true, false, me);
    AddCover(h.spans, h.cover, id, s);
    AddMap(h.spans, h.cover, h.pmap, id, s);
    AddEdges(h.spans, h.cover, h.edges, id, s);
    SameHot(h.spans, h.cover, h.total, h.spans[id := s], SetAll(h.cover, page, n, id));
    AddUsedLists(h.spans, h.lists, id, s);
  }

  lemma AddFreeInv(h: Heap, me: nat, page: nat, n: nat, id: nat)
    requires Inv(h) && me in h.total && NewRange(h, page, n, id)
    ensures Inv(AddRange(h, me, page, n, id, false))
  {
    hide SetAll, SetEnds, Push, CoverInv, MapInv, EdgeInv, HotInv, ListsInv, LeavesInv;
    var s := Span(page, n, false, false, me);
    AddCover(h.spans, h.cover, id, s);
    AddMap(h.spans, h.cover, h.pmap, id, s);
    AddEdges(h.spans, h.cover, h.edges, id, s);
    AddHot(h, me, page, n, id, s);
    AddLeaves(h, page, n, id);
    PushKeepsLists(h.spans, h.lists, id, s);
  }

  lemma AddHot(h: Heap, me: nat, page: nat, n: nat, id: nat, s: Span)
    requires CoverInv(h.spans, h.cover) && HotInv(h.spans, h.cover, h.total) && me in h.total && NewRange(h, page, n, id)
    requires s == Span(page, n, false, false, me)
    ensures HotInv(h.spans[id := s], SetAll(h.cover, page, n, id), h.total[me := h.total[me] + n])
  {
    hide HotPages;
    MoreHot(h.spans, h.cover, h.total, h.spans[id := s], SetAll(h.cover, page, n, id), me, page, n);
  }

  lemma AddLeaves(h: Heap, page: nat, n: nat, id: nat)
    requires LeavesInv(h.cover, h.leaves) && NewRange(h, page, n, id)
    ensures LeavesInv(SetAll(h.cover, page, n, id), h.leaves)
  {
  }

  lemma AddRangeInv(h: Heap, me: nat, page: nat, n: nat, id: nat, use: bool)
    requires Inv(h) && me in h.total && NewRange(h, page, n, id)
    ensures Inv(AddRange(h, me, page, n, id, use))
  {
    if use {
      AddUsedInv(h, me, page, n, id);
    } else {
      AddFreeInv(h, me, page, n, id);
    }
  }

  lemma AddUsedLists(spans: map<nat, Span>, lists: map<Bin, seq<nat>>, id: nat, s: Span)
    requires ListsInv(spans, lists) && (id in spans ==> spans[id].use) && s.use
    ensures ListsInv(spans[id := s], lists)
  {
    forall b, x
      ensures x in List(lists, b) <==> Belongs(spans[id := s], b, x)
    {
      assert x in List(lists, b) <==> Belongs(spans, b, x);
    }
  }

  // ---------------------------------------------------------------- giving a span back

  /** Span `id`, in use, may absorb its free neighbour `nb`. */
  ghost predicate CanMerge(h: Heap, id: nat, nb: nat) {
    && id in h.spans && nb in h.spans && id != nb && FreeOf(h.spans[nb], h.spans[id].shard) && h.spans[id].use
    && h.spans[id].shard in h.total
    && (|| h.spans[nb].page + h.spans[nb].n == h.spans[id].page
        || h.spans[id].page + h.spans[id].n == h.spans[nb].page)
  }

  predicate FreeOf(s: Span, me: nat) { !s.use && s.shard == me }

  function Union(s: Span, t: Span): Span { s.(page := if t.page < s.page then t.page else s.page, n := s.n + t.n) }

  function Merge(h: Heap, id: nat, nb: nat): Heap
    requires CanMerge(h, id, nb)
  {
    var s, t := h.spans[id], h.spans[nb];
    h.(spans := (h.spans - {nb})[id := Union(s, t)], lists := Unlink(h.lists, nb), total := LessTotal(h.total, t, t.n),
       cover := SetAll(h.cover, t.page, t.n, id))
  }

  lemma MergeCover(spans: map<nat, Span>, cover: map<nat, nat>, id: nat, nb: nat, spans': map<nat, Span>, cover': map<nat, nat>)
    requires CoverInv(spans, cover) && id in spans && nb in spans && id != nb
    requires spans[nb].page + spans[nb].n == spans[id].page || spans[id].page + spans[id].n == spans[nb].page
    requires spans' == (spans - {nb})[id := Union(spans[id], spans[nb])] && cover' == SetAll(cover, spans[nb].page, spans[nb].n, id)
    ensures CoverInv(spans', cover') && cover'.Keys == cover.Keys
    ensures forall p | p in cover :: cover'[p] == if cover[p] == nb then id else cover[p]
  {
    OwnPages(spans, cover, nb);
    OwnPages(spans, cover, id);
    SplitKeys(cover, spans[nb].page, spans[nb].n, id);
    forall p | p in cover'
      ensures cover'[p] == if cover[p] == nb then id else cover[p]
      ensures cover'[p] in spans' && InSpan(spans'[cover'[p]], p)
    {
      assert InSpan(spans[cover[p]], p);
    }
    forall x, p | x in spans' && InSpan(spans'[x], p)
      ensures p in cover' && cover'[p] == x
    {
      if x == id {
        assert InRange(p, spans[nb].page, spans[nb].n) || InRange(p, spans[id].page, spans[id].n);
      } else {
        assert InSpan(spans[x], p);
      }
    }
  }

  lemma MergeMap(spans: map<nat, Span>, cover: map<nat, nat>, pmap: map<nat, nat>, id: nat, nb: nat, spans': map<nat, Span>, cover': map<nat, nat>)
    requires MapInv(spans, cover, pmap, id) && id != nb && cover'.Keys == cover.Keys && spans'.Keys == spans.Keys - {nb}
    requires forall p | p in cover :: cover'[p] == if cover[p] == nb then id else cover[p]
    requires forall x | x in spans' && x != id :: spans'[x] == spans[x]
    ensures MapInv(spans', cover', pmap, id)
  {
  }

  lemma MergeEdges(spans: map<nat, Span>, cover: map<nat, nat>, edges: set<nat>, id: nat, nb: nat, spans': map<nat, Span>, cover': map<nat, nat>)
    requires EdgeInv(spans, cover, edges) && id != nb && cover'.Keys == cover.Keys && spans'.Keys == spans.Keys - {nb}
    requires forall p | p in cover :: cover'[p] == if cover[p] == nb then id else cover[p]
    requires forall x | x in spans' && x != id :: spans'[x] == spans[x]
    requires id in spans' && spans'[id].use
    ensures EdgeInv(spans', cover', edges)
  {
    forall p: nat | Mergeable(spans', cover', p)
      ensures p in edges
    {
      assert Mergeable(spans, cover, p);
    }
  }

  lemma MergeHeat(spans: map<nat, Span>, cover: map<nat, nat>, id: nat, nb: nat, spans': map<nat, Span>, cover': map<nat, nat>)
    requires CoverInv(spans, cover) && id in spans && nb in spans && id != nb
    requires cover'.Keys == cover.Keys && !spans[nb].use && spans[id].use
    requires forall p | p in cover :: cover'[p] == if cover[p] == nb then id else cover[p]
    requires spans' == (spans - {nb})[id := Union(spans[id], spans[nb])]
    ensures forall p | p in cover :: cover[p] in spans && cover'[p] in spans'
    ensures var t := spans[nb]; forall p | p in cover && (t.cold || !InRange(p, t.page, t.n)) :: SameHeat(spans[cover[p]], spans'[cover'[p]])
    ensures var t := spans[nb]; forall p: nat | InRange(p, t.page, t.n) ::
              p in cover && NotHot(spans'[cover'[p]]) && (!t.cold ==> IsHot(spans[cover[p]], t.shard))
  {
    var t := spans[nb];
    OwnPages(spans, cover, nb);
    forall p | p in cover
      ensures cover[p] in spans && cover'[p] in spans'
      ensures t.cold || !InRange(p, t.page, t.n) ==> SameHeat(spans[cover[p]], spans'[cover'[p]])
    {
    }
  }

  lemma MergeTotal(spans: map<nat, Span>, cover: map<nat, nat>, total: map<nat, nat>, id: nat, nb: nat, spans': map<nat, Span>, cover': map<nat, nat>)
    requires CoverInv(spans, cover) && HotInv(spans, cover, total) && id in spans && nb in spans && id != nb
    requires cover'.Keys == cover.Keys && !spans[nb].use && spans[id].use
    requires forall p | p in cover :: cover'[p] == if cover[p] == nb then id else cover[p]
    requires spans' == (spans - {nb})[id := Union(spans[id], spans[nb])]
    ensures HotInv(spans', cover', LessTotal(total, spans[nb], spans[nb].n))
  {
    hide HotPages, CoverInv, SameHeat, IsHot, NotHot;
    var t := spans[nb];
    MergeHeat(spans, cover, id, nb, spans', cover');
    assert forall x | x in spans' :: spans'[x].shard in total;
    if t.cold {
      SameHot(spans, cover, total, spans', cover');
    } else {
      FewerHot(spans, cover, total, spans', cover', t.shard, t.page, t.n);
    }
  }

  lemma MergeLists(spans: map<nat, Span>, lists: map<Bin, seq<nat>>, id: nat, nb: nat, s: Span)
    requires ListsInv(spans, lists) && id in spans && id != nb && spans[id].use && s.use
    ensures ListsInv((spans - {nb})[id := s], Unlink(lists, nb))
  {
    UnlinkKeepsLists(spans, lists, nb);
    AddUsedLists(spans - {nb}, Unlink(lists, nb), id, s);
  }

  lemma MergeInv(h: Heap, id: nat, nb: nat)
    requires InvBut(h, id) && CanMerge(h, id, nb)
    ensures InvBut(Merge(h, id, nb), id)
  {
    var h' := Merge(h, id, nb);
    MergeCover(h.spans, h.cover, id, nb, h'.spans, h'.cover);
    MergeMap(h.spans, h.cover, h.pmap, id, nb, h'.spans, h'.cover);
    MergeEdges(h.spans, h.cover, h.edges, id, nb, h'.spans, h'.cover);
    MergeTotal(h.spans, h.cover, h.total, id, nb, h'.spans, h'.cover);
    MergeLists(h.spans, h.lists, id, nb, Union(h.spans[id], h.spans[nb]));
  }

  /** Page `p` belongs to no free span of shard `me`. */
  predicate NotFreeAt(spans: map<nat, Span>, cover: map<nat, nat>, p: int, me: nat) {
    p >= 0 && p in cover && cover[p] in spans ==> !FreeOf(spans[cover[p]], me)
  }

  ghost predicate Alone(h: Heap, id: nat)
    requires id in h.spans
  {
    && NotFreeAt(h.spans, h.cover, h.spans[id].page - 1, h.spans[id].shard)
    && NotFreeAt(h.spans, h.cover, h.spans[id].page + h.spans[id].n, h.spans[id].shard)
  }

  /** The merged span becomes hot and free. */
  function Finish(h: Heap, id: nat): Heap
    requires id in h.spans && h.spans[id].n > 0 && h.spans[id].shard in h.total
  {
    var s := h.spans[id].(use := false, cold := false);
    h.(spans := h.spans[id := s], pmap := SetEnds(h.pmap, s, id), lists := Push(h.lists, BinOf(s), id),
       total := h.total[s.shard := h.total[s.shard] + s.n])
  }

  lemma FinishMap(spans: map<nat, Span>, cover: map<nat, nat>, pmap: map<nat, nat>, id: nat, s: Span)
    requires CoverInv(spans, cover) && MapInv(spans, cover, pmap, id) && id in spans
    requires s == spans[id].(use := false, cold := false)
    ensures MapInv(spans[id := s], cover, SetEnds(pmap, s, id), 0)
  {
    var pmap' := SetEnds(pmap, s, id);
    OwnPages(spans, cover, id);
    assert InRange(s.page, s.page, s.n) && InRange(s.page + s.n - 1, s.page, s.n);
    forall p | p in cover && MustMap(spans[id := s][cover[p]], p)
      ensures p in pmap' && pmap'[p] == cover[p]
    {
      assert cover[p] == id <==> InRange(p, s.page, s.n);
    }
  }

  lemma FinishEdges(spans: map<nat, Span>, cover: map<nat, nat>, edges: set<nat>, id: nat, s: Span)
    requires CoverInv(spans, cover) && EdgeInv(spans, cover, edges) && id in spans
    requires s == spans[id].(use := false, cold := false)
    requires NotFreeAt(spans, cover, s.page - 1, s.shard) && NotFreeAt(spans, cover, s.page + s.n, s.shard)
    ensures EdgeInv(spans[id := s], cover, edges)
  {
    var spans' := spans[id := s];
    OwnPages(spans, cover, id);
    forall p: nat | Mergeable(spans', cover, p)
      ensures p in edges
    {
      assert cover[p] == id <==> InRange(p, s.page, s.n);
      assert cover[p - 1] == id <==> InRange(p - 1, s.page, s.n);
      assert cover[p] != id && cover[p - 1] != id;
      assert Mergeable(spans, cover, p);
    }
  }

  lemma FinishTotal(spans: map<nat, Span>, cover: map<nat, nat>, total: map<nat, nat>, id: nat, s: Span)
    requires CoverInv(spans, cover) && HotInv(spans, cover, total) && id in spans && spans[id].use
    requires s == spans[id].(use := false, cold := false)
    ensures HotInv(spans[id := s], cover, total[s.shard := total[s.shard] + s.n])
  {
    OwnPages(spans, cover, id);
    MoreHot(spans, cover, total, spans[id := s], cover, s.shard, s.page, s.n);
  }

  lemma FinishInv(h: Heap, id: nat)
    requires InvBut(h, id) && id in h.spans && h.spans[id].use && Alone(h, id)
    ensures Inv(Finish(h, id)) && Alone(Finish(h, id), id)
  {
    hide CoverInv, MapInv, EdgeInv, ListsInv, LeavesInv, SetEnds, Push;
    FinishAlone(h, id);
    var s := h.spans[id].(use := false, cold := false);
    SameRangeCover(h.spans, h.cover, id, s);
    FinishMap(h.spans, h.cover, h.pmap, id, s);
    FinishEdges(h.spans, h.cover, h.edges, id, s);
    FinishTotal(h.spans, h.cover, h.total, id, s);
    PushKeepsLists(h.spans, h.lists, id, s);
  }

  lemma FinishAlone(h: Heap, id: nat)
    requires CoverInv(h.spans, h.cover) && id in h.spans && Alone(h, id) && h.spans[id].shard in h.total
    ensures Alone(Finish(h, id), id)
  {
    OwnPages(h.spans, h.cover, id);
  }

  /** `ReleaseSpanToCold` on the front span of hot bin `b`. */
  function Cool(h: Heap, b: Bin): Heap
    requires List(h.lists, b) != [] && List(h.lists, b)[0] in h.spans && h.spans[List(h.lists, b)[0]].shard in h.total
  {
    var id := List(h.lists, b)[0];
    var s := h.spans[id];
    var cooled := s.(cold := true);
    h.(spans := h.spans[id := cooled], lists := Push(Pop(h.lists, b), BinOf(cooled), id), total := LessTotal(h.total, s, s.n))
  }

  lemma CoolEdges(spans: map<nat, Span>, cover: map<nat, nat>, edges: set<nat>, id: nat, s: Span)
    requires EdgeInv(spans, cover, edges) && id in spans && s == spans[id].(cold := true)
    ensures EdgeInv(spans[id := s], cover, edges)
  {
    forall p: nat | Mergeable(spans[id := s], cover, p)
      ensures p in edges
    {
      assert Mergeable(spans, cover, p);
    }
  }

  lemma CoolTotal(spans: map<nat, Span>, cover: map<nat, nat>, total: map<nat, nat>, id: nat, s: Span)
    requires CoverInv(spans, cover) && HotInv(spans, cover, total) && id in spans && IsHot(spans[id], s.shard) && s == spans[id].(cold := true)
    ensures total[s.shard] >= s.n && HotInv(spans[id := s], cover, total[s.shard := total[s.shard] - s.n])
  {
    OwnPages(spans, cover, id);
    FewerHot(spans, cover, total, spans[id := s], cover, s.shard, s.page, s.n);
  }

  lemma CoolLists(spans: map<nat, Span>, lists: map<Bin, seq<nat>>, b: Bin, s: Span)
    requires ListsInv(spans, lists) && List(lists, b) != [] && !s.use
    ensures ListsInv(spans[List(lists, b)[0] := s], Push(Pop(lists, b), BinOf(s), List(lists, b)[0]))
  {
    var id := List(lists, b)[0];
    var used := s.(use := true);
    PopKeepsLists(spans, lists, b, used);
    PushKeepsLists(spans[id := used], Pop(lists, b), id, s);
    assert spans[id := used][id := s] == spans[id := s];
  }

  lemma CoolInv(h: Heap, b: Bin)
    requires Inv(h) && List(h.lists, b) != [] && !b.cold && Belongs(h.spans, b, List(h.lists, b)[0]) && b.shard in h.total
    ensures Inv(Cool(h, b)) && h.total[b.shard] >= b.n && Cool(h, b).total[b.shard] == h.total[b.shard] - b.n
  {
    var id := List(h.lists, b)[0];
    var s := h.spans[id].(cold := true);
    SameRangeCover(h.spans, h.cover, id, s);
    CoolMap(h.spans, h.cover, h.pmap, id, s);
    CoolEdges(h.spans, h.cover, h.edges, id, s);
    CoolTotal(h.spans, h.cover, h.total, id, s);
    CoolLists(h.spans, h.lists, b, s);
  }

  lemma CoolMap(spans: map<nat, Span>, cover: map<nat, nat>, pmap: map<nat, nat>, id: nat, s: Span)
    requires MapInv(spans, cover, pmap, 0) && id in spans && s == spans[id].(cold := true)
    ensures MapInv(spans[id := s], cover, pmap, 0)
  {
  }

  // ---------------------------------------------------------------- what the invariant buys

  /** The pages just before and just after span `id`: the page map has an entry for such a page exactly
      if it was obtained from the system, and the entry is the live span on it, never a stale one. */
  lemma NeighbourLookup(h: Heap, id: nat, p: nat)
    requires InvBut(h, id) && id in h.spans && (p + 1 == h.spans[id].page || p == h.spans[id].page + h.spans[id].n)
    ensures p in h.pmap <==> p in h.cover
    ensures p in h.pmap ==> h.pmap[p] == h.cover[p] && h.pmap[p] != id && h.pmap[p] in h.spans && InSpan(h.spans[h.pmap[p]], p)
  {
    OwnPages(h.spans, h.cover, id);
    if p in h.cover {
      var x := h.cover[p];
      OwnPages(h.spans, h.cover, x);
      assert InSpan(h.spans[x], p);
      var q := if p + 1 == h.spans[id].page then p + 1 else p - 1;
      assert InRange(q, h.spans[id].page, h.spans[id].n) && h.cover[q] == id;
      assert !InRange(q, h.spans[x].page, h.spans[x].n);
      assert MustMap(h.spans[x], p);
    }
  }

  /** A page in use is found from any address in it. */
  lemma UsedLookup(h: Heap, id: nat, p: nat)
    requires Inv(h) && id in h.spans && h.spans[id].use && InSpan(h.spans[id], p)
    ensures p in h.pmap && h.pmap[p] == id
  {
    assert p in h.cover && h.cover[p] == id;
  }

  /** The inside of a free span does go stale: after a merge to the right the page where the absorbed
      span began still maps to it, although that object is gone. */
  lemma InsideGoesStale(h: Heap, id: nat, nb: nat)
    requires Inv(h) && CanMerge(h, id, nb) && h.spans[id].page + h.spans[id].n == h.spans[nb].page && h.spans[nb].n > 1
    ensures h.spans[id].n + h.spans[nb].n > 0
    ensures var h' := Finish(Merge(h, id, nb), id); var p := h.spans[nb].page;
            p in h'.pmap && h'.pmap[p] == nb && nb !in h'.spans && InSpan(h'.spans[id], p)
  {
    hide EdgeInv, HotInv, ListsInv, LeavesInv, Unlink, Push, LessTotal;
    assert InSpan(h.spans[nb], h.spans[nb].page);
  }

  /** Live spans never overlap and tile exactly the pages obtained from the system. */
  lemma SpansTile(h: Heap, id: nat, id': nat, p: nat)
    requires Inv(h) && id in h.spans && id' in h.spans && InSpan(h.spans[id], p)
    ensures InSpan(h.spans[id'], p) ==> id == id'
    ensures p in h.cover
  {
  }

  lemma TilesAll(h: Heap, p: nat)
    requires Inv(h) && p in h.cover
    ensures exists id :: id in h.spans && InSpan(h.spans[id], p)
  {
    assert InSpan(h.spans[h.cover[p]], p);
  }

  /** Two free spans of a shard that touch do so where a range from the system begins. */
  lemma FreeSpansTouchOnlyAtEdges(h: Heap, id: nat, id': nat)
    requires Inv(h) && id in h.spans && id' in h.spans && FreeTogether(h.spans[id], h.spans[id'])
    requires h.spans[id].page + h.spans[id].n == h.spans[id'].page
    ensures h.spans[id'].page in h.edges
  {
    var p := h.spans[id'].page;
    assert InSpan(h.spans[id'], p) && InSpan(h.spans[id], p - 1);
    assert !InSpan(h.spans[id], p);
    assert Mergeable(h.spans, h.cover, p);
  }

  /** What a caller of `NewSpan` gets, and what everybody else keeps: exactly `k` pages, cut from the
      front of the chosen span and found from each of them; spans in use do not change. */
  ghost predicate Given(h: Heap, h': Heap, b: Bin, k: nat, id: nat, page: nat) {
    && id in h'.spans && h'.spans[id] == Span(page, k, true, false, b.shard)
    && (forall p: nat | InRange(p, page, k) :: p in h'.pmap && h'.pmap[p] == id)
    && (forall x | x in h.spans && h.spans[x].use :: x != id && x in h'.spans && h'.spans[x] == h.spans[x])
    && (forall x | x in h'.spans && h'.spans[x].use && x != id :: x in h.spans && h.spans[x] == h'.spans[x])
    && h'.cover.Keys == h.cover.Keys && h'.edges == h.edges
  }

  lemma CarveGives(h: Heap, b: Bin, k: nat, split: nat)
    requires CoverInv(h.spans, h.cover) && CanCarve(h, b, k, split)
    ensures Given(h, Carve(h, b, k, split), b, k, List(h.lists, b)[0], h.spans[List(h.lists, b)[0]].page)
  {
    hide CoverInv, SetAll, SetEnds, Carve, Push, Pop, LessTotal, Given;
    var id := List(h.lists, b)[0];
    var s := h.spans[id];
    var front := s.(n := k, use := true, cold := false);
    if k < b.n {
      var rest := s.(page := s.page + k, n := s.n - k);
      CarveSplit(h, b, k, split, id, s, front, rest);
      SplitGives(h.spans, h.cover, h.pmap, id, k, split, rest);
      GivenIs(h, Carve(h, b, k, split), b, k, id, h.spans[id := front][split := rest]);
    } else {
      CarveWhole(h, b, k, split, id, s);
      AllSet(h.pmap, s.page, k, id);
      GivenIs(h, Carve(h, b, k, split), b, k, id, h.spans[id := front]);
    }
  }

  lemma GivenIs(h: Heap, h': Heap, b: Bin, k: nat, id: nat, spans: map<nat, Span>)
    requires id in h.spans && !h.spans[id].use && h.spans[id].shard == b.shard
    requires h'.spans == spans && id in spans && spans[id] == h.spans[id].(n := k, use := true, cold := false)
    requires forall x | x in h.spans && x != id :: x in spans && spans[x] == h.spans[x]
    requires forall x | x in spans && spans[x].use && x != id :: x in h.spans && h.spans[x] == spans[x]
    requires forall p: nat | InRange(p, h.spans[id].page, k) :: p in h'.pmap && h'.pmap[p] == id
    requires h'.cover.Keys == h.cover.Keys && h'.edges == h.edges
    ensures Given(h, h', b, k, id, h.spans[id].page)
  {
  }

  lemma AllSet(m: map<nat, nat>, page: nat, n: nat, id: nat)
    ensures forall p: nat | InRange(p, page, n) :: p in SetAll(m, page, n, id) && SetAll(m, page, n, id)[p] == id
  {
  }

  lemma SplitGives(spans: map<nat, Span>, cover: map<nat, nat>, pmap: map<nat, nat>, id: nat, k: nat, split: nat, rest: Span)
    requires CoverInv(spans, cover) && id in spans && 0 < k < spans[id].n
    requires rest == spans[id].(page := spans[id].page + k, n := spans[id].n - k)
    ensures SetAll(cover, rest.page, rest.n, split).Keys == cover.Keys
    ensures forall p: nat | InRange(p, spans[id].page, k) ::
              var m := SetAll(SetEnds(pmap, rest, split), spans[id].page, k, id); p in m && m[p] == id
  {
    OwnPages(spans, cover, id);
    assert forall p: nat | InRange(p, rest.page, rest.n) :: InRange(p, spans[id].page, spans[id].n);
    SplitKeys(cover, rest.page, rest.n, split);
  }

  /** A shard with an empty hot side has no hot pages. */
  lemma NoHotPages(h: Heap, me: nat)
    requires Inv(h) && me in h.total && forall n :: List(h.lists, Bin(me, false, n)) == []
    ensures h.total[me] == 0
  {
    forall p | p in h.cover && h.cover[p] in h.spans
      ensures !IsHot(h.spans[h.cover[p]], me)
    {
      var id := h.cover[p];
      assert id in List(h.lists, Bin(me, false, h.spans[id].n)) <==> Belongs(h.spans, Bin(me, false, h.spans[id].n), id);
    }
    assert HotPages(h.spans, h.cover, me) == {};
  }

  /** The counter is never less than the pages of one hot free span. */
  lemma TotalCovers(h: Heap, id: nat)
    requires CoverInv(h.spans, h.cover) && HotInv(h.spans, h.cover, h.total) && id in h.spans && !h.spans[id].use && !h.spans[id].cold
    ensures h.spans[id].shard in h.total && h.total[h.spans[id].shard] >= h.spans[id].n
  {
    var s := h.spans[id];
    OwnPages(h.spans, h.cover, id);
    PagesCount(s.page, s.n);
    assert Pages(s.page, s.n) <= HotPages(h.spans, h.cover, s.shard);
    SubsetCount(HotPages(h.spans, h.cover, s.shard), Pages(s.page, s.n));
  }
}
