/** The allocator above the page heap (KzAlloc/ConcurrentAlloc.h, ThreadCache and CentralCache) as a state
    machine for any number of threads: one event per section under a bucket's lock, per call of the
    page heap, and per run of thread-private work in between. The page heap is what module
    PageHeap proves of it: it hands out page ranges that overlap no span in use, and every page of a
    span in use maps to that span. An address names an object. */
module Allocator {
  import opened Common
  import opened Lists
  import opened Carving
  import opened SizeClasses

  const MAX_BATCH: nat := 16

  /** Who has a span that the page heap has handed out: the thread that is about to carve it, the
      central cache, the user as one large block, or the thread that is about to give it back. */
  datatype Kind = Held(t: nat) | Small(c: nat, useCount: nat) | Large(size: nat) | Returning(t: nat)

  datatype Span = Span(page: nat, n: nat, kind: Kind)

  /** Every list of objects: a span's free list, a thread's list for a class, and, while thread `t`
      gives objects back, what is left of its list and the batches it has sorted it into. */
  datatype Box = SpanBox(id: nat) | CacheBox(t: nat, c: nat) | RestBox(t: nat) | BatchBox(t: nat, i: nat)

  /** History: where an object is. */
  datatype Where = User | In(box: Box)

  datatype Batch = Batch(span: nat, count: nat)

  /** The local state of `ReleaseListToSpans`. `next` is the class to go on with when the list came from
      a thread that is exiting. */
  datatype Rel = Rel(c: nat, batches: seq<Batch>, lastId: nat, lastSpan: nat, exiting: bool, next: nat)

  datatype Pc =
    | Idle
    | Fetch(c: nat)
    | NeedSpan(c: nat)
    | Carve(c: nat, id: nat)
    | Lookup(rel: Rel)
    | Sort(rel: Rel)
    | Return(rel: Rel, released: seq<nat>)
    | Exiting(c: nat)

  /** `home` and `place` are history: the span an object was carved from, and where it is. */
  datatype State = State(
    spans: map<nat, Span>, pmap: map<nat, nat>, bucket: map<nat, seq<nat>>, lists: map<Box, seq<nat>>,
    home: map<nat, nat>, place: map<nat, Where>, maxSize: map<Box, nat>, cached: set<nat>, threads: map<nat, Pc>)

  datatype Event =
    | Malloc(t: nat, c: nat)
    | FetchCached(t: nat)
    | NewSpan(t: nat, id: nat, page: nat)
    | NewSpanFails(t: nat)
    | CarveAndFetch(t: nat)
    | Free(t: nat, a: nat)
    | FreeSized(t: nat, a: nat, c: nat)
    | LookupNext(t: nat)
    | SortNext(t: nat)
    | Flush(t: nat)
    | ReturnNext(t: nat)
    | MallocLarge(id: nat, page: nat, size: nat)
    | FreeLarge(id: nat)
    | Exit(t: nat)
    | ExitNext(t: nat)
    | OtherPages(pmap: map<nat, nat>)

  function PageOf(a: nat): nat { a / PAGE_SIZE }

  function List(lists: map<Box, seq<nat>>, b: Box): seq<nat> { if b in lists then lists[b] else [] }

  /** The objects a span of class `c` is carved into. */
  function Objects(s: Span, c: nat): seq<nat> {
    PositiveClass(c);
    SlotsFrom(s.page * PAGE_SIZE, s.n * PAGE_SIZE, ClassSize(c))
  }

  predicate InSpan(s: Span, p: nat) { s.page <= p < s.page + s.n }

  // ---------------------------------------------------------------- moving objects between lists

  function Relocate(place: map<nat, Where>, xs: seq<nat>, w: Where): map<nat, Where> {
    map a | a in place :: if a in xs then w else place[a]
  }

  /** The first `k` objects of one list go, in their order, to the front of another. */
  function Move(lists: map<Box, seq<nat>>, from: Box, k: nat, to: Box): map<Box, seq<nat>>
    requires k <= |List(lists, from)|
  {
    lists[from := List(lists, from)[k..]][to := List(lists, from)[..k] + List(lists, to)]
  }

  /** Every list holds exactly the objects whose place it is, each once. */
  ghost predicate Boxes(lists: map<Box, seq<nat>>, place: map<nat, Where>) {
    && (forall b | b in lists :: NoRepeats(lists[b]))
    && (forall b, a {:trigger a in List(lists, b)} :: a in List(lists, b) <==> a in place && place[a] == In(b))
  }

  lemma {:induction false} SplitNoRepeats(s: seq<nat>, k: nat)
    requires NoRepeats(s) && k <= |s|
    ensures NoRepeats(s[..k]) && NoRepeats(s[k..])
    ensures forall a :: a in s <==> a in s[..k] || a in s[k..]
    ensures forall a | a in s[..k] :: a !in s[k..]
  {
    assert s == s[..k] + s[k..];
    forall i, j | 0 <= i < k && 0 <= j < |s| - k
      ensures s[..k][i] != s[k..][j]
    {
      assert s[i] != s[k + j];
    }
    forall i, j | 0 <= i < j < |s| - k
      ensures s[k..][i] != s[k..][j]
    {
      assert s[k + i] != s[k + j];
    }
  }

  lemma JoinNoRepeats(s: seq<nat>, u: seq<nat>)
    requires NoRepeats(s) && NoRepeats(u) && forall a | a in s :: a !in u
    ensures NoRepeats(s + u)
  {
    forall i, j | 0 <= i < |s| && 0 <= j < |u|
      ensures s[i] != u[j]
    {
      assert s[i] in s;
    }
  }

  lemma MovedLists(lists: map<Box, seq<nat>>, from: Box, k: nat, to: Box)
    requires from != to && k <= |List(lists, from)|
    ensures var lists' := Move(lists, from, k, to);
            && List(lists', from) == List(lists, from)[k..] && List(lists', to) == List(lists, from)[..k] + List(lists, to)
            && forall b {:trigger List(lists', b)} | b != from && b != to :: List(lists', b) == List(lists, b)
  {
  }

  lemma MoveKeeps(lists: map<Box, seq<nat>>, place: map<nat, Where>, from: Box, k: nat, to: Box)
    requires Boxes(lists, place) && from != to && k <= |List(lists, from)|
    ensures Boxes(Move(lists, from, k, to), Relocate(place, List(lists, from)[..k], In(to)))
  {
    var l, m := List(lists, from), List(lists, to);
    var lists', place' := Move(lists, from, k, to), Relocate(place, l[..k], In(to));
    SplitNoRepeats(l, k);
    forall a | a in l[..k]
      ensures a !in m
    {
      assert a in List(lists, from);
      assert a in List(lists, to) <==> a in place && place[a] == In(to);
    }
    JoinNoRepeats(l[..k], m);
    forall b, a
      ensures a in List(lists', b) <==> a in place' && place'[a] == In(b)
    {
      assert a in List(lists, b) <==> a in place && place[a] == In(b);
      assert a in List(lists, from) <==> a in place && place[a] == In(from);
    }
  }

  /** The front object of a list goes to the user. */
  lemma GiveKeeps(lists: map<Box, seq<nat>>, place: map<nat, Where>, from: Box)
    requires Boxes(lists, place) && List(lists, from) != []
    ensures var l := List(lists, from); l[0] in place && Boxes(lists[from := l[1..]], place[l[0] := User])
  {
    var l := List(lists, from);
    TailHasNoRepeats(l);
    assert l[0] in List(lists, from);
    assert l == [l[0]] + l[1..];
    var lists', place' := lists[from := l[1..]], place[l[0] := User];
    forall b, a
      ensures a in List(lists', b) <==> a in place' && place'[a] == In(b)
    {
      assert a in List(lists, b) <==> a in place && place[a] == In(b);
    }
  }

  /** An object of the user's goes to the front of a list. */
  lemma PutKeeps(lists: map<Box, seq<nat>>, place: map<nat, Where>, a: nat, to: Box)
    requires Boxes(lists, place) && a in place && place[a] == User
    ensures Boxes(lists[to := [a] + List(lists, to)], place[a := In(to)])
  {
    var lists', place' := lists[to := [a] + List(lists, to)], place[a := In(to)];
    assert a in List(lists, to) <==> a in place && place[a] == In(to);
    JoinNoRepeats([a], List(lists, to));
    forall b, x
      ensures x in List(lists', b) <==> x in place' && place'[x] == In(b)
    {
      assert x in List(lists, b) <==> x in place && place[x] == In(b);
    }
  }

  function Added(place: map<nat, Where>, xs: seq<nat>, w: Where): map<nat, Where> {
    place + map a | a in xs :: w
  }

  /** New objects appear on an empty list. */
  lemma AddKeeps(lists: map<Box, seq<nat>>, place: map<nat, Where>, xs: seq<nat>, to: Box)
    requires Boxes(lists, place) && NoRepeats(xs) && List(lists, to) == [] && forall a | a in xs :: a !in place
    ensures Boxes(lists[to := xs], Added(place, xs, In(to)))
  {
    var lists', place' := lists[to := xs], Added(place, xs, In(to));
    forall b, a
      ensures a in List(lists', b) <==> a in place' && place'[a] == In(b)
    {
      assert a in List(lists, b) <==> a in place && place[a] == In(b);
    }
  }

  function Dropped<V>(m: map<nat, V>, xs: seq<nat>): map<nat, V> {
    map a | a in m && a !in xs :: m[a]
  }

  /** The objects of a whole list cease to be. */
  lemma DropKeeps(lists: map<Box, seq<nat>>, place: map<nat, Where>, from: Box)
    requires Boxes(lists, place)
    ensures Boxes(lists - {from}, Dropped(place, List(lists, from)))
  {
    var l := List(lists, from);
    var lists', place' := lists - {from}, Dropped(place, l);
    forall b, a
      ensures a in List(lists', b) <==> a in place' && place'[a] == In(b)
    {
      assert a in List(lists, b) <==> a in place && place[a] == In(b);
      assert a in List(lists, from) <==> a in place && place[a] == In(from);
    }
  }

  // ---------------------------------------------------------------- the steps

  ghost predicate Init(s: State) {
    && s.spans == map[] && s.bucket == map[] && s.lists == map[] && s.home == map[] && s.place == map[]
    && s.maxSize == map[] && s.cached == {} && forall t | t in s.threads :: s.threads[t] == Idle
  }

  predicate IsIdle(s: State, t: nat) { t in s.threads && s.threads[t].Idle? }

  /** Pages that overlap no span in use. */
  ghost predicate NewPages(s: State, id: nat, page: nat, n: nat) {
    && id > 0 && id !in s.spans && page > 0
    && forall x, p: nat {:trigger InSpan(s.spans[x], p)} | x in s.spans && InSpan(s.spans[x], p) :: !(page <= p < page + n)
  }

  ghost predicate Enabled(s: State, e: Event) {
    match e
    case Malloc(t, c) => IsIdle(s, t) && c < MAX_NFREELISTS
    case FetchCached(t) => t in s.threads && s.threads[t].Fetch?
    case NewSpan(t, id, page) =>
      t in s.threads && s.threads[t].NeedSpan? && NewPages(s, id, page, SpanPages(s.threads[t].c))
    case NewSpanFails(t) => t in s.threads && s.threads[t].NeedSpan?
    case CarveAndFetch(t) => t in s.threads && s.threads[t].Carve?
    case Free(t, a) => IsIdle(s, t) && a in s.place && s.place[a] == User
    case FreeSized(t, a, c) => IsIdle(s, t) && a in s.place && s.place[a] == User && HasClass(s, a, c)
    case LookupNext(t) => t in s.threads && s.threads[t].Lookup? && !NeedsFlush(s, t)
    case SortNext(t) => t in s.threads && s.threads[t].Sort? && !NeedsFlush(s, t)
    case Flush(t) => t in s.threads && NeedsFlush(s, t)
    case ReturnNext(t) => t in s.threads && s.threads[t].Return?
    case MallocLarge(id, page, size) => MAX_BYTES < size <= WORD - PAGE_SIZE && NewPages(s, id, page, RoundUp(size) / PAGE_SIZE)
    case FreeLarge(id) => id in s.spans && s.spans[id].kind.Large?
    case Exit(t) => IsIdle(s, t) && t in s.cached
    case ExitNext(t) => t in s.threads && s.threads[t].Exiting?
    case OtherPages(pmap) =>
      forall x, p {:trigger InSpan(s.spans[x], p)} | x in s.spans && InSpan(s.spans[x], p) && p in s.pmap :: p in pmap && pmap[p] == s.pmap[p]
  }

  /** The caller's promise about a sized `free`: the size is in the block's own class. */
  predicate HasClass(s: State, a: nat, c: nat) {
    a in s.home && s.home[a] in s.spans && s.spans[s.home[a]].kind.Small? && s.spans[s.home[a]].kind.c == c
  }

  function SpanPages(c: nat): nat {
    PositiveClass(c);
    PageNeed(ClassSize(c))
  }

  predicate Releasing(pc: Pc) { pc.Lookup? || pc.Sort? || pc.Return? }

  function IndexOf(batches: seq<Batch>, span: nat): (i: nat)
    ensures i <= |batches|
    ensures i < |batches| ==> batches[i].span == span
    ensures forall j | 0 <= j < i :: batches[j].span != span
  {
    if batches == [] then 0 else if batches[0].span == span then 0 else 1 + IndexOf(batches[1..], span)
  }

  /** The batches have to go back under the lock now: the list is done, or there is no batch left for
      the object just looked up. */
  predicate NeedsFlush(s: State, t: nat)
    requires t in s.threads
  {
    match s.threads[t]
    case Lookup(rel) => List(s.lists, RestBox(t)) == [] && rel.batches != []
    case Sort(rel) => IndexOf(rel.batches, rel.lastSpan) == |rel.batches| == MAX_BATCH
    case _ => false
  }

  function Goto(s: State, t: nat, pc: Pc): State { s.(threads := s.threads[t := pc]) }

  function Max(maxSize: map<Box, nat>, b: Box): nat { if b in maxSize then maxSize[b] else 1 }

  /** A thread's limits end with its cache. */
  function WithoutCache(maxSize: map<Box, nat>, t: nat): map<Box, nat> {
    map b | b in maxSize && !(b.CacheBox? && b.t == t) :: maxSize[b]
  }

  function Get(pmap: map<nat, nat>, p: nat): nat { if p in pmap then pmap[p] else 0 }

  function BucketOf(bucket: map<nat, seq<nat>>, c: nat): seq<nat> { if c in bucket then bucket[c] else [] }

  /** The first span of the bucket that has an object, or none (0). */
  function FirstWithObjects(ids: seq<nat>, lists: map<Box, seq<nat>>): (id: nat)
    ensures id != 0 ==> id in ids && List(lists, SpanBox(id)) != []
  {
    if ids == [] then 0
    else if List(lists, SpanBox(ids[0])) != [] then ids[0] else FirstWithObjects(ids[1..], lists)
  }

  /** Takes as many objects as wanted and there are off span `id`: the first for the user, the others
      for the thread's own list. */
  function Extract(s: State, t: nat, c: nat, id: nat): State
    requires id in s.spans && s.spans[id].kind.Small? && List(s.lists, SpanBox(id)) != []
  {
    var l, box := List(s.lists, SpanBox(id)), CacheBox(t, c);
    var want := Max(s.maxSize, box);
    var k := if want == 0 then 1 else Min(want, |l|);
    var lists1 := s.lists[SpanBox(id) := l[1..]];
    Goto(s, t, Idle).(
      spans := s.spans[id := s.spans[id].(kind := Small(s.spans[id].kind.c, s.spans[id].kind.useCount + k))],
      lists := Move(lists1, SpanBox(id), k - 1, box),
      place := Relocate(s.place[l[0] := User], l[1..][..k - 1], In(box)))
  }

  function MapPages(pmap: map<nat, nat>, page: nat, n: nat, id: nat): map<nat, nat> {
    pmap + map p: nat | page <= p < page + n && InSpan(Span(page, n, Held(0)), p) :: id
  }

  function AddSpan(s: State, id: nat, page: nat, n: nat, kind: Kind): State {
    s.(spans := s.spans[id := Span(page, n, kind)], pmap := MapPages(s.pmap, page, n, id))
  }

  /** The carved span, all its objects free, at the front of its bucket. */
  function Carved(s: State, t: nat, c: nat, id: nat): State
    requires id in s.spans
  {
    var objects := Objects(s.spans[id], c);
    s.(spans := s.spans[id := s.spans[id].(kind := Small(c, 0))],
       bucket := s.bucket[c := [id] + BucketOf(s.bucket, c)],
       lists := s.lists[SpanBox(id) := objects],
       home := s.home + map a | a in objects :: id,
       place := Added(s.place, objects, In(SpanBox(id))))
  }

  /** Object `a` of class `c` goes on the thread's list; if that is too long now, a run of objects comes
      off it again to be given back. */
  function Deallocate(s: State, t: nat, a: nat, c: nat): State
    requires c < MAX_NFREELISTS
  {
    var box := CacheBox(t, c);
    var s1 := s.(lists := s.lists[box := [a] + List(s.lists, box)], place := s.place[a := In(box)]);
    var n := NumMoveSize(c);
    if |List(s1.lists, box)| >= Max(s.maxSize, box) + n then
      Goto(s1, t, Lookup(Rel(c, [], 0, 0, false, 0))).(
        lists := Move(s1.lists, box, n, RestBox(t)),
        place := Relocate(s1.place, List(s1.lists, box)[..n], In(RestBox(t))))
    else s1
  }

  /** One more object for batch `i`, or the first for a new batch. */
  function Sorted(rel: Rel, i: nat): Rel
    requires i <= |rel.batches|
  {
    rel.(batches := if i < |rel.batches| then rel.batches[i := Batch(rel.lastSpan, rel.batches[i].count + 1)]
                    else rel.batches + [Batch(rel.lastSpan, 1)])
  }

  function Finish(rel: Rel): Pc { if rel.exiting then Exiting(rel.next) else Idle }

  /** One batch goes back to its span, which leaves its bucket when nothing of it is out any more. */
  function FlushOne(s: State, t: nat, i: nat, b: Batch): State {
    if !(b.span in s.spans && s.spans[b.span].kind.Small? && b.count <= s.spans[b.span].kind.useCount) then s
    else
      var l, box := List(s.lists, BatchBox(t, i)), SpanBox(b.span);
      var c, useCount := s.spans[b.span].kind.c, s.spans[b.span].kind.useCount - b.count;
      var s1 := s.(lists := Move(s.lists, BatchBox(t, i), |l|, box), place := Relocate(s.place, l, In(box)),
                   spans := s.spans[b.span := s.spans[b.span].(kind := Small(c, useCount))]);
      if useCount > 0 then s1
      else
        var all := List(s1.lists, box);
        s1.(spans := s1.spans[b.span := s1.spans[b.span].(kind := Returning(t))],
            bucket := s1.bucket[c := Without(BucketOf(s1.bucket, c), b.span)],
            lists := s1.lists - {box}, home := Dropped(s1.home, all), place := Dropped(s1.place, all))
  }

  function FlushFrom(s: State, t: nat, batches: seq<Batch>, i: nat): State
    requires i <= |batches|
    decreases |batches| - i
  {
    if i == |batches| then s else FlushFrom(FlushOne(s, t, i, batches[i]), t, batches, i + 1)
  }

  /** The spans of the batches that are to go back to the page heap. */
  function ReleasedOf(spans: map<nat, Span>, t: nat, batches: seq<Batch>): seq<nat> {
    if batches == [] then []
    else
      var rest := ReleasedOf(spans, t, batches[1..]);
      if batches[0].span in spans && spans[batches[0].span].kind == Returning(t) then [batches[0].span] + rest else rest
  }

  function Next(s: State, e: Event): State
    requires Enabled(s, e)
  {
    match e
    case Malloc(t, c) =>
      var box, s1 := CacheBox(t, c), s.(cached := s.cached + {t});
      var l := List(s.lists, box);
      if l != [] then s1.(lists := s.lists[box := l[1..]], place := s.place[l[0] := User])
      else Goto(s1, t, Fetch(c)).(maxSize := s.maxSize[box := Min(2 * Max(s.maxSize, box), NumMoveSize(c))])
    case FetchCached(t) =>
      var c := s.threads[t].c;
      var id := FirstWithObjects(BucketOf(s.bucket, c), s.lists);
      if id == 0 || id !in s.spans || !s.spans[id].kind.Small? then Goto(s, t, NeedSpan(c)) else Extract(s, t, c, id)
    case NewSpan(t, id, page) =>
      var c := s.threads[t].c;
      Goto(AddSpan(s, id, page, SpanPages(c), Held(t)), t, Carve(c, id))
    case NewSpanFails(t) => Goto(s, t, Idle)
    case CarveAndFetch(t) =>
      var c, id := s.threads[t].c, s.threads[t].id;
      if id !in s.spans || Objects(s.spans[id], c) == [] then s else Extract(Goto(Carved(s, t, c, id), t, Fetch(c)), t, c, id)
    case Free(t, a) =>
      var id := Get(s.pmap, PageOf(a));
      if id !in s.spans || !s.spans[id].kind.Small? || s.spans[id].kind.c >= MAX_NFREELISTS then s
      else Deallocate(s.(cached := s.cached + {t}), t, a, s.spans[id].kind.c)
    case FreeSized(t, a, c) =>
      if c >= MAX_NFREELISTS then s
      else if t in s.cached then Deallocate(s, t, a, c)
      else Goto(s, t, Lookup(Rel(c, [], 0, 0, false, 0))).(
          lists := s.lists[RestBox(t) := [a] + List(s.lists, RestBox(t))], place := s.place[a := In(RestBox(t))])
    case LookupNext(t) =>
      var rel, rest := s.threads[t].rel, List(s.lists, RestBox(t));
      if rest == [] then Goto(s, t, Finish(rel))
      else
        var p := PageOf(rest[0]);
        Goto(s, t, Sort(if p == rel.lastId then rel else rel.(lastId := p, lastSpan := Get(s.pmap, p))))
    case SortNext(t) =>
      var rel := s.threads[t].rel;
      var i := IndexOf(rel.batches, rel.lastSpan);
      if List(s.lists, RestBox(t)) == [] then s
      else
        Goto(s, t, Lookup(Sorted(rel, i))).(
          lists := Move(s.lists, RestBox(t), 1, BatchBox(t, i)),
          place := Relocate(s.place, List(s.lists, RestBox(t))[..1], In(BatchBox(t, i))))
    case Flush(t) =>
      var rel := s.threads[t].rel;
      var s1 := FlushFrom(s, t, rel.batches, 0);
      Goto(s1, t, Return(rel.(batches := []), ReleasedOf(s1.spans, t, rel.batches)))
    case ReturnNext(t) =>
      var rel, released := s.threads[t].rel, s.threads[t].released;
      if released == [] then Goto(s, t, if List(s.lists, RestBox(t)) == [] then Finish(rel) else Sort(rel))
      else Goto(s, t, Return(rel, released[1..])).(spans := s.spans - {released[0]})
    case MallocLarge(id, page, size) => AddSpan(s, id, page, RoundUp(size) / PAGE_SIZE, Large(RoundUp(size)))
    case FreeLarge(id) => s.(spans := s.spans - {id})
    case Exit(t) => Goto(s, t, Exiting(0))
    case ExitNext(t) =>
      var c := s.threads[t].c;
      var box := CacheBox(t, c);
      var l := List(s.lists, box);
      if c >= MAX_NFREELISTS then Goto(s, t, Idle).(cached := s.cached - {t}, maxSize := WithoutCache(s.maxSize, t))
      else if l == [] then Goto(s, t, Exiting(c + 1))
      else Goto(s, t, Lookup(Rel(c, [], 0, 0, true, c + 1))).(
          lists := Move(s.lists, box, |l|, RestBox(t)), place := Relocate(s.place, l[..|l|], In(RestBox(t))))
    case OtherPages(pmap) => s.(pmap := pmap)
  }

  // ---------------------------------------------------------------- the invariant

  /** Every page of a span in use maps to it; so spans in use do not overlap. */
  ghost predicate SpansInv(spans: map<nat, Span>, pmap: map<nat, nat>) {
    && (forall id | id in spans :: id > 0 && spans[id].page > 0 && (spans[id].kind.Small? ==> spans[id].kind.c < MAX_NFREELISTS))
    && (forall id, p {:trigger InSpan(spans[id], p)} | id in spans && InSpan(spans[id], p) :: p in pmap && pmap[p] == id)
  }

  predicate IsObject(s: Span, a: nat) { s.kind.Small? && a in Objects(s, s.kind.c) }

  /** The objects are those of the carved spans. */
  ghost predicate HomeInv(spans: map<nat, Span>, home: map<nat, nat>) {
    && (forall a | a in home :: home[a] in spans && IsObject(spans[home[a]], a))
    && (forall id, a {:trigger IsObject(spans[id], a)} | id in spans && IsObject(spans[id], a) :: a in home && home[a] == id)
  }

  predicate HasBatch(pc: Pc, i: nat, id: nat) { Releasing(pc) && i < |pc.rel.batches| && pc.rel.batches[i].span == id }

  /** An object is only where objects of its span, or of its class, can be. */
  predicate WhereOk(spans: map<nat, Span>, cached: set<nat>, threads: map<nat, Pc>, id: nat, w: Where) {
    match w
    case User => true
    case In(SpanBox(x)) => x == id
    case In(CacheBox(t, c)) => t in cached && id in spans && spans[id].kind.Small? && spans[id].kind.c == c
    case In(RestBox(t)) => t in threads && Releasing(threads[t]) && id in spans && spans[id].kind.Small? && spans[id].kind.c == threads[t].rel.c
    case In(BatchBox(t, i)) => t in threads && HasBatch(threads[t], i, id)
  }

  ghost predicate PlacesInv(spans: map<nat, Span>, cached: set<nat>, threads: map<nat, Pc>, home: map<nat, nat>, place: map<nat, Where>) {
    && place.Keys == home.Keys
    && forall a {:trigger place[a]} | a in place :: WhereOk(spans, cached, threads, home[a], place[a])
  }

  /** `_useCount` and the length of the free list add up to the number of objects carved. */
  ghost predicate CountInv(spans: map<nat, Span>, lists: map<Box, seq<nat>>) {
    forall id | id in spans && spans[id].kind.Small? ::
      spans[id].kind.useCount + |List(lists, SpanBox(id))| == |Objects(spans[id], spans[id].kind.c)|
  }

  predicate InBucket(spans: map<nat, Span>, c: nat, id: nat) { id in spans && spans[id].kind.Small? && spans[id].kind.c == c }

  ghost predicate BucketInv(spans: map<nat, Span>, bucket: map<nat, seq<nat>>) {
    && (forall c | c in bucket :: NoRepeats(bucket[c]))
    && (forall c, id {:trigger id in BucketOf(bucket, c)} :: id in BucketOf(bucket, c) <==> InBucket(spans, c, id))
  }

  /** A thread's list is shorter than its slow-start limit and one move together. */
  predicate CacheOk(len: nat, max: nat, c: nat)
    requires c < MAX_NFREELISTS
  {
    1 <= max <= NumMoveSize(c) && len < max + NumMoveSize(c)
  }

  ghost predicate CachesInv(lists: map<Box, seq<nat>>, maxSize: map<Box, nat>) {
    forall t, c: nat {:trigger CacheBox(t, c)} | c < MAX_NFREELISTS ::
      CacheOk(|List(lists, CacheBox(t, c))|, Max(maxSize, CacheBox(t, c)), c)
  }

  ghost predicate DistinctSpans(batches: seq<Batch>) { forall i, j | 0 <= i < j < |batches| :: batches[i].span != batches[j].span }

  /** The sorted part of a list being given back, and the one-entry lookup cache. */
  ghost predicate RelOk(spans: map<nat, Span>, cached: set<nat>, lists: map<Box, seq<nat>>, home: map<nat, nat>, t: nat, rel: Rel) {
    && rel.c < MAX_NFREELISTS && |rel.batches| <= MAX_BATCH && DistinctSpans(rel.batches)
    && (forall i: nat | i < |rel.batches| :: BatchOk(spans, lists, t, rel.c, i, rel.batches[i]))
    && (forall a | a in List(lists, RestBox(t)) && PageOf(a) == rel.lastId :: a in home && home[a] == rel.lastSpan)
    && (rel.exiting ==> t in cached && rel.next <= MAX_NFREELISTS && EmptyBelow(lists, t, rel.next))
  }

  predicate BatchOk(spans: map<nat, Span>, lists: map<Box, seq<nat>>, t: nat, c: nat, i: nat, b: Batch) {
    InBucket(spans, c, b.span) && b.count == |List(lists, BatchBox(t, i))| > 0
  }

  ghost predicate EmptyBelow(lists: map<Box, seq<nat>>, t: nat, c: nat) {
    forall x: nat {:trigger CacheBox(t, x)} | x < c :: List(lists, CacheBox(t, x)) == []
  }

  ghost predicate PcOk(spans: map<nat, Span>, cached: set<nat>, lists: map<Box, seq<nat>>, home: map<nat, nat>, t: nat, pc: Pc) {
    match pc
    case Idle => true
    case Fetch(c) => c < MAX_NFREELISTS && t in cached && List(lists, CacheBox(t, c)) == []
    case NeedSpan(c) => c < MAX_NFREELISTS && t in cached && List(lists, CacheBox(t, c)) == []
    case Carve(c, id) =>
      && c < MAX_NFREELISTS && t in cached && List(lists, CacheBox(t, c)) == []
      && id in spans && spans[id].kind == Held(t) && spans[id].n == SpanPages(c)
    case Lookup(rel) => RelOk(spans, cached, lists, home, t, rel)
    case Sort(rel) =>
      && RelOk(spans, cached, lists, home, t, rel)
      && List(lists, RestBox(t)) != [] && rel.lastId == PageOf(List(lists, RestBox(t))[0])
    case Return(rel, released) =>
      && RelOk(spans, cached, lists, home, t, rel) && rel.batches == [] && NoRepeats(released)
      && (forall id | id in released :: id in spans && spans[id].kind == Returning(t))
      && (List(lists, RestBox(t)) != [] ==> rel.lastId == PageOf(List(lists, RestBox(t))[0]))
    case Exiting(c) => t in cached && c <= MAX_NFREELISTS && EmptyBelow(lists, t, c)
  }

  ghost predicate ThreadsInv(s: State) {
    forall t | t in s.threads :: PcOk(s.spans, s.cached, s.lists, s.home, t, s.threads[t])
  }

  ghost predicate Inv(s: State) {
    && SpansInv(s.spans, s.pmap) && HomeInv(s.spans, s.home) && Boxes(s.lists, s.place)
    && PlacesInv(s.spans, s.cached, s.threads, s.home, s.place)
    && CountInv(s.spans, s.lists) && BucketInv(s.spans, s.bucket) && CachesInv(s.lists, s.maxSize) && ThreadsInv(s)
  }

  lemma InitInv(s: State)
    requires Init(s)
    ensures Inv(s)
  {
  }

  // ---------------------------------------------------------------- every step keeps the invariant

  predicate OfThread(b: Box, t: nat) { !b.SpanBox? && b.t == t }

  /** What a step of thread `t` leaves alone, as far as thread `u` is concerned. */
  ghost predicate Rely(s: State, s': State, u: nat)
    requires u in s.threads
  {
    && (u in s.cached ==> u in s'.cached)
    && (forall b {:trigger OfThread(b, u)} | OfThread(b, u) :: List(s'.lists, b) == List(s.lists, b))
    && (forall a | a in List(s.lists, RestBox(u)) && a in s.home :: a in s'.home && s'.home[a] == s.home[a])
    && (forall id | id in s.spans && (s.spans[id].kind == Held(u) || s.spans[id].kind == Returning(u)) ::
         id in s'.spans && s'.spans[id] == s.spans[id])
    && (forall i: nat | Releasing(s.threads[u]) && i < |s.threads[u].rel.batches| ::
         KeepsBucket(s.spans, s'.spans, s.threads[u].rel.batches[i].span))
  }

  predicate KeepsBucket(spans: map<nat, Span>, spans': map<nat, Span>, id: nat) {
    id in spans && spans[id].kind.Small? ==> id in spans' && spans'[id].kind.Small? && spans'[id].kind.c == spans[id].kind.c
  }

  lemma OtherThread(s: State, s': State, u: nat)
    requires u in s.threads && PcOk(s.spans, s.cached, s.lists, s.home, u, s.threads[u]) && Rely(s, s', u)
    ensures PcOk(s'.spans, s'.cached, s'.lists, s'.home, u, s.threads[u])
  {
    assert OfThread(RestBox(u), u);
    forall c: nat
      ensures List(s'.lists, CacheBox(u, c)) == List(s.lists, CacheBox(u, c))
    {
      assert OfThread(CacheBox(u, c), u);
    }
    forall i: nat
      ensures List(s'.lists, BatchBox(u, i)) == List(s.lists, BatchBox(u, i))
    {
      assert OfThread(BatchBox(u, i), u);
    }
  }

  /** A step of thread `t`: what others rely on. */
  lemma ThreadsStep(s: State, s': State, t: nat)
    requires ThreadsInv(s) && t in s'.threads && s'.threads == s.threads[t := s'.threads[t]]
    requires forall u | u in s.threads && u != t :: Rely(s, s', u)
    requires PcOk(s'.spans, s'.cached, s'.lists, s'.home, t, s'.threads[t])
    ensures ThreadsInv(s')
  {
    forall u | u in s'.threads && u != t
      ensures PcOk(s'.spans, s'.cached, s'.lists, s'.home, u, s'.threads[u])
    {
      OtherThread(s, s', u);
    }
  }

  /** A step of thread `t` that only touches its own lists and free lists, and keeps spans and objects. */
  ghost predicate Tame(s: State, s': State, t: nat) {
    && s'.home == s.home && s'.spans.Keys == s.spans.Keys && s.cached <= s'.cached
    && (forall b: Box {:trigger List(s'.lists, b)} | !b.SpanBox? && b.t != t :: List(s'.lists, b) == List(s.lists, b))
    && (forall id | id in s.spans :: SameSpan(s.spans[id], s'.spans[id]))
  }

  /** The same span, except that its use count may differ. */
  predicate SameSpan(s: Span, s': Span) {
    s' == s || (s.kind.Small? && s'.kind.Small? && s' == s.(kind := Small(s.kind.c, s'.kind.useCount)))
  }

  lemma TameRely(s: State, s': State, t: nat, u: nat)
    requires Tame(s, s', t) && u != t && u in s.threads
    ensures Rely(s, s', u)
  {
    forall b | OfThread(b, u)
      ensures List(s'.lists, b) == List(s.lists, b)
    {
    }
  }

  lemma TameLists(s: State, s': State, t: nat)
    requires s'.home == s.home && s'.spans == s.spans && s.cached <= s'.cached
    requires forall b: Box {:trigger List(s'.lists, b)} | !b.SpanBox? && b.t != t :: List(s'.lists, b) == List(s.lists, b)
    ensures Tame(s, s', t)
  {
  }

  lemma ThreadOk(s: State, t: nat)
    requires ThreadsInv(s) && t in s.threads
    ensures PcOk(s.spans, s.cached, s.lists, s.home, t, s.threads[t])
  {
  }

  lemma TameThreads(s: State, s': State, t: nat)
    requires ThreadsInv(s) && Tame(s, s', t) && t in s'.threads && s'.threads == s.threads[t := s'.threads[t]]
    requires PcOk(s'.spans, s'.cached, s'.lists, s'.home, t, s'.threads[t])
    ensures ThreadsInv(s')
  {
    forall u | u in s.threads && u != t
      ensures Rely(s, s', u)
    {
      TameRely(s, s', t, u);
    }
    ThreadsStep(s, s', t);
  }

  lemma TameSpans(s: State, s': State, t: nat)
    requires SpansInv(s.spans, s.pmap) && HomeInv(s.spans, s.home) && BucketInv(s.spans, s.bucket)
    requires Tame(s, s', t) && s'.pmap == s.pmap && s'.bucket == s.bucket
    ensures SpansInv(s'.spans, s'.pmap) && HomeInv(s'.spans, s'.home) && BucketInv(s'.spans, s'.bucket)
  {
    hide BucketOf;
    forall id, p | id in s'.spans && InSpan(s'.spans[id], p)
      ensures p in s'.pmap && s'.pmap[p] == id
    {
      assert SameSpan(s.spans[id], s'.spans[id]) && InSpan(s.spans[id], p);
    }
    forall id, a | id in s'.spans && IsObject(s'.spans[id], a)
      ensures a in s'.home && s'.home[a] == id
    {
      assert SameSpan(s.spans[id], s'.spans[id]) && IsObject(s.spans[id], a);
    }
    forall a | a in s'.home
      ensures s'.home[a] in s'.spans && IsObject(s'.spans[s'.home[a]], a)
    {
      assert SameSpan(s.spans[s.home[a]], s'.spans[s'.home[a]]) && IsObject(s.spans[s.home[a]], a);
    }
    forall c, id
      ensures id in BucketOf(s'.bucket, c) <==> InBucket(s'.spans, c, id)
    {
      assert id in BucketOf(s.bucket, c) <==> InBucket(s.spans, c, id);
      assert id in s.spans ==> SameSpan(s.spans[id], s'.spans[id]);
    }
  }

  /** Where objects may be after such a step, object by object: those that moved, and thread `t`'s. */
  lemma TamePlaces(s: State, s': State, t: nat)
    requires PlacesInv(s.spans, s.cached, s.threads, s.home, s.place)
    requires Tame(s, s', t) && s'.place.Keys == s.place.Keys
    requires t in s'.threads && s'.threads == s.threads[t := s'.threads[t]]
    requires forall a | a in s.place && (s'.place[a] != s.place[a] || (s.place[a].In? && OfThread(s.place[a].box, t))) ::
               WhereOk(s'.spans, s'.cached, s'.threads, s.home[a], s'.place[a])
    ensures PlacesInv(s'.spans, s'.cached, s'.threads, s'.home, s'.place)
  {
    forall a | a in s'.place
      ensures WhereOk(s'.spans, s'.cached, s'.threads, s'.home[a], s'.place[a])
    {
      assert WhereOk(s.spans, s.cached, s.threads, s.home[a], s.place[a]);
      assert s.home[a] in s.spans ==> SameSpan(s.spans[s.home[a]], s'.spans[s.home[a]]);
    }
  }

  lemma EmptyBox(lists: map<Box, seq<nat>>, place: map<nat, Where>, b: Box)
    requires Boxes(lists, place) && forall a | a in place :: place[a] != In(b)
    ensures List(lists, b) == []
  {
    HasMember(List(lists, b));
    assert forall a :: a in List(lists, b) <==> a in place && place[a] == In(b);
  }

  /** A thread that is not giving objects back has none in hand. */
  lemma NothingInHand(s: State, t: nat)
    requires Boxes(s.lists, s.place) && PlacesInv(s.spans, s.cached, s.threads, s.home, s.place)
    requires t in s.threads && !Releasing(s.threads[t])
    ensures List(s.lists, RestBox(t)) == [] && forall i {:trigger BatchBox(t, i)} :: List(s.lists, BatchBox(t, i)) == []
  {
    EmptyBox(s.lists, s.place, RestBox(t));
    forall i
      ensures List(s.lists, BatchBox(t, i)) == []
    {
      EmptyBox(s.lists, s.place, BatchBox(t, i));
    }
  }

  lemma GotoInv(s: State, t: nat, pc: Pc)
    requires Inv(s) && t in s.threads && !Releasing(s.threads[t]) && !Releasing(pc)
    requires PcOk(s.spans, s.cached, s.lists, s.home, t, pc)
    ensures Inv(Goto(s, t, pc))
  {
    hide SpansInv, HomeInv, Boxes, PlacesInv, CountInv, BucketInv, CachesInv, Tame, PcOk;
    var s' := Goto(s, t, pc);
    TameLists(s, s', t);
    QuietPlaces(s, s', t);
    TameSpans(s, s', t);
    TameThreads(s, s', t);
  }

  /** Taking objects off a carved span of the right class for a thread whose own list is empty. */
  ghost predicate CanExtract(s: State, t: nat, c: nat, id: nat) {
    && t in s.threads && !Releasing(s.threads[t]) && c < MAX_NFREELISTS && t in s.cached && List(s.lists, CacheBox(t, c)) == []
    && InBucket(s.spans, c, id) && List(s.lists, SpanBox(id)) != []
  }

  lemma ExtractBoxes(s: State, t: nat, c: nat, id: nat)
    requires Boxes(s.lists, s.place) && CanExtract(s, t, c, id)
    ensures var s' := Extract(s, t, c, id); Boxes(s'.lists, s'.place)
  {
    var l, box := List(s.lists, SpanBox(id)), CacheBox(t, c);
    GiveKeeps(s.lists, s.place, SpanBox(id));
    var want := Max(s.maxSize, box);
    var k := if want == 0 then 1 else Min(want, |l|);
    MoveKeeps(s.lists[SpanBox(id) := l[1..]], s.place[l[0] := User], SpanBox(id), k - 1, box);
  }

  lemma ExtractTame(s: State, t: nat, c: nat, id: nat)
    requires CanExtract(s, t, c, id)
    ensures Tame(s, Extract(s, t, c, id), t)
    ensures var s' := Extract(s, t, c, id); s'.pmap == s.pmap && s'.bucket == s.bucket && s'.maxSize == s.maxSize && s'.cached == s.cached
  {
    hide List, Move, Relocate, Max, NumMoveSize, ClassSize;
    ExtractLengths(s, t, c, id);
  }

  /** Only where the span lies says what its objects are. */
  lemma SameObjects(s: Span, s': Span, c: nat)
    requires s'.page == s.page && s'.n == s.n
    ensures Objects(s', c) == Objects(s, c)
  {
    hide SlotsFrom, ClassSize;
  }

  lemma PutList(lists: map<Box, seq<nat>>, box: Box, l: seq<nat>)
    ensures List(lists[box := l], box) == l
    ensures forall b {:trigger List(lists[box := l], b)} | b != box :: List(lists[box := l], b) == List(lists, b)
  {
  }

  lemma ExtractedLists(lists: map<Box, seq<nat>>, from: Box, k: nat, to: Box)
    requires from != to && 0 < k <= |List(lists, from)|
    ensures var lists' := Move(lists[from := List(lists, from)[1..]], from, k - 1, to);
            && |List(lists', from)| == |List(lists, from)| - k && |List(lists', to)| == k - 1 + |List(lists, to)|
            && forall b {:trigger List(lists', b)} | b != from && b != to :: List(lists', b) == List(lists, b)
  {
    hide List, Move;
    var lists1 := lists[from := List(lists, from)[1..]];
    PutList(lists, from, List(lists, from)[1..]);
    MovedLists(lists1, from, k - 1, to);
  }

  /** The lengths of the lists after an extraction: `k` objects leave the span, and all but one of them
      are with the thread. */
  lemma ExtractLengths(s: State, t: nat, c: nat, id: nat)
    requires CanExtract(s, t, c, id)
    ensures var s' := Extract(s, t, c, id); var k := |List(s.lists, SpanBox(id))| - |List(s'.lists, SpanBox(id))|;
            && s'.spans == s.spans[id := s.spans[id].(kind := Small(s.spans[id].kind.c, s.spans[id].kind.useCount + k))]
            && 1 <= k && (Max(s.maxSize, CacheBox(t, c)) > 0 ==> k <= Max(s.maxSize, CacheBox(t, c)))
            && |List(s'.lists, CacheBox(t, c))| == k - 1 && s'.maxSize == s.maxSize
            && forall b {:trigger List(s'.lists, b)} | b != SpanBox(id) && b != CacheBox(t, c) :: List(s'.lists, b) == List(s.lists, b)
  {
    hide Relocate, List, Move, Max, NumMoveSize, ClassSize;
    var want := Max(s.maxSize, CacheBox(t, c));
    ExtractedLists(s.lists, SpanBox(id), if want == 0 then 1 else Min(want, |List(s.lists, SpanBox(id))|), CacheBox(t, c));
  }

  lemma ExtractCaches(s: State, t: nat, c: nat, id: nat)
    requires CachesInv(s.lists, s.maxSize) && CanExtract(s, t, c, id)
    ensures var s' := Extract(s, t, c, id); CachesInv(s'.lists, s'.maxSize)
  {
    hide Extract, List, Max, Objects, NumMoveSize, ClassSize;
    ExtractLengths(s, t, c, id);
    var s', box := Extract(s, t, c, id), CacheBox(t, c);
    assert CacheOk(|List(s.lists, box)|, Max(s.maxSize, box), c);
    forall u, x: nat | x < MAX_NFREELISTS
      ensures CacheOk(|List(s'.lists, CacheBox(u, x))|, Max(s'.maxSize, CacheBox(u, x)), x)
    {
      assert CacheOk(|List(s.lists, CacheBox(u, x))|, Max(s.maxSize, CacheBox(u, x)), x);
    }
  }

  lemma ExtractCounts(s: State, t: nat, c: nat, id: nat)
    requires CountInv(s.spans, s.lists) && CachesInv(s.lists, s.maxSize) && CanExtract(s, t, c, id)
    ensures var s' := Extract(s, t, c, id); CountInv(s'.spans, s'.lists) && CachesInv(s'.lists, s'.maxSize)
  {
    hide Extract, List, Max, Objects, NumMoveSize, ClassSize, CachesInv;
    ExtractLengths(s, t, c, id);
    ExtractCaches(s, t, c, id);
    var s' := Extract(s, t, c, id);
    forall x | x in s'.spans && s'.spans[x].kind.Small?
      ensures s'.spans[x].kind.useCount + |List(s'.lists, SpanBox(x))| == |Objects(s'.spans[x], s'.spans[x].kind.c)|
    {
      SameObjects(s.spans[x], s'.spans[x], s.spans[x].kind.c);
    }
  }

  lemma ExtractMoved(s: State, t: nat, c: nat, id: nat)
    requires Boxes(s.lists, s.place) && PlacesInv(s.spans, s.cached, s.threads, s.home, s.place) && CanExtract(s, t, c, id)
    ensures var s' := Extract(s, t, c, id);
            && s'.threads == s.threads[t := Idle] && s'.home == s.home && s'.place.Keys == s.place.Keys
            && forall a | a in s.place && s'.place[a] != s.place[a] ::
                 s.home[a] == id && (s'.place[a] == User || s'.place[a] == In(CacheBox(t, c)))
  {
    hide Boxes, Relocate, Move, Max, List, Objects, ClassSize, NumMoveSize, PlacesInv;
    var l, want := List(s.lists, SpanBox(id)), Max(s.maxSize, CacheBox(t, c));
    TakenFrom(s, id);
    RunPlaces(s.place, l, if want == 0 then 1 else Min(want, |l|), CacheBox(t, c));
  }

  lemma ExtractPlaces(s: State, t: nat, c: nat, id: nat)
    requires Boxes(s.lists, s.place) && PlacesInv(s.spans, s.cached, s.threads, s.home, s.place) && CanExtract(s, t, c, id)
    ensures var s' := Extract(s, t, c, id); PlacesInv(s'.spans, s'.cached, s'.threads, s'.home, s'.place)
  {
    hide Boxes, Extract, Relocate, Move, Max, List, Objects, ClassSize, NumMoveSize;
    var s' := Extract(s, t, c, id);
    ExtractTame(s, t, c, id);
    ExtractMoved(s, t, c, id);
    forall a | a in s.place && (s'.place[a] != s.place[a] || (s.place[a].In? && OfThread(s.place[a].box, t)))
      ensures WhereOk(s'.spans, s'.cached, s'.threads, s.home[a], s'.place[a])
    {
      assert WhereOk(s.spans, s.cached, s.threads, s.home[a], s.place[a]);
    }
    TamePlaces(s, s', t);
  }

  /** Where the objects of a run of `k` go, the first to the user and the others to a list. */
  lemma RunPlaces(place: map<nat, Where>, l: seq<nat>, k: nat, box: Box)
    requires 0 < k <= |l| && forall a | a in l :: a in place
    ensures var place' := Relocate(place[l[0] := User], l[1..][..k - 1], In(box));
            && place'.Keys == place.Keys
            && forall a | a in place :: place'[a] == place[a] || (a in l && (place'[a] == User || place'[a] == In(box)))
  {
    assert l[0] in l;
    var run := l[1..][..k - 1];
    forall a | a in run
      ensures a in l
    {
      var i :| 0 <= i < |run| && run[i] == a;
      assert l[i + 1] == a;
    }
  }

  /** The objects on a span's free list are its own. */
  lemma TakenFrom(s: State, id: nat)
    requires Boxes(s.lists, s.place) && PlacesInv(s.spans, s.cached, s.threads, s.home, s.place)
    ensures forall a | a in List(s.lists, SpanBox(id)) :: a in s.place && s.place[a] == In(SpanBox(id)) && s.home[a] == id
    ensures var l := List(s.lists, SpanBox(id)); l != [] ==> l[0] in l && forall a | a in l[1..] :: a in l
  {
    forall a | a in List(s.lists, SpanBox(id))
      ensures a in s.place && s.place[a] == In(SpanBox(id)) && s.home[a] == id
    {
      assert WhereOk(s.spans, s.cached, s.threads, s.home[a], s.place[a]);
    }
  }

  lemma ExtractInv(s: State, t: nat, c: nat, id: nat)
    requires Inv(s) && CanExtract(s, t, c, id)
    ensures Inv(Extract(s, t, c, id))
  {
    var s' := Extract(s, t, c, id);
    ExtractTame(s, t, c, id);
    ExtractBoxes(s, t, c, id);
    ExtractCounts(s, t, c, id);
    ExtractPlaces(s, t, c, id);
    TameSpans(s, s', t);
    TameThreads(s, s', t);
  }

  lemma FetchCachedInv(s: State, t: nat)
    requires Inv(s) && Enabled(s, FetchCached(t))
    ensures Inv(Next(s, FetchCached(t)))
  {
    var c := s.threads[t].c;
    assert PcOk(s.spans, s.cached, s.lists, s.home, t, s.threads[t]);
    var id := FirstWithObjects(BucketOf(s.bucket, c), s.lists);
    if id == 0 {
      GotoInv(s, t, NeedSpan(c));
    } else {
      assert id in BucketOf(s.bucket, c) <==> InBucket(s.spans, c, id);
      ExtractInv(s, t, c, id);
    }
  }

  // Malloc and free.

  lemma CachesShorter(lists: map<Box, seq<nat>>, lists': map<Box, seq<nat>>, maxSize: map<Box, nat>)
    requires CachesInv(lists, maxSize)
    requires forall u, x: nat {:trigger CacheBox(u, x)} | x < MAX_NFREELISTS ::
               |List(lists', CacheBox(u, x))| <= |List(lists, CacheBox(u, x))|
    ensures CachesInv(lists', maxSize)
  {
    forall u, x: nat | x < MAX_NFREELISTS
      ensures CacheOk(|List(lists', CacheBox(u, x))|, Max(maxSize, CacheBox(u, x)), x)
    {
      assert CacheOk(|List(lists, CacheBox(u, x))|, Max(maxSize, CacheBox(u, x)), x);
    }
  }

  lemma MallocHitLists(s: State, t: nat, c: nat)
    requires Boxes(s.lists, s.place) && CachesInv(s.lists, s.maxSize) && Enabled(s, Malloc(t, c)) && List(s.lists, CacheBox(t, c)) != []
    ensures var s' := Next(s, Malloc(t, c));
            && Boxes(s'.lists, s'.place) && CachesInv(s'.lists, s'.maxSize) && s'.place.Keys == s.place.Keys && Tame(s, s', t)
  {
    GiveKeeps(s.lists, s.place, CacheBox(t, c));
    CachesShorter(s.lists, Next(s, Malloc(t, c)).lists, s.maxSize);
  }

  lemma MallocHitInv(s: State, t: nat, c: nat)
    requires Inv(s) && Enabled(s, Malloc(t, c)) && List(s.lists, CacheBox(t, c)) != []
    ensures Inv(Next(s, Malloc(t, c)))
  {
    hide SpansInv, HomeInv, Boxes, BucketInv, CachesInv, Tame;
    var s' := Next(s, Malloc(t, c));
    MallocHitLists(s, t, c);
    TameSpans(s, s', t);
    TamePlaces(s, s', t);
    TameThreads(s, s', t);
  }

  /** A thread that gives nothing back moves on. */
  lemma QuietPlaces(s: State, s': State, t: nat)
    requires PlacesInv(s.spans, s.cached, s.threads, s.home, s.place) && Tame(s, s', t) && s'.place == s.place
    requires t in s.threads && !Releasing(s.threads[t]) && t in s'.threads && s'.threads == s.threads[t := s'.threads[t]]
    ensures PlacesInv(s'.spans, s'.cached, s'.threads, s'.home, s'.place)
  {
    forall a | a in s.place && s.place[a].In? && OfThread(s.place[a].box, t)
      ensures WhereOk(s'.spans, s'.cached, s'.threads, s.home[a], s'.place[a])
    {
      assert WhereOk(s.spans, s.cached, s.threads, s.home[a], s.place[a]);
    }
    TamePlaces(s, s', t);
  }

  lemma MissCaches(lists: map<Box, seq<nat>>, maxSize: map<Box, nat>, box: Box, c: nat)
    requires CachesInv(lists, maxSize) && box.CacheBox? && box.c == c < MAX_NFREELISTS && List(lists, box) == []
    ensures CachesInv(lists, maxSize[box := Min(2 * Max(maxSize, box), NumMoveSize(c))])
  {
    hide NumMoveSize, List;
    var maxSize' := maxSize[box := Min(2 * Max(maxSize, box), NumMoveSize(c))];
    forall u, x: nat | x < MAX_NFREELISTS
      ensures CacheOk(|List(lists, CacheBox(u, x))|, Max(maxSize', CacheBox(u, x)), x)
    {
      assert CacheOk(|List(lists, CacheBox(u, x))|, Max(maxSize, CacheBox(u, x)), x);
    }
  }

  lemma MallocMissInv(s: State, t: nat, c: nat)
    requires Inv(s) && Enabled(s, Malloc(t, c)) && List(s.lists, CacheBox(t, c)) == []
    ensures Inv(Next(s, Malloc(t, c)))
  {
    hide SpansInv, HomeInv, Boxes, PlacesInv, CountInv, BucketInv, CachesInv, Tame;
    var s', box := Next(s, Malloc(t, c)), CacheBox(t, c);
    MissCaches(s.lists, s.maxSize, box, c);
    TameLists(s, s', t);
    QuietPlaces(s, s', t);
    TameSpans(s, s', t);
    TameThreads(s, s', t);
  }

  lemma SpanListsKept(spans: map<nat, Span>, lists: map<Box, seq<nat>>, lists': map<Box, seq<nat>>)
    requires CountInv(spans, lists) && forall id {:trigger SpanBox(id)} :: List(lists', SpanBox(id)) == List(lists, SpanBox(id))
    ensures CountInv(spans, lists')
  {
    hide List, Objects;
  }

  lemma PutBackPlaces(s: State, t: nat, a: nat, c: nat)
    requires PlacesInv(s.spans, s.cached, s.threads, s.home, s.place)
    requires t in s.threads && t in s.cached && a in s.place && InBucket(s.spans, c, s.home[a])
    ensures PlacesInv(s.spans, s.cached, s.threads, s.home, s.place[a := In(CacheBox(t, c))])
  {
    var place' := s.place[a := In(CacheBox(t, c))];
    forall x | x in place'
      ensures WhereOk(s.spans, s.cached, s.threads, s.home[x], place'[x])
    {
      assert WhereOk(s.spans, s.cached, s.threads, s.home[x], s.place[x]);
    }
  }

  /** An object of class `c` that the user gives back to a thread's list: all but the list's bound. */
  lemma PutBack(s: State, t: nat, a: nat, c: nat)
    requires SpansInv(s.spans, s.pmap) && HomeInv(s.spans, s.home) && Boxes(s.lists, s.place) && ThreadsInv(s)
    requires PlacesInv(s.spans, s.cached, s.threads, s.home, s.place) && CountInv(s.spans, s.lists) && BucketInv(s.spans, s.bucket)
    requires t in s.threads && s.threads[t].Idle? && t in s.cached
    requires a in s.place && s.place[a] == User && InBucket(s.spans, c, s.home[a])
    ensures var s1 := s.(lists := s.lists[CacheBox(t, c) := [a] + List(s.lists, CacheBox(t, c))], place := s.place[a := In(CacheBox(t, c))]);
            && SpansInv(s1.spans, s1.pmap) && HomeInv(s1.spans, s1.home) && Boxes(s1.lists, s1.place)
            && PlacesInv(s1.spans, s1.cached, s1.threads, s1.home, s1.place) && CountInv(s1.spans, s1.lists)
            && BucketInv(s1.spans, s1.bucket) && ThreadsInv(s1)
  {
    hide SpansInv, HomeInv, Boxes, PlacesInv, CountInv, BucketInv, Tame;
    var box := CacheBox(t, c);
    var s1 := s.(lists := s.lists[box := [a] + List(s.lists, box)], place := s.place[a := In(box)]);
    PutKeeps(s.lists, s.place, a, box);
    PutBackPlaces(s, t, a, c);
    SpanListsKept(s.spans, s.lists, s1.lists);
    TameLists(s, s1, t);
    TameThreads(s, s1, t);
  }

  lemma PutBackBounds(lists: map<Box, seq<nat>>, maxSize: map<Box, nat>, box: Box, l: seq<nat>)
    requires CachesInv(lists, maxSize)
    ensures forall u, x: nat {:trigger CacheBox(u, x)} | x < MAX_NFREELISTS && CacheBox(u, x) != box ::
              CacheOk(|List(lists[box := l], CacheBox(u, x))|, Max(maxSize, CacheBox(u, x)), x)
  {
    forall u, x: nat | x < MAX_NFREELISTS && CacheBox(u, x) != box
      ensures CacheOk(|List(lists[box := l], CacheBox(u, x))|, Max(maxSize, CacheBox(u, x)), x)
    {
      assert CacheOk(|List(lists, CacheBox(u, x))|, Max(maxSize, CacheBox(u, x)), x);
    }
  }

  lemma DeallocateInv(s: State, t: nat, a: nat, c: nat)
    requires Inv(s) && t in s.threads && s.threads[t].Idle? && t in s.cached
    requires a in s.place && s.place[a] == User && InBucket(s.spans, c, s.home[a])
    ensures c < MAX_NFREELISTS && Inv(Deallocate(s, t, a, c))
  {
    hide HomeInv, Boxes, PlacesInv, CountInv, BucketInv, ThreadsInv;
    var box := CacheBox(t, c);
    var l := [a] + List(s.lists, box);
    assert CacheOk(|List(s.lists, box)|, Max(s.maxSize, box), c);
    PutBack(s, t, a, c);
    PutBackBounds(s.lists, s.maxSize, box, l);
    if |l| >= Max(s.maxSize, box) + NumMoveSize(c) {
      TooLong(s.(lists := s.lists[box := l], place := s.place[a := In(box)]), t, c);
    }
  }

  /** All of the invariant but the bound on the list of thread `t` and class `c`, which is one too long. */
  ghost predicate InvButLong(s: State, t: nat, c: nat)
    requires c < MAX_NFREELISTS
  {
    && SpansInv(s.spans, s.pmap) && HomeInv(s.spans, s.home) && Boxes(s.lists, s.place)
    && PlacesInv(s.spans, s.cached, s.threads, s.home, s.place)
    && CountInv(s.spans, s.lists) && BucketInv(s.spans, s.bucket) && ThreadsInv(s)
    && (forall u, x: nat {:trigger CacheBox(u, x)} | x < MAX_NFREELISTS && CacheBox(u, x) != CacheBox(t, c) ::
         CacheOk(|List(s.lists, CacheBox(u, x))|, Max(s.maxSize, CacheBox(u, x)), x))
    && 1 <= Max(s.maxSize, CacheBox(t, c)) <= NumMoveSize(c)
    && |List(s.lists, CacheBox(t, c))| == Max(s.maxSize, CacheBox(t, c)) + NumMoveSize(c)
  }

  lemma TooLong(s: State, t: nat, c: nat)
    requires c < MAX_NFREELISTS && InvButLong(s, t, c) && t in s.threads && s.threads[t].Idle? && t in s.cached
    ensures var box := CacheBox(t, c); var n := NumMoveSize(c);
            n <= |List(s.lists, box)|
            && Inv(Goto(s, t, Lookup(Rel(c, [], 0, 0, false, 0))).(
                 lists := Move(s.lists, box, n, RestBox(t)), place := Relocate(s.place, List(s.lists, box)[..n], In(RestBox(t)))))
  {
    var box := CacheBox(t, c);
    StartRelease(s, t, c, NumMoveSize(c), Rel(c, [], 0, 0, false, 0));
    var lists' := Move(s.lists, box, NumMoveSize(c), RestBox(t));
    forall u, x: nat | x < MAX_NFREELISTS
      ensures CacheOk(|List(lists', CacheBox(u, x))|, Max(s.maxSize, CacheBox(u, x)), x)
    {
      if CacheBox(u, x) != box {
        assert CacheOk(|List(s.lists, CacheBox(u, x))|, Max(s.maxSize, CacheBox(u, x)), x);
      }
    }
  }

  /** The first `n` objects of a thread's list become the list it gives back. */
  lemma StartRelease(s: State, t: nat, c: nat, n: nat, rel: Rel)
    requires SpansInv(s.spans, s.pmap) && HomeInv(s.spans, s.home) && Boxes(s.lists, s.place)
    requires PlacesInv(s.spans, s.cached, s.threads, s.home, s.place) && CountInv(s.spans, s.lists)
    requires BucketInv(s.spans, s.bucket) && ThreadsInv(s)
    requires t in s.threads && !Releasing(s.threads[t]) && c < MAX_NFREELISTS && n <= |List(s.lists, CacheBox(t, c))|
    requires rel.c == c && rel.batches == [] && rel.lastId == 0
    requires rel.exiting ==> t in s.cached && rel.next <= MAX_NFREELISTS && EmptyBelow(Move(s.lists, CacheBox(t, c), n, RestBox(t)), t, rel.next)
    ensures var s' := Goto(s, t, Lookup(rel)).(
                        lists := Move(s.lists, CacheBox(t, c), n, RestBox(t)),
                        place := Relocate(s.place, List(s.lists, CacheBox(t, c))[..n], In(RestBox(t))));
            && SpansInv(s'.spans, s'.pmap) && HomeInv(s'.spans, s'.home) && Boxes(s'.lists, s'.place)
            && PlacesInv(s'.spans, s'.cached, s'.threads, s'.home, s'.place) && CountInv(s'.spans, s'.lists)
            && BucketInv(s'.spans, s'.bucket) && ThreadsInv(s')
  {
    hide PlacesInv, HomeInv, Objects, PcOk;
    var box := CacheBox(t, c);
    var s' := Goto(s, t, Lookup(rel)).(
                lists := Move(s.lists, box, n, RestBox(t)), place := Relocate(s.place, List(s.lists, box)[..n], In(RestBox(t))));
    MoveKeeps(s.lists, s.place, box, n, RestBox(t));
    NothingInHand(s, t);
    TameSpans(s, s', t);
    StartPlaces(s, s', t, c, n);
    forall a | a in List(s'.lists, RestBox(t))
      ensures PageOf(a) != 0
    {
      ObjectPage(s', a);
    }
    TameThreads(s, s', t);
  }

  lemma StartPlaces(s: State, s': State, t: nat, c: nat, n: nat)
    requires Boxes(s.lists, s.place) && PlacesInv(s.spans, s.cached, s.threads, s.home, s.place)
    requires t in s.threads && !Releasing(s.threads[t]) && n <= |List(s.lists, CacheBox(t, c))|
    requires t in s'.threads && s'.threads == s.threads[t := s'.threads[t]] && s'.threads[t].Lookup? && s'.threads[t].rel.c == c
    requires s'.spans == s.spans && s'.home == s.home && s'.cached == s.cached
    requires s'.place == Relocate(s.place, List(s.lists, CacheBox(t, c))[..n], In(RestBox(t)))
    ensures PlacesInv(s'.spans, s'.cached, s'.threads, s'.home, s'.place)
  {
    var l := List(s.lists, CacheBox(t, c));
    forall a | a in s'.place
      ensures WhereOk(s'.spans, s'.cached, s'.threads, s'.home[a], s'.place[a])
    {
      assert WhereOk(s.spans, s.cached, s.threads, s.home[a], s.place[a]);
      if a in l[..n] {
        assert a in l;
      }
    }
  }

  /** An object lies on a page of its span, which maps to the span; no object is on page 0. */
  lemma ObjectPage(s: State, a: nat)
    requires SpansInv(s.spans, s.pmap) && HomeInv(s.spans, s.home) && a in s.home
    ensures PageOf(a) > 0 && PageOf(a) in s.pmap && s.pmap[PageOf(a)] == s.home[a] && InSpan(s.spans[s.home[a]], PageOf(a))
  {
    var id := s.home[a];
    var sp := s.spans[id];
    assert IsObject(sp, a);
    PositiveClass(sp.kind.c);
    SlotsFit(sp.page * PAGE_SIZE, sp.n * PAGE_SIZE, ClassSize(sp.kind.c));
    PageBounds(sp.page, sp.n, a);
    assert InSpan(s.spans[id], PageOf(a));
  }

  lemma PageBounds(page: nat, n: nat, a: nat)
    requires page * PAGE_SIZE <= a < page * PAGE_SIZE + n * PAGE_SIZE
    ensures page <= PageOf(a) < page + n
  {
  }

  /** A block is found from its address. */
  lemma FoundByAddress(s: State, a: nat)
    requires SpansInv(s.spans, s.pmap) && HomeInv(s.spans, s.home) && a in s.home
    ensures Get(s.pmap, PageOf(a)) == s.home[a] && s.home[a] in s.spans && s.spans[s.home[a]].kind.Small?
    ensures s.spans[s.home[a]].kind.c < MAX_NFREELISTS && InBucket(s.spans, s.spans[s.home[a]].kind.c, s.home[a])
  {
    ObjectPage(s, a);
  }

  /** A thread gets its (empty) cache. */
  lemma NewCache(s: State, t: nat)
    requires Inv(s) && IsIdle(s, t)
    ensures Inv(s.(cached := s.cached + {t}))
  {
    var s' := s.(cached := s.cached + {t});
    TamePlaces(s, s', t);
    TameThreads(s, s', t);
  }

  lemma FreeInv(s: State, t: nat, a: nat)
    requires Inv(s) && Enabled(s, Free(t, a))
    ensures Inv(Next(s, Free(t, a)))
  {
    FoundByAddress(s, a);
    NewCache(s, t);
    DeallocateInv(s.(cached := s.cached + {t}), t, a, s.spans[s.home[a]].kind.c);
  }

  /** A sized `free` on a thread that has no cache any more: what it gives back is this one object. */
  lemma FreeDirectLists(s: State, t: nat, a: nat, c: nat)
    requires Boxes(s.lists, s.place) && PlacesInv(s.spans, s.cached, s.threads, s.home, s.place) && CachesInv(s.lists, s.maxSize)
    requires Enabled(s, FreeSized(t, a, c)) && t !in s.cached && c < MAX_NFREELISTS
    ensures var s' := Next(s, FreeSized(t, a, c));
            && Boxes(s'.lists, s'.place) && CachesInv(s'.lists, s'.maxSize) && s'.place.Keys == s.place.Keys && Tame(s, s', t)
            && List(s'.lists, RestBox(t)) == [a] && s'.threads == s.threads[t := Lookup(Rel(c, [], 0, 0, false, 0))]
            && s'.place == s.place[a := In(RestBox(t))]
            && forall id :: List(s'.lists, SpanBox(id)) == List(s.lists, SpanBox(id))
  {
    NothingInHand(s, t);
    PutKeeps(s.lists, s.place, a, RestBox(t));
    CachesShorter(s.lists, Next(s, FreeSized(t, a, c)).lists, s.maxSize);
  }

  lemma FreeDirectPlaces(s: State, t: nat, a: nat, c: nat)
    requires SpansInv(s.spans, s.pmap) && HomeInv(s.spans, s.home) && Boxes(s.lists, s.place)
    requires PlacesInv(s.spans, s.cached, s.threads, s.home, s.place) && CachesInv(s.lists, s.maxSize)
    requires Enabled(s, FreeSized(t, a, c)) && t !in s.cached && c < MAX_NFREELISTS
    ensures var s' := Next(s, FreeSized(t, a, c)); PlacesInv(s'.spans, s'.cached, s'.threads, s'.home, s'.place)
  {
    hide Boxes, CachesInv, Tame, SpansInv, HomeInv;
    var s' := Next(s, FreeSized(t, a, c));
    FreeDirectLists(s, t, a, c);
    NothingInHand(s, t);
    TamePlaces(s, s', t);
  }

  lemma FreeDirectInv(s: State, t: nat, a: nat, c: nat)
    requires Inv(s) && Enabled(s, FreeSized(t, a, c)) && t !in s.cached && c < MAX_NFREELISTS
    ensures Inv(Next(s, FreeSized(t, a, c)))
  {
    hide Boxes, PlacesInv, CachesInv, CountInv, Tame, SpansInv, HomeInv, BucketInv, ThreadsInv, ClassSize;
    var s' := Next(s, FreeSized(t, a, c));
    FreeDirectLists(s, t, a, c);
    ObjectPage(s, a);
    FreeDirectPlaces(s, t, a, c);
    SpanListsKept(s.spans, s.lists, s'.lists);
    TameSpans(s, s', t);
    TameThreads(s, s', t);
  }

  lemma FreeSizedInv(s: State, t: nat, a: nat, c: nat)
    requires Inv(s) && Enabled(s, FreeSized(t, a, c))
    ensures Inv(Next(s, FreeSized(t, a, c)))
  {
    FoundByAddress(s, a);
    if t in s.cached {
      DeallocateInv(s, t, a, c);
    } else {
      FreeDirectInv(s, t, a, c);
    }
  }

  // Giving a list back.

  /** A step between two states of giving back that moves no object. */
  lemma RelInv(s: State, t: nat, pc: Pc)
    requires Inv(s) && t in s.threads && Releasing(s.threads[t]) && Releasing(pc)
    requires pc.rel.c == s.threads[t].rel.c && pc.rel.batches == s.threads[t].rel.batches
    requires PcOk(s.spans, s.cached, s.lists, s.home, t, pc)
    ensures Inv(Goto(s, t, pc))
  {
    var s' := Goto(s, t, pc);
    RelPlaces(s, t, pc);
    TameThreads(s, s', t);
  }

  lemma RelPlaces(s: State, t: nat, pc: Pc)
    requires PlacesInv(s.spans, s.cached, s.threads, s.home, s.place) && t in s.threads && Releasing(s.threads[t]) && Releasing(pc)
    requires pc.rel.c == s.threads[t].rel.c && pc.rel.batches == s.threads[t].rel.batches
    ensures PlacesInv(s.spans, s.cached, s.threads[t := pc], s.home, s.place)
  {
    forall a | a in s.place
      ensures WhereOk(s.spans, s.cached, s.threads[t := pc], s.home[a], s.place[a])
    {
      assert WhereOk(s.spans, s.cached, s.threads, s.home[a], s.place[a]);
    }
  }

  lemma FinishPlaces(s: State, t: nat)
    requires Boxes(s.lists, s.place) && PlacesInv(s.spans, s.cached, s.threads, s.home, s.place)
    requires t in s.threads && Releasing(s.threads[t]) && List(s.lists, RestBox(t)) == [] && s.threads[t].rel.batches == []
    ensures PlacesInv(s.spans, s.cached, s.threads[t := Finish(s.threads[t].rel)], s.home, s.place)
  {
    forall a | a in s.place
      ensures WhereOk(s.spans, s.cached, s.threads[t := Finish(s.threads[t].rel)], s.home[a], s.place[a])
    {
      assert WhereOk(s.spans, s.cached, s.threads, s.home[a], s.place[a]);
      assert a in List(s.lists, RestBox(t)) <==> s.place[a] == In(RestBox(t));
    }
  }

  /** A list has been given back to the end. */
  lemma FinishInv(s: State, t: nat)
    requires Inv(s) && t in s.threads && Releasing(s.threads[t])
    requires List(s.lists, RestBox(t)) == [] && s.threads[t].rel.batches == []
    requires s.threads[t].Lookup? || (s.threads[t].Return? && s.threads[t].released == [])
    ensures Inv(Goto(s, t, Finish(s.threads[t].rel)))
  {
    hide SpansInv, HomeInv, Boxes, PlacesInv, CountInv, BucketInv, CachesInv;
    var s' := Goto(s, t, Finish(s.threads[t].rel));
    FinishPlaces(s, t);
    assert RelOk(s.spans, s.cached, s.lists, s.home, t, s.threads[t].rel);
    TameThreads(s, s', t);
  }

  lemma LookupInv(s: State, t: nat)
    requires Inv(s) && Enabled(s, LookupNext(t))
    ensures Inv(Next(s, LookupNext(t)))
  {
    var rel, rest := s.threads[t].rel, List(s.lists, RestBox(t));
    if rest == [] {
      FinishInv(s, t);
    } else {
      var p := PageOf(rest[0]);
      LookedUp(s, t, rel);
      RelInv(s, t, Sort(if p == rel.lastId then rel else rel.(lastId := p, lastSpan := Get(s.pmap, p))));
    }
  }

  /** What is looked up is right for every object left that lies on the same page. */
  lemma LookedUp(s: State, t: nat, rel: Rel)
    requires SpansInv(s.spans, s.pmap) && HomeInv(s.spans, s.home) && Boxes(s.lists, s.place)
    requires PlacesInv(s.spans, s.cached, s.threads, s.home, s.place)
    requires RelOk(s.spans, s.cached, s.lists, s.home, t, rel) && List(s.lists, RestBox(t)) != []
    ensures var p := PageOf(List(s.lists, RestBox(t))[0]);
            RelOk(s.spans, s.cached, s.lists, s.home, t, rel.(lastId := p, lastSpan := Get(s.pmap, p)))
  {
    forall a | a in List(s.lists, RestBox(t))
      ensures a in s.home && s.home[a] == Get(s.pmap, PageOf(a))
    {
      ObjectPage(s, a);
    }
  }

  /** The pointer a batch is found or started with is the span of the object in hand, and that span is
      in its bucket: the cached lookup is never stale. */
  lemma CachedSpanIsLive(s: State, t: nat)
    requires Inv(s) && t in s.threads && s.threads[t].Sort?
    ensures var rel, rest := s.threads[t].rel, List(s.lists, RestBox(t));
            rest != [] && rest[0] in s.home && s.home[rest[0]] == rel.lastSpan && InBucket(s.spans, rel.c, rel.lastSpan)
  {
    var rel, rest := s.threads[t].rel, List(s.lists, RestBox(t));
    assert PcOk(s.spans, s.cached, s.lists, s.home, t, s.threads[t]);
    assert rest[0] in rest;
    assert rest[0] in s.place && s.place[rest[0]] == In(RestBox(t));
    assert WhereOk(s.spans, s.cached, s.threads, s.home[rest[0]], s.place[rest[0]]);
  }

  lemma SortedBatches(s: State, t: nat, rel: Rel, i: nat, lists': map<Box, seq<nat>>)
    requires forall j: nat | j < |rel.batches| :: BatchOk(s.spans, s.lists, t, rel.c, j, rel.batches[j])
    requires i == IndexOf(rel.batches, rel.lastSpan) && InBucket(s.spans, rel.c, rel.lastSpan) && List(s.lists, RestBox(t)) != []
    requires i == |rel.batches| ==> List(s.lists, BatchBox(t, i)) == []
    requires lists' == Move(s.lists, RestBox(t), 1, BatchBox(t, i))
    ensures forall j: nat | j < |Sorted(rel, i).batches| :: BatchOk(s.spans, lists', t, rel.c, j, Sorted(rel, i).batches[j])
  {
    hide InBucket;
    var rel' := Sorted(rel, i);
    forall j: nat | j < |rel'.batches|
      ensures BatchOk(s.spans, lists', t, rel.c, j, rel'.batches[j])
    {
      if j < |rel.batches| {
        assert BatchOk(s.spans, s.lists, t, rel.c, j, rel.batches[j]);
      }
    }
  }

  lemma SortedRel(s: State, t: nat, rel: Rel, i: nat, lists': map<Box, seq<nat>>)
    requires RelOk(s.spans, s.cached, s.lists, s.home, t, rel) && i == IndexOf(rel.batches, rel.lastSpan)
    requires InBucket(s.spans, rel.c, rel.lastSpan) && List(s.lists, RestBox(t)) != []
    requires i < |rel.batches| || |rel.batches| < MAX_BATCH
    requires i == |rel.batches| ==> List(s.lists, BatchBox(t, i)) == []
    requires lists' == Move(s.lists, RestBox(t), 1, BatchBox(t, i))
    ensures RelOk(s.spans, s.cached, lists', s.home, t, Sorted(rel, i))
  {
    hide InBucket, PageOf;
    var rel' := Sorted(rel, i);
    SortedBatches(s, t, rel, i, lists');
    var l := List(s.lists, RestBox(t));
    assert forall a | a in l[1..] :: a in l;
    if rel.exiting {
      forall x: nat | x < rel.next
        ensures List(lists', CacheBox(t, x)) == []
      {
        assert List(s.lists, CacheBox(t, x)) == [];
      }
    }
  }

  lemma SortedPlaces(s: State, s': State, t: nat, rel: Rel, i: nat)
    requires Boxes(s.lists, s.place) && PlacesInv(s.spans, s.cached, s.threads, s.home, s.place)
    requires t in s.threads && s.threads[t] == Sort(rel) && i == IndexOf(rel.batches, rel.lastSpan)
    requires List(s.lists, RestBox(t)) != [] && List(s.lists, RestBox(t))[0] in s.home && s.home[List(s.lists, RestBox(t))[0]] == rel.lastSpan
    requires s'.spans == s.spans && s'.cached == s.cached && s'.home == s.home
    requires s'.threads == s.threads[t := Lookup(Sorted(rel, i))]
    requires s'.place == Relocate(s.place, List(s.lists, RestBox(t))[..1], In(BatchBox(t, i)))
    ensures PlacesInv(s'.spans, s'.cached, s'.threads, s'.home, s'.place)
  {
    var rest := List(s.lists, RestBox(t));
    assert rest[..1] == [rest[0]];
    forall a | a in s'.place
      ensures WhereOk(s'.spans, s'.cached, s'.threads, s'.home[a], s'.place[a])
    {
      assert WhereOk(s.spans, s.cached, s.threads, s.home[a], s.place[a]);
    }
  }

  /** Lists of thread `t`'s that only it can see have changed, and the caches only got shorter. */
  lemma OwnListsKeep(s: State, lists': map<Box, seq<nat>>)
    requires CountInv(s.spans, s.lists) && CachesInv(s.lists, s.maxSize)
    requires forall id {:trigger SpanBox(id)} :: List(lists', SpanBox(id)) == List(s.lists, SpanBox(id))
    requires forall u, c {:trigger CacheBox(u, c)} :: |List(lists', CacheBox(u, c))| <= |List(s.lists, CacheBox(u, c))|
    ensures CountInv(s.spans, lists') && CachesInv(lists', s.maxSize)
  {
    CachesShorter(s.lists, lists', s.maxSize);
  }

  lemma SortLists(s: State, t: nat, i: nat)
    requires Boxes(s.lists, s.place) && CountInv(s.spans, s.lists) && CachesInv(s.lists, s.maxSize) && List(s.lists, RestBox(t)) != []
    ensures var lists' := Move(s.lists, RestBox(t), 1, BatchBox(t, i));
            && Boxes(lists', Relocate(s.place, List(s.lists, RestBox(t))[..1], In(BatchBox(t, i))))
            && CountInv(s.spans, lists') && CachesInv(lists', s.maxSize)
  {
    MoveKeeps(s.lists, s.place, RestBox(t), 1, BatchBox(t, i));
    OwnListsKeep(s, Move(s.lists, RestBox(t), 1, BatchBox(t, i)));
  }

  lemma SortInv(s: State, t: nat)
    requires Inv(s) && Enabled(s, SortNext(t))
    ensures Inv(Next(s, SortNext(t)))
  {
    hide SpansInv, HomeInv, Boxes, PlacesInv, CountInv, BucketInv, CachesInv, Objects, IsObject, WhereOk;
    var rel, s' := s.threads[t].rel, Next(s, SortNext(t));
    var i := IndexOf(rel.batches, rel.lastSpan);
    CachedSpanIsLive(s, t);
    assert RelOk(s.spans, s.cached, s.lists, s.home, t, rel);
    NoBatchYet(s, t, |rel.batches|);
    SortLists(s, t, i);
    SortedRel(s, t, rel, i, s'.lists);
    SortedPlaces(s, s', t, rel, i);
    TameThreads(s, s', t);
  }

  lemma NoBatchYet(s: State, t: nat, i: nat)
    requires Boxes(s.lists, s.place) && PlacesInv(s.spans, s.cached, s.threads, s.home, s.place)
    requires t in s.threads && Releasing(s.threads[t]) && i >= |s.threads[t].rel.batches|
    ensures List(s.lists, BatchBox(t, i)) == []
  {
    forall a | a in s.place
      ensures s.place[a] != In(BatchBox(t, i))
    {
      assert WhereOk(s.spans, s.cached, s.threads, s.home[a], s.place[a]);
    }
    EmptyBox(s.lists, s.place, BatchBox(t, i));
  }

  // A thread exits.

  lemma ExitStartInv(s: State, t: nat)
    requires Inv(s) && Enabled(s, Exit(t))
    ensures Inv(Next(s, Exit(t)))
  {
    GotoInv(s, t, Exiting(0));
  }

  lemma ExitClassLists(lists: map<Box, seq<nat>>, maxSize: map<Box, nat>, t: nat, c: nat)
    requires CachesInv(lists, maxSize) && EmptyBelow(lists, t, c)
    ensures var lists' := Move(lists, CacheBox(t, c), |List(lists, CacheBox(t, c))|, RestBox(t));
            EmptyBelow(lists', t, c + 1) && CachesInv(lists', maxSize)
  {
    var lists' := Move(lists, CacheBox(t, c), |List(lists, CacheBox(t, c))|, RestBox(t));
    CachesShorter(lists, lists', maxSize);
    forall x: nat | x < c + 1
      ensures List(lists', CacheBox(t, x)) == []
    {
      if x < c {
        assert List(lists, CacheBox(t, x)) == [];
      }
    }
  }

  lemma ExitClassInv(s: State, t: nat)
    requires Inv(s) && Enabled(s, ExitNext(t)) && s.threads[t].c < MAX_NFREELISTS && List(s.lists, CacheBox(t, s.threads[t].c)) != []
    ensures Inv(Next(s, ExitNext(t)))
  {
    hide SpansInv, HomeInv, Boxes, PlacesInv, CountInv, BucketInv, CachesInv, ThreadsInv;
    var c := s.threads[t].c;
    ExitingBelow(s, t);
    ExitClassLists(s.lists, s.maxSize, t, c);
    StartRelease(s, t, c, |List(s.lists, CacheBox(t, c))|, Rel(c, [], 0, 0, true, c + 1));
  }

  lemma ExitingBelow(s: State, t: nat)
    requires ThreadsInv(s) && t in s.threads && s.threads[t].Exiting?
    ensures t in s.cached && s.threads[t].c <= MAX_NFREELISTS && EmptyBelow(s.lists, t, s.threads[t].c)
  {
  }

  lemma CachesEmptied(s: State, t: nat)
    requires Boxes(s.lists, s.place) && PlacesInv(s.spans, s.cached, s.threads, s.home, s.place) && SpansInv(s.spans, s.pmap)
    requires EmptyBelow(s.lists, t, MAX_NFREELISTS)
    ensures forall a | a in s.place && s.place[a].In? && s.place[a].box.CacheBox? :: s.place[a].box.t != t
  {
    forall a | a in s.place && s.place[a].In? && s.place[a].box.CacheBox?
      ensures s.place[a].box.t != t
    {
      var box := s.place[a].box;
      assert WhereOk(s.spans, s.cached, s.threads, s.home[a], s.place[a]);
      assert a in List(s.lists, box) && box == CacheBox(box.t, box.c);
    }
  }

  lemma ExitPlaces(s: State, t: nat)
    requires SpansInv(s.spans, s.pmap) && Boxes(s.lists, s.place) && PlacesInv(s.spans, s.cached, s.threads, s.home, s.place)
    requires t in s.threads && s.threads[t].Exiting? && EmptyBelow(s.lists, t, MAX_NFREELISTS)
    ensures PlacesInv(s.spans, s.cached - {t}, s.threads[t := Idle], s.home, s.place)
  {
    CachesEmptied(s, t);
    forall a | a in s.place
      ensures WhereOk(s.spans, s.cached - {t}, s.threads[t := Idle], s.home[a], s.place[a])
    {
      assert WhereOk(s.spans, s.cached, s.threads, s.home[a], s.place[a]);
    }
  }

  lemma ExitCaches(s: State, t: nat)
    requires CachesInv(s.lists, s.maxSize) && EmptyBelow(s.lists, t, MAX_NFREELISTS)
    ensures CachesInv(s.lists, WithoutCache(s.maxSize, t))
  {
    hide NumMoveSize, List;
    forall u, c: nat | c < MAX_NFREELISTS
      ensures CacheOk(|List(s.lists, CacheBox(u, c))|, Max(WithoutCache(s.maxSize, t), CacheBox(u, c)), c)
    {
      assert CacheOk(|List(s.lists, CacheBox(u, c))|, Max(s.maxSize, CacheBox(u, c)), c);
    }
  }

  lemma ExitEndInv(s: State, t: nat)
    requires Inv(s) && Enabled(s, ExitNext(t)) && s.threads[t].c >= MAX_NFREELISTS
    ensures Inv(Next(s, ExitNext(t)))
  {
    hide SpansInv, HomeInv, Boxes, PlacesInv, CountInv, BucketInv, CachesInv, WithoutCache, EmptyBelow;
    var s' := Next(s, ExitNext(t));
    ExitingBelow(s, t);
    ExitPlaces(s, t);
    ExitCaches(s, t);
    forall u | u in s.threads && u != t
      ensures Rely(s, s', u)
    {
    }
    ThreadsStep(s, s', t);
  }

  lemma ExitSkipInv(s: State, t: nat)
    requires Inv(s) && Enabled(s, ExitNext(t)) && s.threads[t].c < MAX_NFREELISTS && List(s.lists, CacheBox(t, s.threads[t].c)) == []
    ensures Inv(Next(s, ExitNext(t)))
  {
    hide SpansInv, HomeInv, Boxes, PlacesInv, CountInv, BucketInv, CachesInv;
    ExitingBelow(s, t);
    GotoInv(s, t, Exiting(s.threads[t].c + 1));
  }

  lemma ExitInv(s: State, t: nat)
    requires Inv(s) && Enabled(s, ExitNext(t))
    ensures Inv(Next(s, ExitNext(t)))
  {
    hide SpansInv, HomeInv, Boxes, PlacesInv, CountInv, BucketInv, CachesInv, ThreadsInv;
    var c := s.threads[t].c;
    if c >= MAX_NFREELISTS {
      ExitEndInv(s, t);
    } else if List(s.lists, CacheBox(t, c)) == [] {
      ExitSkipInv(s, t);
    } else {
      ExitClassInv(s, t);
    }
  }

  // Spans come from the page heap, are carved, and go back.

  lemma NewSpanPages(spans: map<nat, Span>, pmap: map<nat, nat>, id: nat, sp: Span)
    requires SpansInv(spans, pmap) && id > 0 && id !in spans && sp.page > 0 && !sp.kind.Small?
    requires forall x, p: nat {:trigger InSpan(spans[x], p)} | x in spans && InSpan(spans[x], p) :: !(sp.page <= p < sp.page + sp.n)
    ensures SpansInv(spans[id := sp], MapPages(pmap, sp.page, sp.n, id))
  {
    var spans', pmap' := spans[id := sp], MapPages(pmap, sp.page, sp.n, id);
    forall x, p | x in spans' && InSpan(spans'[x], p)
      ensures p in pmap' && pmap'[p] == x
    {
      if x != id {
        assert InSpan(spans[x], p);
      } else {
        assert InSpan(Span(sp.page, sp.n, Held(0)), p);
      }
    }
  }

  lemma PlainHome(s: State, id: nat, sp: Span)
    requires HomeInv(s.spans, s.home) && BucketInv(s.spans, s.bucket)
    requires !sp.kind.Small? && (id in s.spans ==> !s.spans[id].kind.Small?)
    ensures var spans' := s.spans[id := sp]; HomeInv(spans', s.home) && BucketInv(spans', s.bucket)
  {
    var spans' := s.spans[id := sp];
    forall x, a | x in spans' && IsObject(spans'[x], a)
      ensures a in s.home && s.home[a] == x
    {
      assert IsObject(s.spans[x], a);
    }
    forall a | a in s.home
      ensures s.home[a] in spans' && IsObject(spans'[s.home[a]], a)
    {
      assert IsObject(s.spans[s.home[a]], a);
    }
    forall c, x
      ensures x in BucketOf(s.bucket, c) <==> InBucket(spans', c, x)
    {
      assert x in BucketOf(s.bucket, c) <==> InBucket(s.spans, c, x);
    }
  }

  lemma PlainPlaces(s: State, id: nat, sp: Span)
    requires HomeInv(s.spans, s.home) && PlacesInv(s.spans, s.cached, s.threads, s.home, s.place)
    requires !sp.kind.Small? && (id in s.spans ==> !s.spans[id].kind.Small?)
    ensures PlacesInv(s.spans[id := sp], s.cached, s.threads, s.home, s.place)
  {
    forall a | a in s.place
      ensures WhereOk(s.spans[id := sp], s.cached, s.threads, s.home[a], s.place[a])
    {
      assert WhereOk(s.spans, s.cached, s.threads, s.home[a], s.place[a]);
      assert IsObject(s.spans[s.home[a]], a);
    }
  }

  /** A span that is not carved is no one's home. */
  lemma PlainSpan(s: State, id: nat, sp: Span)
    requires HomeInv(s.spans, s.home) && BucketInv(s.spans, s.bucket) && CountInv(s.spans, s.lists)
    requires PlacesInv(s.spans, s.cached, s.threads, s.home, s.place)
    requires !sp.kind.Small? && (id in s.spans ==> !s.spans[id].kind.Small?)
    ensures var spans' := s.spans[id := sp];
            && HomeInv(spans', s.home) && BucketInv(spans', s.bucket) && CountInv(spans', s.lists)
            && PlacesInv(spans', s.cached, s.threads, s.home, s.place)
  {
    hide HomeInv, BucketInv, PlacesInv;
    PlainHome(s, id, sp);
    PlainPlaces(s, id, sp);
  }

  /** No other thread relies on a span that is new, or that was the user's or this thread's. */
  lemma SpanRely(s: State, s': State, id: nat, t: nat, u: nat)
    requires u in s.threads && u != t && s'.lists == s.lists && s'.home == s.home && s'.cached == s.cached
    requires forall x | x in s.spans && x != id :: x in s'.spans && s'.spans[x] == s.spans[x]
    requires id in s.spans ==> s.spans[id].kind.Large? || s.spans[id].kind == Held(t) || s.spans[id].kind == Returning(t)
    ensures Rely(s, s', u)
  {
  }

  lemma AddSpanThreads(s: State, id: nat, page: nat, n: nat, kind: Kind)
    requires ThreadsInv(s) && id !in s.spans
    ensures ThreadsInv(AddSpan(s, id, page, n, kind))
  {
    var s' := AddSpan(s, id, page, n, kind);
    forall u | u in s.threads
      ensures PcOk(s'.spans, s'.cached, s'.lists, s'.home, u, s.threads[u])
    {
      SpanRely(s, s', id, u + 1, u);
      OtherThread(s, s', u);
    }
  }

  lemma AddSpanInv(s: State, id: nat, page: nat, n: nat, kind: Kind)
    requires Inv(s) && NewPages(s, id, page, n) && !kind.Small?
    ensures Inv(AddSpan(s, id, page, n, kind))
  {
    NewSpanPages(s.spans, s.pmap, id, Span(page, n, kind));
    PlainSpan(s, id, Span(page, n, kind));
    AddSpanThreads(s, id, page, n, kind);
  }

  lemma NewSpanInv(s: State, t: nat, id: nat, page: nat)
    requires Inv(s) && Enabled(s, NewSpan(t, id, page))
    ensures Inv(Next(s, NewSpan(t, id, page)))
  {
    var c := s.threads[t].c;
    assert PcOk(s.spans, s.cached, s.lists, s.home, t, s.threads[t]);
    AddSpanInv(s, id, page, SpanPages(c), Held(t));
    GotoInv(AddSpan(s, id, page, SpanPages(c), Held(t)), t, Carve(c, id));
  }

  lemma OtherPagesInv(s: State, pmap: map<nat, nat>)
    requires Inv(s) && Enabled(s, OtherPages(pmap))
    ensures Inv(Next(s, OtherPages(pmap)))
  {
    forall id, p | id in s.spans && InSpan(s.spans[id], p)
      ensures p in pmap && pmap[p] == id
    {
    }
  }

  lemma RemoveSpanInv(s: State, t: nat, id: nat, threads: map<nat, Pc>)
    requires Inv(s) && id in s.spans && (s.spans[id].kind.Large? || s.spans[id].kind == Returning(t))
    requires threads.Keys == s.threads.Keys
    requires t in s.threads && s.spans[id].kind == Returning(t) ==> threads == s.threads[t := threads[t]]
    requires !(t in s.threads && s.spans[id].kind == Returning(t)) ==> threads == s.threads
    requires PlacesInv(s.spans, s.cached, threads, s.home, s.place)
    requires t in threads && s.spans[id].kind == Returning(t) ==> PcOk(s.spans - {id}, s.cached, s.lists, s.home, t, threads[t])
    ensures Inv(s.(spans := s.spans - {id}, threads := threads))
  {
    var s' := s.(spans := s.spans - {id}, threads := threads);
    RemovedSpan(s, s', id);
    forall u | u in s'.threads
      ensures PcOk(s'.spans, s'.cached, s'.lists, s'.home, u, s'.threads[u])
    {
      if u != t || s.spans[id].kind.Large? {
        SpanRely(s, s', id, if u == t then t + 1 else t, u);
        OtherThread(s, s', u);
      }
    }
  }

  lemma RemovedSpan(s: State, s': State, id: nat)
    requires SpansInv(s.spans, s.pmap) && HomeInv(s.spans, s.home) && BucketInv(s.spans, s.bucket) && CountInv(s.spans, s.lists)
    requires PlacesInv(s.spans, s.cached, s'.threads, s.home, s.place)
    requires id in s.spans && !s.spans[id].kind.Small? && s' == s.(spans := s.spans - {id}, threads := s'.threads)
    ensures SpansInv(s'.spans, s'.pmap) && HomeInv(s'.spans, s'.home) && BucketInv(s'.spans, s'.bucket) && CountInv(s'.spans, s'.lists)
    ensures PlacesInv(s'.spans, s'.cached, s'.threads, s'.home, s'.place)
  {
    forall x, p | x in s'.spans && InSpan(s'.spans[x], p)
      ensures p in s'.pmap && s'.pmap[p] == x
    {
      assert InSpan(s.spans[x], p);
    }
    forall x, a | x in s'.spans && IsObject(s'.spans[x], a)
      ensures a in s.home && s.home[a] == x
    {
      assert IsObject(s.spans[x], a);
    }
    forall a | a in s.home
      ensures s.home[a] in s'.spans && IsObject(s'.spans[s.home[a]], a)
    {
      assert IsObject(s.spans[s.home[a]], a);
    }
    forall c, x
      ensures x in BucketOf(s.bucket, c) <==> InBucket(s'.spans, c, x)
    {
      assert x in BucketOf(s.bucket, c) <==> InBucket(s.spans, c, x);
    }
    forall a | a in s.place
      ensures WhereOk(s'.spans, s'.cached, s'.threads, s.home[a], s.place[a])
    {
      assert WhereOk(s.spans, s.cached, s'.threads, s.home[a], s.place[a]);
      assert IsObject(s.spans[s.home[a]], a);
    }
  }

  lemma FreeLargeInv(s: State, id: nat)
    requires Inv(s) && Enabled(s, FreeLarge(id))
    ensures Inv(Next(s, FreeLarge(id)))
  {
    RemoveSpanInv(s, 0, id, s.threads);
  }

  lemma ReturnInv(s: State, t: nat)
    requires Inv(s) && Enabled(s, ReturnNext(t))
    ensures Inv(Next(s, ReturnNext(t)))
  {
    hide SpansInv, HomeInv, Boxes, PlacesInv, CountInv, BucketInv, CachesInv, ThreadsInv;
    var rel, released := s.threads[t].rel, s.threads[t].released;
    ThreadOk(s, t);
    if released == [] {
      if List(s.lists, RestBox(t)) == [] {
        FinishInv(s, t);
      } else {
        RelInv(s, t, Sort(rel));
      }
    } else {
      var pc := Return(rel, released[1..]);
      TailHasNoRepeats(released);
      assert released[0] in released && forall x | x in released[1..] :: x in released;
      RelPlaces(s, t, pc);
      RemoveSpanInv(s, t, released[0], s.threads[t := pc]);
    }
  }

  /** The objects of a span lie on its pages and are distinct. */
  lemma ObjectsOfSpan(sp: Span, c: nat)
    ensures NoRepeats(Objects(sp, c)) && forall a | a in Objects(sp, c) :: InSpan(sp, PageOf(a))
  {
    PositiveClass(c);
    SlotsFit(sp.page * PAGE_SIZE, sp.n * PAGE_SIZE, ClassSize(c));
    forall a | a in Objects(sp, c)
      ensures InSpan(sp, PageOf(a))
    {
      PageBounds(sp.page, sp.n, a);
    }
  }

  /** The objects of a span that is not carved yet are new. */
  lemma NewObjects(s: State, id: nat, c: nat)
    requires SpansInv(s.spans, s.pmap) && HomeInv(s.spans, s.home) && id in s.spans && !s.spans[id].kind.Small?
    ensures forall a | a in Objects(s.spans[id], c) :: a !in s.home
  {
    ObjectsOfSpan(s.spans[id], c);
    forall a | a in s.home
      ensures a !in Objects(s.spans[id], c)
    {
      ObjectPage(s, a);
      assert IsObject(s.spans[s.home[a]], a);
      assert forall x | x in s.spans && InSpan(s.spans[x], PageOf(a)) :: s.pmap[PageOf(a)] == x;
    }
  }

  lemma CarvedSpans(s: State, t: nat, c: nat, id: nat)
    requires SpansInv(s.spans, s.pmap) && HomeInv(s.spans, s.home) && id in s.spans && !s.spans[id].kind.Small? && c < MAX_NFREELISTS
    ensures var s' := Carved(s, t, c, id); SpansInv(s'.spans, s'.pmap) && HomeInv(s'.spans, s'.home)
  {
    var s' := Carved(s, t, c, id);
    NewObjects(s, id, c);
    assert Objects(s'.spans[id], c) == Objects(s.spans[id], c);
    forall x, p | x in s'.spans && InSpan(s'.spans[x], p)
      ensures p in s'.pmap && s'.pmap[p] == x
    {
      assert InSpan(s.spans[x], p);
    }
    forall x, a | x in s'.spans && IsObject(s'.spans[x], a)
      ensures a in s'.home && s'.home[a] == x
    {
      if x != id {
        assert IsObject(s.spans[x], a);
      }
    }
    forall a | a in s'.home
      ensures s'.home[a] in s'.spans && IsObject(s'.spans[s'.home[a]], a)
    {
      if a in s.home {
        assert IsObject(s.spans[s.home[a]], a);
      }
    }
  }

  /** Nothing is on the list of a span that is not carved. */
  lemma NotOnSpan(s: State, id: nat)
    requires HomeInv(s.spans, s.home) && PlacesInv(s.spans, s.cached, s.threads, s.home, s.place)
    requires id in s.spans && !s.spans[id].kind.Small?
    ensures forall a | a in s.place :: s.place[a] != In(SpanBox(id))
  {
    forall a | a in s.place
      ensures s.place[a] != In(SpanBox(id))
    {
      assert WhereOk(s.spans, s.cached, s.threads, s.home[a], s.place[a]);
      assert IsObject(s.spans[s.home[a]], a);
    }
  }

  lemma NewPlaces(s: State, id: nat, c: nat)
    requires PlacesInv(s.spans, s.cached, s.threads, s.home, s.place) && id in s.spans
    requires forall a | a in Objects(s.spans[id], c) :: a !in s.home
    ensures forall a | a in Objects(s.spans[id], c) :: a !in s.place
  {
    hide Objects;
  }

  lemma CarvedBoxes(s: State, t: nat, c: nat, id: nat)
    requires SpansInv(s.spans, s.pmap) && HomeInv(s.spans, s.home) && Boxes(s.lists, s.place) && id in s.spans && !s.spans[id].kind.Small?
    requires PlacesInv(s.spans, s.cached, s.threads, s.home, s.place)
    ensures var s' := Carved(s, t, c, id); Boxes(s'.lists, s'.place)
  {
    hide Boxes, Objects, SpansInv, HomeInv, PlacesInv;
    NewObjects(s, id, c);
    ObjectsOfSpan(s.spans[id], c);
    NotOnSpan(s, id);
    EmptyBox(s.lists, s.place, SpanBox(id));
    NewPlaces(s, id, c);
    AddKeeps(s.lists, s.place, Objects(s.spans[id], c), SpanBox(id));
  }

  lemma CarvedCounts(s: State, t: nat, c: nat, id: nat)
    requires CountInv(s.spans, s.lists) && id in s.spans
    ensures var s' := Carved(s, t, c, id); CountInv(s'.spans, s'.lists)
  {
    hide Objects, Added, BucketOf;
    var s' := Carved(s, t, c, id);
    forall x | x in s'.spans && s'.spans[x].kind.Small?
      ensures s'.spans[x].kind.useCount + |List(s'.lists, SpanBox(x))| == |Objects(s'.spans[x], s'.spans[x].kind.c)|
    {
      SameObjects(s.spans[x], s'.spans[x], s'.spans[x].kind.c);
    }
  }

  lemma CarvedLists(s: State, t: nat, c: nat, id: nat)
    requires SpansInv(s.spans, s.pmap) && HomeInv(s.spans, s.home) && Boxes(s.lists, s.place) && id in s.spans && !s.spans[id].kind.Small?
    requires PlacesInv(s.spans, s.cached, s.threads, s.home, s.place) && CountInv(s.spans, s.lists) && CachesInv(s.lists, s.maxSize)
    ensures var s' := Carved(s, t, c, id); Boxes(s'.lists, s'.place) && CountInv(s'.spans, s'.lists) && CachesInv(s'.lists, s'.maxSize)
  {
    hide Boxes, Objects, Added, BucketOf, SpansInv, HomeInv, PlacesInv;
    var s' := Carved(s, t, c, id);
    CarvedBoxes(s, t, c, id);
    CachesShorter(s.lists, s'.lists, s.maxSize);
    CarvedCounts(s, t, c, id);
  }

  lemma CarvedBucket(s: State, t: nat, c: nat, id: nat)
    requires BucketInv(s.spans, s.bucket) && id in s.spans && !s.spans[id].kind.Small?
    ensures var s' := Carved(s, t, c, id); BucketInv(s'.spans, s'.bucket)
  {
    var s' := Carved(s, t, c, id);
    assert id in BucketOf(s.bucket, c) <==> InBucket(s.spans, c, id);
    JoinNoRepeats([id], BucketOf(s.bucket, c));
    forall x, y
      ensures y in BucketOf(s'.bucket, x) <==> InBucket(s'.spans, x, y)
    {
      assert y in BucketOf(s.bucket, x) <==> InBucket(s.spans, x, y);
    }
  }

  lemma CarvedPlaces(s: State, t: nat, c: nat, id: nat)
    requires SpansInv(s.spans, s.pmap) && HomeInv(s.spans, s.home) && PlacesInv(s.spans, s.cached, s.threads, s.home, s.place)
    requires id in s.spans && !s.spans[id].kind.Small? && t in s.threads && !Releasing(s.threads[t])
    ensures var s' := Goto(Carved(s, t, c, id), t, Fetch(c)); PlacesInv(s'.spans, s'.cached, s'.threads, s'.home, s'.place)
  {
    var s' := Goto(Carved(s, t, c, id), t, Fetch(c));
    NewObjects(s, id, c);
    forall a | a in s'.place
      ensures WhereOk(s'.spans, s'.cached, s'.threads, s'.home[a], s'.place[a])
    {
      if a in s.place {
        assert WhereOk(s.spans, s.cached, s.threads, s.home[a], s.place[a]);
        assert IsObject(s.spans[s.home[a]], a);
      }
    }
  }

  lemma CarvedRely(s: State, t: nat, c: nat, id: nat, u: nat)
    requires SpansInv(s.spans, s.pmap) && HomeInv(s.spans, s.home) && id in s.spans && s.spans[id].kind == Held(t)
    requires u in s.threads && u != t
    ensures Rely(s, Goto(Carved(s, t, c, id), t, Fetch(c)), u)
  {
    hide SpansInv, HomeInv, Objects, BucketOf, Added;
    NewObjects(s, id, c);
  }

  lemma CarvedThreads(s: State, t: nat, c: nat, id: nat)
    requires SpansInv(s.spans, s.pmap) && HomeInv(s.spans, s.home) && ThreadsInv(s)
    requires t in s.threads && s.threads[t] == Carve(c, id)
    ensures ThreadsInv(Goto(Carved(s, t, c, id), t, Fetch(c)))
  {
    hide Rely, SpansInv, HomeInv, Objects;
    var s' := Goto(Carved(s, t, c, id), t, Fetch(c));
    assert PcOk(s.spans, s.cached, s.lists, s.home, t, s.threads[t]);
    forall u | u in s.threads && u != t
      ensures Rely(s, s', u)
    {
      CarvedRely(s, t, c, id, u);
    }
    ThreadsStep(s, s', t);
  }

  lemma CarvedInv(s: State, t: nat, c: nat, id: nat)
    requires Inv(s) && t in s.threads && s.threads[t] == Carve(c, id)
    ensures id in s.spans && s.spans[id].kind == Held(t) && Objects(s.spans[id], c) != []
    ensures Inv(Goto(Carved(s, t, c, id), t, Fetch(c))) && CanExtract(Goto(Carved(s, t, c, id), t, Fetch(c)), t, c, id)
  {
    hide SpansInv, HomeInv, Boxes, PlacesInv, CountInv, BucketInv, CachesInv;
    assert PcOk(s.spans, s.cached, s.lists, s.home, t, s.threads[t]);
    HoldsOne(s.spans[id], c);
    CarvedSpans(s, t, c, id);
    CarvedLists(s, t, c, id);
    CarvedBucket(s, t, c, id);
    CarvedPlaces(s, t, c, id);
    CarvedThreads(s, t, c, id);
  }

  /** A span with the pages a class asks for holds at least one object. */
  lemma HoldsOne(sp: Span, c: nat)
    requires c < MAX_NFREELISTS && sp.n == SpanPages(c)
    ensures Objects(sp, c) != []
  {
    PositiveClass(c);
    PagesHoldBatch(ClassSize(c));
  }

  lemma CarveInv(s: State, t: nat)
    requires Inv(s) && Enabled(s, CarveAndFetch(t))
    ensures Inv(Next(s, CarveAndFetch(t)))
  {
    hide SpansInv, HomeInv, Boxes, PlacesInv, CountInv, BucketInv, CachesInv, ThreadsInv;
    var c, id := s.threads[t].c, s.threads[t].id;
    CarvedInv(s, t, c, id);
    ExtractInv(Goto(Carved(s, t, c, id), t, Fetch(c)), t, c, id);
  }

  // The section that puts batches back under the bucket's lock.

  /** The objects of a list without repeats, as a set. */
  function SetOf(s: seq<nat>): set<nat> { set a | a in s }

  lemma {:induction false} SetOfSize(s: seq<nat>)
    requires NoRepeats(s)
    ensures |SetOf(s)| == |s|
  {
    if s == [] {
      assert SetOf(s) == {};
    } else {
      TailHasNoRepeats(s);
      SetOfSize(s[1..]);
      assert s == [s[0]] + s[1..];
      assert SetOf(s) == {s[0]} + SetOf(s[1..]);
    }
  }

  /** Two lists without repeats or common objects that draw from a third fit into it together. */
  lemma FitTogether(s: seq<nat>, u: seq<nat>, all: seq<nat>)
    requires NoRepeats(s) && NoRepeats(u) && NoRepeats(all)
    requires forall a | a in s :: a in all && a !in u
    requires forall a | a in u :: a in all
    ensures |s| + |u| <= |all|
  {
    JoinNoRepeats(s, u);
    SetOfSize(s + u);
    SetOfSize(all);
    SubsetSize(SetOf(s + u), SetOf(all));
  }

  lemma {:induction false} SubsetSize(s: set<nat>, u: set<nat>)
    requires s <= u
    ensures |s| <= |u|
    ensures |s| == |u| ==> s == u
  {
    assert u == s + (u - s);
    assert |u| == |s| + |u - s|;
  }

  /** A list without repeats that draws from another and is as long holds all of it. */
  lemma HoldsAll(s: seq<nat>, all: seq<nat>)
    requires NoRepeats(s) && NoRepeats(all) && |s| == |all| && forall a | a in s :: a in all
    ensures forall a | a in all :: a in s
  {
    SetOfSize(s);
    SetOfSize(all);
    assert SetOf(s) <= SetOf(all);
    SubsetSize(SetOf(s), SetOf(all));
    assert forall a | a in all :: a in SetOf(all);
  }

  /** The invariant while thread `t` flushes: batches from `i` on are still in its hands. */
  ghost predicate Flushing(s: State, t: nat, rel: Rel, i: nat)
    requires i <= |rel.batches|
  {
    && SpansInv(s.spans, s.pmap) && HomeInv(s.spans, s.home) && Boxes(s.lists, s.place)
    && PlacesInv(s.spans, s.cached, s.threads, s.home, s.place)
    && CountInv(s.spans, s.lists) && BucketInv(s.spans, s.bucket) && CachesInv(s.lists, s.maxSize)
    && OthersOk(s, t) && BatchesLeft(s, t, rel, i)
  }

  ghost predicate OthersOk(s: State, t: nat) {
    forall u | u in s.threads && u != t :: PcOk(s.spans, s.cached, s.lists, s.home, u, s.threads[u])
  }

  ghost predicate BatchesLeft(s: State, t: nat, rel: Rel, i: nat)
    requires i <= |rel.batches|
  {
    && t in s.threads && Releasing(s.threads[t]) && s.threads[t].rel == rel && DistinctSpans(rel.batches)
    && (forall j: nat | i <= j < |rel.batches| :: BatchOk(s.spans, s.lists, t, rel.c, j, rel.batches[j]))
    && (forall j: nat {:trigger BatchBox(t, j)} | j < i :: List(s.lists, BatchBox(t, j)) == [])
    && (forall j: nat | j < i :: Flushed(s.spans, t, rel.c, rel.batches[j].span))
    && RelOk(s.spans, s.cached, s.lists, s.home, t, rel.(batches := []))
  }

  predicate Flushed(spans: map<nat, Span>, t: nat, c: nat, id: nat) { InBucket(spans, c, id) || (id in spans && spans[id].kind == Returning(t)) }

  /** An object in a batch is one of the batch's span. */
  lemma BatchObjects(s: State, t: nat, i: nat)
    requires HomeInv(s.spans, s.home) && Boxes(s.lists, s.place) && PlacesInv(s.spans, s.cached, s.threads, s.home, s.place)
    requires t in s.threads && Releasing(s.threads[t]) && i < |s.threads[t].rel.batches|
    ensures var id := s.threads[t].rel.batches[i].span;
            forall a | a in List(s.lists, BatchBox(t, i)) ::
              a in s.home && s.home[a] == id && id in s.spans && IsObject(s.spans[id], a) && s.place[a] == In(BatchBox(t, i))
  {
    forall a | a in List(s.lists, BatchBox(t, i))
      ensures a in s.home && s.home[a] == s.threads[t].rel.batches[i].span && IsObject(s.spans[s.home[a]], a)
    {
      assert WhereOk(s.spans, s.cached, s.threads, s.home[a], s.place[a]);
    }
  }

  /** What is out of a span covers what a batch brings back. */
  lemma BatchWasOut(s: State, t: nat, rel: Rel, i: nat)
    requires i < |rel.batches| && Flushing(s, t, rel, i)
    ensures var b := rel.batches[i]; InBucket(s.spans, rel.c, b.span) && b.count <= s.spans[b.span].kind.useCount
  {
    var b := rel.batches[i];
    assert BatchOk(s.spans, s.lists, t, rel.c, i, b);
    var l, free, all := List(s.lists, BatchBox(t, i)), List(s.lists, SpanBox(b.span)), Objects(s.spans[b.span], rel.c);
    BatchObjects(s, t, i);
    FreeObjects(s, b.span);
    ObjectsOfSpan(s.spans[b.span], rel.c);
    FitTogether(l, free, all);
  }

  lemma FreeObjects(s: State, id: nat)
    requires HomeInv(s.spans, s.home) && Boxes(s.lists, s.place) && PlacesInv(s.spans, s.cached, s.threads, s.home, s.place)
    ensures NoRepeats(List(s.lists, SpanBox(id)))
    ensures forall a | a in List(s.lists, SpanBox(id)) ::
              a in s.home && s.home[a] == id && id in s.spans && IsObject(s.spans[id], a) && s.place[a] == In(SpanBox(id))
  {
    forall a | a in List(s.lists, SpanBox(id))
      ensures a in s.home && s.home[a] == id && IsObject(s.spans[id], a)
    {
      assert WhereOk(s.spans, s.cached, s.threads, s.home[a], s.place[a]);
    }
  }

  /** The first half of putting one batch back: its objects join the span's free list. */
  function Joined(s: State, t: nat, i: nat, b: Batch): State
    requires b.span in s.spans && s.spans[b.span].kind.Small? && b.count <= s.spans[b.span].kind.useCount
  {
    var l, box := List(s.lists, BatchBox(t, i)), SpanBox(b.span);
    s.(lists := Move(s.lists, BatchBox(t, i), |l|, box), place := Relocate(s.place, l, In(box)),
       spans := s.spans[b.span := s.spans[b.span].(kind := Small(s.spans[b.span].kind.c, s.spans[b.span].kind.useCount - b.count))])
  }

  /** The second half, when nothing is out any more: the span leaves its bucket. */
  function Left(s: State, t: nat, id: nat): State
    requires id in s.spans && s.spans[id].kind.Small?
  {
    var c, all := s.spans[id].kind.c, List(s.lists, SpanBox(id));
    s.(spans := s.spans[id := s.spans[id].(kind := Returning(t))], bucket := s.bucket[c := Without(BucketOf(s.bucket, c), id)],
       lists := s.lists - {SpanBox(id)}, home := Dropped(s.home, all), place := Dropped(s.place, all))
  }

  lemma FlushOneIs(s: State, t: nat, i: nat, b: Batch)
    requires b.span in s.spans && s.spans[b.span].kind.Small? && b.count <= s.spans[b.span].kind.useCount
    ensures var s1 := Joined(s, t, i, b);
            FlushOne(s, t, i, b) == if s1.spans[b.span].kind.useCount > 0 then s1 else Left(s1, t, b.span)
  {
  }

  lemma BatchIs(s: State, t: nat, rel: Rel, i: nat)
    requires i < |rel.batches| && BatchesLeft(s, t, rel, i)
    ensures BatchOk(s.spans, s.lists, t, rel.c, i, rel.batches[i]) && t in s.threads && Releasing(s.threads[t]) && s.threads[t].rel == rel
  {
  }

  lemma JoinedBatches(s: State, t: nat, rel: Rel, i: nat)
    requires i < |rel.batches| && BatchesLeft(s, t, rel, i)
    requires var b := rel.batches[i]; InBucket(s.spans, rel.c, b.span) && b.count <= s.spans[b.span].kind.useCount
    ensures BatchesLeft(Joined(s, t, i, rel.batches[i]), t, rel, i + 1)
  {
    hide Relocate;
    var b := rel.batches[i];
    var s', l := Joined(s, t, i, b), List(s.lists, BatchBox(t, i));
    forall j: nat | i + 1 <= j < |rel.batches|
      ensures BatchOk(s'.spans, s'.lists, t, rel.c, j, rel.batches[j])
    {
      assert BatchOk(s.spans, s.lists, t, rel.c, j, rel.batches[j]);
    }
  }

  lemma JoinedTame(s: State, t: nat, rel: Rel, i: nat)
    requires i < |rel.batches| && Flushing(s, t, rel, i)
    requires var b := rel.batches[i]; InBucket(s.spans, rel.c, b.span) && b.count <= s.spans[b.span].kind.useCount
    ensures var s' := Joined(s, t, i, rel.batches[i]);
            && Tame(s, s', t) && Boxes(s'.lists, s'.place) && CountInv(s'.spans, s'.lists) && CachesInv(s'.lists, s'.maxSize)
            && BatchesLeft(s', t, rel, i + 1)
  {
    hide SpansInv, HomeInv, PlacesInv, BucketInv, Boxes, OthersOk, BatchesLeft, Relocate, Objects;
    var b := rel.batches[i];
    var s', l, box := Joined(s, t, i, b), List(s.lists, BatchBox(t, i)), SpanBox(b.span);
    BatchIs(s, t, rel, i);
    assert l[..|l|] == l;
    JoinedBatches(s, t, rel, i);
    MoveKeeps(s.lists, s.place, BatchBox(t, i), |l|, box);
    JoinedCounts(s.spans, s.lists, t, i, b);
    CachesShorter(s.lists, s'.lists, s.maxSize);
  }

  lemma JoinedCounts(spans: map<nat, Span>, lists: map<Box, seq<nat>>, t: nat, i: nat, b: Batch)
    requires CountInv(spans, lists) && b.span in spans && spans[b.span].kind.Small? && b.count <= spans[b.span].kind.useCount
    requires b.count == |List(lists, BatchBox(t, i))|
    ensures CountInv(spans[b.span := spans[b.span].(kind := Small(spans[b.span].kind.c, spans[b.span].kind.useCount - b.count))],
                     Move(lists, BatchBox(t, i), |List(lists, BatchBox(t, i))|, SpanBox(b.span)))
  {
    var sp := spans[b.span].(kind := Small(spans[b.span].kind.c, spans[b.span].kind.useCount - b.count));
    assert Objects(sp, sp.kind.c) == Objects(spans[b.span], sp.kind.c);
  }

  lemma JoinedPlaces(s: State, t: nat, rel: Rel, i: nat)
    requires i < |rel.batches| && Flushing(s, t, rel, i)
    requires var b := rel.batches[i]; InBucket(s.spans, rel.c, b.span) && b.count <= s.spans[b.span].kind.useCount
    ensures var s' := Joined(s, t, i, rel.batches[i]); PlacesInv(s'.spans, s'.cached, s'.threads, s'.home, s'.place)
  {
    hide HomeInv;
    var s', l := Joined(s, t, i, rel.batches[i]), List(s.lists, BatchBox(t, i));
    BatchObjects(s, t, i);
    forall a | a in s'.place
      ensures WhereOk(s'.spans, s'.cached, s'.threads, s'.home[a], s'.place[a])
    {
      assert WhereOk(s.spans, s.cached, s.threads, s.home[a], s.place[a]);
    }
  }

  lemma JoinedOthers(s: State, s': State, t: nat)
    requires OthersOk(s, t) && Tame(s, s', t) && s'.threads == s.threads
    ensures OthersOk(s', t)
  {
    forall u | u in s.threads && u != t
      ensures PcOk(s'.spans, s'.cached, s'.lists, s'.home, u, s'.threads[u])
    {
      TameRely(s, s', t, u);
      OtherThread(s, s', u);
    }
  }

  lemma JoinedInv(s: State, t: nat, rel: Rel, i: nat)
    requires i < |rel.batches| && Flushing(s, t, rel, i)
    requires var b := rel.batches[i]; InBucket(s.spans, rel.c, b.span) && b.count <= s.spans[b.span].kind.useCount
    ensures Flushing(Joined(s, t, i, rel.batches[i]), t, rel, i + 1)
  {
    hide SpansInv, HomeInv, Boxes, PlacesInv, CountInv, BucketInv, CachesInv, OthersOk, BatchesLeft;
    var s' := Joined(s, t, i, rel.batches[i]);
    JoinedTame(s, t, rel, i);
    JoinedPlaces(s, t, rel, i);
    JoinedOthers(s, s', t);
    TameSpans(s, s', t);
  }

  /** A span with use count 0 has all its objects on its own list: nothing of it is anywhere else. */
  lemma NothingOut(s: State, id: nat)
    requires HomeInv(s.spans, s.home) && Boxes(s.lists, s.place) && CountInv(s.spans, s.lists)
    requires PlacesInv(s.spans, s.cached, s.threads, s.home, s.place)
    requires id in s.spans && s.spans[id].kind.Small? && s.spans[id].kind.useCount == 0
    ensures forall a | a in s.home :: s.home[a] == id <==> a in List(s.lists, SpanBox(id))
    ensures forall a | a in s.home && s.home[a] == id :: s.place[a] == In(SpanBox(id))
  {
    var free, all := List(s.lists, SpanBox(id)), Objects(s.spans[id], s.spans[id].kind.c);
    FreeObjects(s, id);
    ObjectsOfSpan(s.spans[id], s.spans[id].kind.c);
    HoldsAll(free, all);
    forall a | a in s.home && s.home[a] == id
      ensures a in free
    {
      assert IsObject(s.spans[id], a);
    }
  }

  lemma LeftSpans(s: State, t: nat, id: nat)
    requires SpansInv(s.spans, s.pmap) && HomeInv(s.spans, s.home) && BucketInv(s.spans, s.bucket)
    requires id in s.spans && s.spans[id].kind.Small?
    requires forall a | a in s.home :: s.home[a] == id <==> a in List(s.lists, SpanBox(id))
    ensures var s' := Left(s, t, id); SpansInv(s'.spans, s'.pmap) && HomeInv(s'.spans, s'.home) && BucketInv(s'.spans, s'.bucket)
  {
    hide Objects;
    var s', c := Left(s, t, id), s.spans[id].kind.c;
    forall x, p | x in s'.spans && InSpan(s'.spans[x], p)
      ensures p in s'.pmap && s'.pmap[p] == x
    {
      assert InSpan(s.spans[x], p);
    }
    forall x, a | x in s'.spans && IsObject(s'.spans[x], a)
      ensures a in s'.home && s'.home[a] == x
    {
      assert IsObject(s.spans[x], a);
    }
    forall a | a in s'.home
      ensures s'.home[a] in s'.spans && IsObject(s'.spans[s'.home[a]], a)
    {
      assert IsObject(s.spans[s.home[a]], a);
    }
    WithoutFacts(BucketOf(s.bucket, c), id);
    forall x, y
      ensures y in BucketOf(s'.bucket, x) <==> InBucket(s'.spans, x, y)
    {
      assert y in BucketOf(s.bucket, x) <==> InBucket(s.spans, x, y);
    }
  }

  lemma LeftLists(s: State, t: nat, id: nat)
    requires Boxes(s.lists, s.place) && CountInv(s.spans, s.lists) && CachesInv(s.lists, s.maxSize)
    requires id in s.spans && s.spans[id].kind.Small?
    ensures var s' := Left(s, t, id); Boxes(s'.lists, s'.place) && CountInv(s'.spans, s'.lists) && CachesInv(s'.lists, s'.maxSize)
  {
    DropKeeps(s.lists, s.place, SpanBox(id));
    CachesShorter(s.lists, Left(s, t, id).lists, s.maxSize);
  }

  lemma LeftPlaces(s: State, t: nat, id: nat)
    requires PlacesInv(s.spans, s.cached, s.threads, s.home, s.place) && id in s.spans && s.spans[id].kind.Small?
    requires forall a | a in s.home :: s.home[a] == id <==> a in List(s.lists, SpanBox(id))
    ensures var s' := Left(s, t, id); PlacesInv(s'.spans, s'.cached, s'.threads, s'.home, s'.place)
  {
    var s' := Left(s, t, id);
    forall a | a in s'.place
      ensures WhereOk(s'.spans, s'.cached, s'.threads, s'.home[a], s'.place[a])
    {
      assert WhereOk(s.spans, s.cached, s.threads, s.home[a], s.place[a]);
    }
  }

  /** Another thread's batch has an object of its span in hand, so that span is not the one that leaves. */
  lemma BatchSpanIsOut(s: State, u: nat, i: nat, id: nat)
    requires HomeInv(s.spans, s.home) && Boxes(s.lists, s.place) && PlacesInv(s.spans, s.cached, s.threads, s.home, s.place)
    requires u in s.threads && Releasing(s.threads[u]) && i < |s.threads[u].rel.batches| && |List(s.lists, BatchBox(u, i))| > 0
    requires forall a | a in s.home && s.home[a] == id :: s.place[a] == In(SpanBox(id))
    ensures s.threads[u].rel.batches[i].span != id
  {
    BatchObjects(s, u, i);
    var a := List(s.lists, BatchBox(u, i))[0];
    assert a in List(s.lists, BatchBox(u, i));
  }

  lemma LeftOthers(s: State, t: nat, id: nat)
    requires HomeInv(s.spans, s.home) && Boxes(s.lists, s.place) && PlacesInv(s.spans, s.cached, s.threads, s.home, s.place)
    requires OthersOk(s, t) && id in s.spans && s.spans[id].kind.Small?
    requires forall a | a in s.home && s.home[a] == id :: s.place[a] == In(SpanBox(id))
    ensures OthersOk(Left(s, t, id), t)
  {
    var s' := Left(s, t, id);
    forall u | u in s.threads && u != t
      ensures PcOk(s'.spans, s'.cached, s'.lists, s'.home, u, s'.threads[u])
    {
      assert PcOk(s.spans, s.cached, s.lists, s.home, u, s.threads[u]);
      LeftRely(s, t, id, u);
      OtherThread(s, s', u);
    }
  }

  lemma LeftRely(s: State, t: nat, id: nat, u: nat)
    requires HomeInv(s.spans, s.home) && Boxes(s.lists, s.place) && PlacesInv(s.spans, s.cached, s.threads, s.home, s.place)
    requires u in s.threads && u != t && PcOk(s.spans, s.cached, s.lists, s.home, u, s.threads[u]) && id in s.spans && s.spans[id].kind.Small?
    requires forall a | a in s.home && s.home[a] == id :: s.place[a] == In(SpanBox(id))
    ensures Rely(s, Left(s, t, id), u)
  {
    var s' := Left(s, t, id);
    forall a | a in List(s.lists, RestBox(u)) && a in s.home
      ensures a in s'.home && s'.home[a] == s.home[a]
    {
      assert s.place[a] == In(RestBox(u));
      assert a in List(s.lists, SpanBox(id)) <==> s.place[a] == In(SpanBox(id));
    }
    if Releasing(s.threads[u]) {
      forall i: nat | i < |s.threads[u].rel.batches|
        ensures KeepsBucket(s.spans, s'.spans, s.threads[u].rel.batches[i].span)
      {
        assert BatchOk(s.spans, s.lists, u, s.threads[u].rel.c, i, s.threads[u].rel.batches[i]);
        BatchSpanIsOut(s, u, i, id);
      }
    }
  }

  lemma LeftBatches(s: State, t: nat, rel: Rel, i: nat, id: nat)
    requires Boxes(s.lists, s.place) && i < |rel.batches| && BatchesLeft(s, t, rel, i + 1) && id == rel.batches[i].span
    requires id in s.spans && s.spans[id].kind.Small?
    ensures BatchesLeft(Left(s, t, id), t, rel, i + 1)
  {
    var s' := Left(s, t, id);
    forall j: nat | i + 1 <= j < |rel.batches|
      ensures BatchOk(s'.spans, s'.lists, t, rel.c, j, rel.batches[j])
    {
      assert BatchOk(s.spans, s.lists, t, rel.c, j, rel.batches[j]) && rel.batches[j].span != id;
    }
    forall a | a in List(s.lists, RestBox(t)) && a in s.home
      ensures a in s'.home && s'.home[a] == s.home[a]
    {
      assert s.place[a] == In(RestBox(t));
      assert a in List(s.lists, SpanBox(id)) <==> s.place[a] == In(SpanBox(id));
    }
    forall j: nat | j < i + 1
      ensures Flushed(s'.spans, t, rel.c, rel.batches[j].span)
    {
      assert Flushed(s.spans, t, rel.c, rel.batches[j].span);
    }
  }

  lemma LeftInv(s: State, t: nat, rel: Rel, i: nat, id: nat)
    requires i < |rel.batches| && Flushing(s, t, rel, i + 1) && id == rel.batches[i].span
    requires id in s.spans && s.spans[id].kind.Small? && s.spans[id].kind.useCount == 0
    ensures Flushing(Left(s, t, id), t, rel, i + 1)
  {
    hide SpansInv, HomeInv, Boxes, PlacesInv, CountInv, BucketInv, CachesInv, OthersOk, BatchesLeft;
    NothingOut(s, id);
    LeftSpans(s, t, id);
    LeftLists(s, t, id);
    LeftPlaces(s, t, id);
    LeftOthers(s, t, id);
    LeftBatches(s, t, rel, i, id);
  }

  lemma FlushOneInv(s: State, t: nat, rel: Rel, i: nat)
    requires i < |rel.batches| && Flushing(s, t, rel, i)
    ensures var s' := FlushOne(s, t, i, rel.batches[i]);
            Flushing(s', t, rel, i + 1) && List(s'.lists, RestBox(t)) == List(s.lists, RestBox(t)) && s'.threads == s.threads
  {
    hide Flushing;
    var b := rel.batches[i];
    BatchWasOut(s, t, rel, i);
    FlushOneIs(s, t, i, b);
    JoinedInv(s, t, rel, i);
    var s1 := Joined(s, t, i, b);
    if s1.spans[b.span].kind.useCount == 0 {
      LeftInv(s1, t, rel, i, b.span);
    }
  }

  lemma {:induction false} FlushFromInv(s: State, t: nat, rel: Rel, i: nat)
    requires i <= |rel.batches| && Flushing(s, t, rel, i)
    ensures var s' := FlushFrom(s, t, rel.batches, i);
            Flushing(s', t, rel, |rel.batches|) && List(s'.lists, RestBox(t)) == List(s.lists, RestBox(t)) && s'.threads == s.threads
    decreases |rel.batches| - i
  {
    hide Flushing;
    if i < |rel.batches| {
      FlushOneInv(s, t, rel, i);
      FlushFromInv(FlushOne(s, t, i, rel.batches[i]), t, rel, i + 1);
    }
  }

  lemma {:induction false} ReleasedFacts(spans: map<nat, Span>, t: nat, batches: seq<Batch>)
    requires DistinctSpans(batches)
    ensures NoRepeats(ReleasedOf(spans, t, batches))
    ensures forall id | id in ReleasedOf(spans, t, batches) :: id in spans && spans[id].kind == Returning(t)
    ensures forall id | id in ReleasedOf(spans, t, batches) :: exists i :: 0 <= i < |batches| && batches[i].span == id
  {
    if batches != [] {
      assert DistinctSpans(batches[1..]) by {
        forall i, j | 0 <= i < j < |batches[1..]|
          ensures batches[1..][i].span != batches[1..][j].span
        {
          assert batches[i + 1].span != batches[j + 1].span;
        }
      }
      ReleasedFacts(spans, t, batches[1..]);
      var rest := ReleasedOf(spans, t, batches[1..]);
      forall id | id in rest
        ensures id != batches[0].span && exists i :: 0 <= i < |batches| && batches[i].span == id
      {
        var i :| 0 <= i < |batches[1..]| && batches[1..][i].span == id;
        assert batches[i + 1].span == id;
      }
      JoinNoRepeats([batches[0].span], rest);
    }
  }

  lemma StartFlushing(s: State, t: nat)
    requires Inv(s) && Enabled(s, Flush(t))
    ensures Releasing(s.threads[t]) && Flushing(s, t, s.threads[t].rel, 0)
  {
    assert PcOk(s.spans, s.cached, s.lists, s.home, t, s.threads[t]);
  }

  lemma EndPlaces(s: State, t: nat, rel: Rel, pc: Pc)
    requires Boxes(s.lists, s.place) && PlacesInv(s.spans, s.cached, s.threads, s.home, s.place)
    requires BatchesLeft(s, t, rel, |rel.batches|) && pc.Return? && pc.rel == rel.(batches := [])
    ensures t in s.threads && PlacesInv(s.spans, s.cached, s.threads[t := pc], s.home, s.place)
  {
    forall a | a in s.place
      ensures WhereOk(s.spans, s.cached, s.threads[t := pc], s.home[a], s.place[a])
    {
      assert WhereOk(s.spans, s.cached, s.threads, s.home[a], s.place[a]);
      assert s.place[a].In? ==> a in List(s.lists, s.place[a].box);
    }
  }

  /** Everything has been put back, so the thread goes on with no batches. */
  lemma EndFlushing(s: State, t: nat, rel: Rel, pc: Pc)
    requires Flushing(s, t, rel, |rel.batches|) && pc.Return? && pc.rel == rel.(batches := [])
    requires PcOk(s.spans, s.cached, s.lists, s.home, t, pc)
    ensures Inv(Goto(s, t, pc))
  {
    hide SpansInv, HomeInv, Boxes, PlacesInv, CountInv, BucketInv, CachesInv, BatchesLeft, PcOk;
    EndPlaces(s, t, rel, pc);
  }

  lemma FlushInv(s: State, t: nat)
    requires Inv(s) && Enabled(s, Flush(t))
    ensures Inv(Next(s, Flush(t)))
  {
    hide PlacesInv;
    StartFlushing(s, t);
    var rel := s.threads[t].rel;
    FlushFromInv(s, t, rel, 0);
    var s1 := FlushFrom(s, t, rel.batches, 0);
    var pc := Return(rel.(batches := []), ReleasedOf(s1.spans, t, rel.batches));
    ReleasedFacts(s1.spans, t, rel.batches);
    LastPage(s, t);
    EndFlushing(s1, t, rel, pc);
  }

  lemma LastPage(s: State, t: nat)
    requires ThreadsInv(s) && Enabled(s, Flush(t))
    ensures List(s.lists, RestBox(t)) != [] ==> s.threads[t].rel.lastId == PageOf(List(s.lists, RestBox(t))[0])
  {
    assert PcOk(s.spans, s.cached, s.lists, s.home, t, s.threads[t]);
  }

  lemma MallocInv(s: State, t: nat, c: nat)
    requires Inv(s) && Enabled(s, Malloc(t, c))
    ensures Inv(Next(s, Malloc(t, c)))
  {
    if List(s.lists, CacheBox(t, c)) != [] {
      MallocHitInv(s, t, c);
    } else {
      MallocMissInv(s, t, c);
    }
  }

  lemma NextInv(s: State, e: Event)
    requires Inv(s) && Enabled(s, e)
    ensures Inv(Next(s, e))
  {
    hide Inv;
    match e
    case Malloc(t, c) => MallocInv(s, t, c);
    case FetchCached(t) => FetchCachedInv(s, t);
    case NewSpan(t, id, page) => NewSpanInv(s, t, id, page);
    case NewSpanFails(t) => NewSpanFailsInv(s, t);
    case CarveAndFetch(t) => CarveInv(s, t);
    case Free(t, a) => FreeInv(s, t, a);
    case FreeSized(t, a, c) => FreeSizedInv(s, t, a, c);
    case LookupNext(t) => LookupInv(s, t);
    case SortNext(t) => SortInv(s, t);
    case Flush(t) => FlushInv(s, t);
    case ReturnNext(t) => ReturnInv(s, t);
    case MallocLarge(id, page, size) => AddSpanInv(s, id, page, RoundUp(size) / PAGE_SIZE, Large(RoundUp(size)));
    case FreeLarge(id) => FreeLargeInv(s, id);
    case Exit(t) => ExitStartInv(s, t);
    case ExitNext(t) => ExitInv(s, t);
    case OtherPages(pmap) => OtherPagesInv(s, pmap);
  }

  lemma NewSpanFailsInv(s: State, t: nat)
    requires Inv(s) && Enabled(s, NewSpanFails(t))
    ensures Inv(Next(s, NewSpanFails(t)))
  {
    GotoInv(s, t, Idle);
  }

  // ---------------------------------------------------------------- what every run guarantees

  /** A run: the states visited and the events between them, interleaved in any way. */
  ghost predicate IsRun(run: seq<State>, events: seq<Event>) {
    && |run| == |events| + 1
    && Init(run[0])
    && forall i | 0 <= i < |events| :: Enabled(run[i], events[i]) && run[i + 1] == Next(run[i], events[i])
  }

  lemma {:induction false} RunInv(run: seq<State>, events: seq<Event>, k: nat)
    requires IsRun(run, events) && k < |run|
    ensures Inv(run[k])
  {
    hide Inv;
    if k == 0 {
      InitInv(run[0]);
    } else {
      RunInv(run, events, k - 1);
      NextInv(run[k - 1], events[k - 1]);
    }
  }

  predicate IsSlot(s: State, a: nat, id: nat) { id in s.spans && IsObject(s.spans[id], a) }

  lemma ObjectsAreSlots(s: State, a: nat)
    requires HomeInv(s.spans, s.home) && s.place.Keys == s.home.Keys
    ensures a in s.place <==> exists id :: IsSlot(s, a, id)
  {
    if a in s.place {
      assert IsSlot(s, a, s.home[a]);
    }
  }

  /** Object `a` is with the user and on no list, or on the one list that is its place and on no other. */
  ghost predicate InOnePlace(s: State, a: nat)
    requires a in s.place
  {
    forall b | b in s.lists :: a in s.lists[b] <==> s.place[a] == In(b)
  }

  lemma ListsAreDisjoint(s: State, a: nat)
    requires Boxes(s.lists, s.place) && a in s.place
    ensures InOnePlace(s, a)
  {
    forall b | b in s.lists
      ensures a in s.lists[b] <==> s.place[a] == In(b)
    {
      assert a in List(s.lists, b) <==> a in s.place && s.place[a] == In(b);
    }
  }

  lemma ObjectsAreAtHome(s: State, a: nat)
    requires HomeInv(s.spans, s.home) && PlacesInv(s.spans, s.cached, s.threads, s.home, s.place) && a in s.place
    ensures forall id | s.place[a] == In(SpanBox(id)) :: IsSlot(s, a, id)
    ensures forall t, c | s.place[a] == In(CacheBox(t, c)) :: HasClass(s, a, c)
  {
    assert WhereOk(s.spans, s.cached, s.threads, s.home[a], s.place[a]);
    assert IsSlot(s, a, s.home[a]);
  }

  lemma EachAtHome(s: State)
    requires HomeInv(s.spans, s.home) && PlacesInv(s.spans, s.cached, s.threads, s.home, s.place)
    ensures forall a, id | a in s.place && s.place[a] == In(SpanBox(id)) :: IsSlot(s, a, id)
    ensures forall a, t, c | a in s.place && s.place[a] == In(CacheBox(t, c)) :: HasClass(s, a, c)
  {
    hide HomeInv, PlacesInv, IsSlot, HasClass;
    forall a | a in s.place
      ensures forall id | s.place[a] == In(SpanBox(id)) :: IsSlot(s, a, id)
      ensures forall t, c | s.place[a] == In(CacheBox(t, c)) :: HasClass(s, a, c)
    {
      ObjectsAreAtHome(s, a);
    }
  }

  /** Each object is with the user or on exactly one list, once; and the objects are exactly the slots
      that the spans of the central cache were carved into. A span's list holds only its own objects, and
      a thread's list only objects of its class. */
  lemma EveryObjectIsInOnePlace(run: seq<State>, events: seq<Event>, k: nat)
    requires IsRun(run, events) && k < |run|
    ensures var s := run[k];
            && (forall a :: a in s.place <==> exists id :: IsSlot(s, a, id))
            && (forall a | a in s.place :: InOnePlace(s, a))
            && (forall b | b in s.lists :: NoRepeats(s.lists[b]))
            && (forall a, id | a in s.place && s.place[a] == In(SpanBox(id)) :: IsSlot(s, a, id))
            && (forall a, t, c | a in s.place && s.place[a] == In(CacheBox(t, c)) :: HasClass(s, a, c))
  {
    hide IsSlot, HasClass;
    RunInv(run, events, k);
    var s := run[k];
    EachAtHome(s);
    forall a
      ensures a in s.place <==> exists id :: IsSlot(s, a, id)
    {
      ObjectsAreSlots(s, a);
    }
    forall a | a in s.place
      ensures InOnePlace(s, a)
    {
      ListsAreDisjoint(s, a);
    }
  }

  /** The block at `a` that a user holds, of `size` bytes, in span `id`. */
  predicate HeldByUser(s: State, a: nat, size: nat, id: nat) {
    && id in s.spans && s.spans[id].n > 0
    && if s.spans[id].kind.Large? then a == s.spans[id].page * PAGE_SIZE && size == s.spans[id].n * PAGE_SIZE
       else a in s.place && s.place[a] == User && s.home.Keys == s.place.Keys && s.home[a] == id && s.spans[id].kind.Small?
            && size == ClassSize(s.spans[id].kind.c)
  }

  lemma SpansApart(s: State, id: nat, id': nat)
    requires SpansInv(s.spans, s.pmap) && id in s.spans && id' in s.spans && id != id' && s.spans[id].n > 0 && s.spans[id'].n > 0
    ensures s.spans[id].page + s.spans[id].n <= s.spans[id'].page || s.spans[id'].page + s.spans[id'].n <= s.spans[id].page
  {
    var p := if s.spans[id].page < s.spans[id'].page then s.spans[id'].page else s.spans[id].page;
    assert !(InSpan(s.spans[id], p) && InSpan(s.spans[id'], p));
  }

  lemma BlockInSpan(s: State, a: nat, size: nat, id: nat)
    requires HomeInv(s.spans, s.home) && HeldByUser(s, a, size, id)
    ensures s.spans[id].page * PAGE_SIZE <= a && a + size <= (s.spans[id].page + s.spans[id].n) * PAGE_SIZE
  {
    var sp := s.spans[id];
    if sp.kind.Small? {
      assert IsObject(sp, a);
      PositiveClass(sp.kind.c);
      SlotsFit(sp.page * PAGE_SIZE, sp.n * PAGE_SIZE, ClassSize(sp.kind.c));
    }
  }

  lemma BlocksApart(s: State, a: nat, size: nat, id: nat, a': nat, size': nat, id': nat)
    requires SpansInv(s.spans, s.pmap) && HomeInv(s.spans, s.home)
    requires HeldByUser(s, a, size, id) && HeldByUser(s, a', size', id') && (a != a' || id != id')
    ensures a + size <= a' || a' + size' <= a
  {
    BlockInSpan(s, a, size, id);
    BlockInSpan(s, a', size', id');
    if id != id' {
      SpansApart(s, id, id');
    } else {
      var sp := s.spans[id];
      PositiveClass(sp.kind.c);
      SlotsFit(sp.page * PAGE_SIZE, sp.n * PAGE_SIZE, ClassSize(sp.kind.c));
      assert IsObject(sp, a) && IsObject(sp, a');
    }
  }

  /** Blocks that users hold never overlap: two are the same block, or neither reaches into the other. */
  lemma BlocksNeverOverlap(run: seq<State>, events: seq<Event>, k: nat, a: nat, size: nat, id: nat, a': nat, size': nat, id': nat)
    requires IsRun(run, events) && k < |run|
    requires HeldByUser(run[k], a, size, id) && HeldByUser(run[k], a', size', id') && (a != a' || id != id')
    ensures a + size <= a' || a' + size' <= a
  {
    RunInv(run, events, k);
    BlocksApart(run[k], a, size, id, a', size', id');
  }

  /** `_useCount` is the number of a span's objects that are not on its own free list. */
  lemma UseCountIsOutstanding(run: seq<State>, events: seq<Event>, k: nat, id: nat)
    requires IsRun(run, events) && k < |run| && id in run[k].spans && run[k].spans[id].kind.Small?
    ensures var s := run[k]; var objects := Objects(s.spans[id], s.spans[id].kind.c);
            && s.spans[id].kind.useCount == |set a | a in objects && (a in s.place ==> s.place[a] != In(SpanBox(id)))|
            && s.spans[id].kind.useCount + |List(s.lists, SpanBox(id))| == |objects|
  {
    RunInv(run, events, k);
    var s := run[k];
    var objects, free := Objects(s.spans[id], s.spans[id].kind.c), List(s.lists, SpanBox(id));
    FreeObjects(s, id);
    ObjectsOfSpan(s.spans[id], s.spans[id].kind.c);
    SetOfSize(objects);
    SetOfSize(free);
    var out := set a | a in objects && (a in s.place ==> s.place[a] != In(SpanBox(id)));
    forall a
      ensures a in out <==> a in SetOf(objects) && a !in SetOf(free)
    {
      assert a in free <==> a in s.place && s.place[a] == In(SpanBox(id));
    }
    assert out == SetOf(objects) - SetOf(free);
    SubsetDifference(SetOf(objects), SetOf(free));
  }

  lemma SubsetDifference(s: set<nat>, u: set<nat>)
    requires u <= s
    ensures |s - u| == |s| - |u|
  {
    assert s == (s - u) + u;
  }

  /** A span that a thread is giving back to the page heap holds no object any more: all were on its own
      list, so none is with a user, on a thread's list, or in anybody's batch. */
  lemma OnlyIdleSpansGoBack(run: seq<State>, events: seq<Event>, k: nat, id: nat)
    requires IsRun(run, events) && k < |run| && id in run[k].spans && run[k].spans[id].kind.Returning?
    ensures forall a | a in run[k].home :: run[k].home[a] != id
    ensures forall t, i: nat | t in run[k].threads && Releasing(run[k].threads[t]) && i < |run[k].threads[t].rel.batches| ::
              run[k].threads[t].rel.batches[i].span != id
  {
    hide PlacesInv;
    RunInv(run, events, k);
    var s := run[k];
    forall a | a in s.home
      ensures s.home[a] != id
    {
      assert IsObject(s.spans[s.home[a]], a);
    }
    forall t, i: nat | t in s.threads && Releasing(s.threads[t]) && i < |s.threads[t].rel.batches|
      ensures s.threads[t].rel.batches[i].span != id
    {
      assert PcOk(s.spans, s.cached, s.lists, s.home, t, s.threads[t]);
      assert BatchOk(s.spans, s.lists, t, s.threads[t].rel.c, i, s.threads[t].rel.batches[i]);
    }
  }

  /** A thread never hoards: each of its lists is shorter than its slow-start limit and one move
      together, and holds less than 1 MiB. */
  lemma ThreadsDoNotHoard(run: seq<State>, events: seq<Event>, k: nat, t: nat, c: nat)
    requires IsRun(run, events) && k < |run| && c < MAX_NFREELISTS
    ensures var s, box := run[k], CacheBox(t, c);
            && 1 <= Max(s.maxSize, box) <= NumMoveSize(c)
            && |List(s.lists, box)| < Max(s.maxSize, box) + NumMoveSize(c)
            && |List(s.lists, box)| * ClassSize(c) < 1024 * 1024
  {
    RunInv(run, events, k);
    var s, box := run[k], CacheBox(t, c);
    assert CacheOk(|List(s.lists, box)|, Max(s.maxSize, box), c);
    PositiveClass(c);
    ClassOfClass(c);
    MoveBytes(ClassSize(c));
    BytesBelow(|List(s.lists, box)|, 2 * NumMoveSize(c), ClassSize(c));
  }

  lemma BytesBelow(n: nat, bound: nat, size: nat)
    requires n < bound && size > 0
    ensures n * size < bound * size
  {
    assert bound * size == n * size + (bound - n) * size;
    MulMonotone(1, bound - n, size, size);
  }

  // ---------------------------------------------------------------- the ranges of the spans

  /** The steps that do not involve the page heap. */
  predicate Private(e: Event) {
    !e.NewSpan? && !e.MallocLarge? && !e.FreeLarge? && !e.ReturnNext? && !e.OtherPages?
  }

  ghost predicate SameRanges(s: State, s': State) {
    && s'.pmap == s.pmap && s'.spans.Keys == s.spans.Keys
    && forall x | x in s.spans :: s'.spans[x].page == s.spans[x].page && s'.spans[x].n == s.spans[x].n
  }

  lemma RangesKept(s: State, e: Event)
    requires Enabled(s, e) && Private(e)
    ensures SameRanges(s, Next(s, e))
  {
    hide Next, Enabled, SameRanges;
    match e
    case FetchCached(t) => FetchStep(s, t);
    case CarveAndFetch(t) => CarveStep(s, t);
    case Free(t, a) => FreeStep(s, t, a);
    case FreeSized(t, a, c) => FreeSizedStep(s, t, a, c);
    case Flush(t) => FlushStep(s, t);
    case _ => OtherStep(s, e);
  }

  lemma OtherStep(s: State, e: Event)
    requires Enabled(s, e) && Private(e)
    requires !e.FetchCached? && !e.CarveAndFetch? && !e.Free? && !e.FreeSized? && !e.Flush?
    ensures SameRanges(s, Next(s, e))
  {
    hide Next, Enabled, SameRanges;
    match e {
      case Malloc(t, c) => MallocStep(s, t, c);
      case LookupNext(t) => LookupStep(s, t);
      case SortNext(t) => SortNextStep(s, t);
      case NewSpanFails(t) => FailStep(s, t);
      case Exit(t) => ExitStep(s, t);
      case ExitNext(t) => ExitNextStep(s, t);
    }
    RangesUntouched(s, Next(s, e));
  }

  lemma MallocStep(s: State, t: nat, c: nat)
    requires Enabled(s, Malloc(t, c))
    ensures var s' := Next(s, Malloc(t, c)); s'.spans == s.spans && s'.pmap == s.pmap
  {
    hide Enabled, Extract, Deallocate, FlushFrom, Carved, Objects, Sorted, Max, NumMoveSize, List, Move, Relocate, Finish;
    if List(s.lists, CacheBox(t, c)) != [] {
      assert Next(s, Malloc(t, c)).threads == s.threads;
    } else {
      assert Next(s, Malloc(t, c)).threads == s.threads[t := Fetch(c)];
    }
  }

  lemma LookupStep(s: State, t: nat)
    requires Enabled(s, LookupNext(t))
    ensures var s' := Next(s, LookupNext(t)); s'.spans == s.spans && s'.pmap == s.pmap
  {
    hide Extract, Deallocate, FlushFrom, Carved, Objects, Sorted, Max, NumMoveSize, List, Move, Relocate, Finish;
    var rel, s' := s.threads[t].rel, Next(s, LookupNext(t));
    if List(s.lists, RestBox(t)) == [] {
      assert s' == Goto(s, t, Finish(rel));
    } else {
      assert s'.threads[t].Sort? && s' == Goto(s, t, s'.threads[t]);
    }
  }

  lemma SortNextStep(s: State, t: nat)
    requires Enabled(s, SortNext(t))
    ensures var s' := Next(s, SortNext(t)); s'.spans == s.spans && s'.pmap == s.pmap
  {
    hide Enabled, Extract, Deallocate, FlushFrom, Carved, Objects, Sorted, Max, NumMoveSize, List, Move, Relocate, Finish;
  }

  lemma FailStep(s: State, t: nat)
    requires Enabled(s, NewSpanFails(t))
    ensures var s' := Next(s, NewSpanFails(t)); s'.spans == s.spans && s'.pmap == s.pmap
  {
    hide Enabled, Extract, Deallocate, FlushFrom, Carved, Objects, Sorted, Max, NumMoveSize, List, Move, Relocate, Finish;
  }

  lemma ExitStep(s: State, t: nat)
    requires Enabled(s, Exit(t))
    ensures var s' := Next(s, Exit(t)); s'.spans == s.spans && s'.pmap == s.pmap
  {
    hide Enabled, Extract, Deallocate, FlushFrom, Carved, Objects, Sorted, Max, NumMoveSize, List, Move, Relocate, Finish;
  }

  lemma ExitNextStep(s: State, t: nat)
    requires Enabled(s, ExitNext(t))
    ensures var s' := Next(s, ExitNext(t)); s'.spans == s.spans && s'.pmap == s.pmap
  {
    hide Extract, Deallocate, FlushFrom, Carved, Objects, Sorted, Max, NumMoveSize, List, Move, Relocate, Finish, InSpan, WithoutCache;
    var c, s' := s.threads[t].c, Next(s, ExitNext(t));
    var l := List(s.lists, CacheBox(t, c));
    if c >= MAX_NFREELISTS {
      assert s' == Goto(s, t, Idle).(cached := s.cached - {t}, maxSize := WithoutCache(s.maxSize, t));
    } else if l == [] {
      assert s' == Goto(s, t, Exiting(c + 1));
    } else {
      assert s'.threads == s.threads[t := Lookup(Rel(c, [], 0, 0, true, c + 1))];
    }
  }

  lemma RangesUntouched(s: State, s': State)
    ensures s'.spans == s.spans && s'.pmap == s.pmap ==> SameRanges(s, s')
  {
  }

  lemma RangesTwice(s: State, s1: State, s2: State)
    requires SameRanges(s, s1) && SameRanges(s1, s2)
    ensures SameRanges(s, s2)
  {
  }

  lemma ExtractKeeps(s: State, t: nat, c: nat, id: nat)
    requires id in s.spans && s.spans[id].kind.Small? && List(s.lists, SpanBox(id)) != []
    ensures SameRanges(s, Extract(s, t, c, id))
  {
    hide List, Move, Relocate, Max;
  }

  lemma FetchStep(s: State, t: nat)
    requires Enabled(s, FetchCached(t))
    ensures SameRanges(s, Next(s, FetchCached(t)))
  {
    hide Extract, List, SameRanges, BucketOf;
    var c := s.threads[t].c;
    var id := FirstWithObjects(BucketOf(s.bucket, c), s.lists);
    if id == 0 || id !in s.spans || !s.spans[id].kind.Small? {
      RangesUntouched(s, Next(s, FetchCached(t)));
    } else {
      ExtractKeeps(s, t, c, id);
    }
  }

  lemma CarvedKeeps(s: State, t: nat, c: nat, id: nat)
    requires id in s.spans && Objects(s.spans[id], c) != []
    ensures var s1 := Goto(Carved(s, t, c, id), t, Fetch(c));
            SameRanges(s, s1) && id in s1.spans && s1.spans[id].kind.Small? && List(s1.lists, SpanBox(id)) != []
  {
    hide Objects, Added, BucketOf;
  }

  lemma CarveStep(s: State, t: nat)
    requires Enabled(s, CarveAndFetch(t))
    ensures SameRanges(s, Next(s, CarveAndFetch(t)))
  {
    hide Extract, List, SameRanges, Objects, Carved;
    var c, id := s.threads[t].c, s.threads[t].id;
    if id !in s.spans || Objects(s.spans[id], c) == [] {
      RangesUntouched(s, s);
    } else {
      var s1 := Goto(Carved(s, t, c, id), t, Fetch(c));
      CarvedKeeps(s, t, c, id);
      ExtractKeeps(s1, t, c, id);
      RangesTwice(s, s1, Extract(s1, t, c, id));
    }
  }

  lemma DeallocateKeeps(s: State, t: nat, a: nat, c: nat)
    requires c < MAX_NFREELISTS
    ensures SameRanges(s, Deallocate(s, t, a, c))
  {
    hide List, Relocate, Max, NumMoveSize;
  }

  lemma FreeStep(s: State, t: nat, a: nat)
    requires Enabled(s, Free(t, a))
    ensures SameRanges(s, Next(s, Free(t, a)))
  {
    hide Deallocate, SameRanges;
    var id, s1 := Get(s.pmap, PageOf(a)), s.(cached := s.cached + {t});
    RangesUntouched(s, s);
    RangesUntouched(s, s1);
    if id in s.spans && s.spans[id].kind.Small? && s.spans[id].kind.c < MAX_NFREELISTS {
      DeallocateKeeps(s1, t, a, s.spans[id].kind.c);
      RangesTwice(s, s1, Deallocate(s1, t, a, s.spans[id].kind.c));
    }
  }

  lemma FreeSizedStep(s: State, t: nat, a: nat, c: nat)
    requires Enabled(s, FreeSized(t, a, c))
    ensures SameRanges(s, Next(s, FreeSized(t, a, c)))
  {
    hide Deallocate, SameRanges, List;
    if c < MAX_NFREELISTS && t in s.cached {
      DeallocateKeeps(s, t, a, c);
    } else {
      RangesUntouched(s, Next(s, FreeSized(t, a, c)));
    }
  }

  lemma FlushStep(s: State, t: nat)
    requires Enabled(s, Flush(t))
    ensures SameRanges(s, Next(s, Flush(t)))
  {
    hide FlushFrom, ReleasedOf, SameRanges;
    var s1 := FlushFrom(s, t, s.threads[t].rel.batches, 0);
    FlushKeepsRanges(s, t, s.threads[t].rel.batches, 0);
    RangesUntouched(s1, Next(s, Flush(t)));
    RangesTwice(s, s1, Next(s, Flush(t)));
  }

  lemma FlushOneKeeps(s: State, t: nat, i: nat, b: Batch)
    ensures SameRanges(s, FlushOne(s, t, i, b))
  {
    hide List, Move, Relocate, Dropped, BucketOf;
  }

  lemma {:induction false} FlushKeepsRanges(s: State, t: nat, batches: seq<Batch>, i: nat)
    requires i <= |batches|
    ensures SameRanges(s, FlushFrom(s, t, batches, i))
    decreases |batches| - i
  {
    hide FlushOne;
    if i < |batches| {
      FlushOneKeeps(s, t, i, batches[i]);
      FlushKeepsRanges(FlushOne(s, t, i, batches[i]), t, batches, i + 1);
    }
  }
}
