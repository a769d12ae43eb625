/** What the allocator's operations achieve: which blocks change hands in each step of module Allocator, that a
    list on its way back arrives, and that no idle span is kept. */
module AllocatorEffects {
  import opened Common
  import opened Lists
  import opened Carving
  import opened SizeClasses
  import opened Allocator

  // ---------------------------------------------------------------- blocks that change hands

  /** A user has the small block `a`. */
  predicate UserHas(s: State, a: nat) { WithUser(s.place, a) }

  predicate WithUser(place: map<nat, Where>, a: nat) { a in place && place[a] == User }

  /** One block of class `c`, which nobody had, has been handed out, and all others are with whom they were. */
  ghost predicate Given(s: State, s': State, a: nat, c: nat) {
    && HasClass(s', a, c) && !UserHas(s, a) && UserHas(s', a)
    && forall x | x != a :: UserHas(s', x) <==> UserHas(s, x)
  }

  /** The user has given block `a` back, and all others are with whom they were. */
  ghost predicate Taken(s: State, s': State, a: nat) {
    && UserHas(s, a) && !UserHas(s', a)
    && forall x | x != a :: UserHas(s', x) <==> UserHas(s, x)
  }

  ghost predicate SameHeld(s: State, s': State) { forall x :: UserHas(s', x) <==> UserHas(s, x) }

  lemma InBox(s: State, b: Box, a: nat)
    requires Boxes(s.lists, s.place) && a in List(s.lists, b)
    ensures a in s.place && s.place[a] == In(b)
  {
  }

  /** An object on a thread's list has its class. */
  lemma CachedObject(s: State, t: nat, c: nat, a: nat)
    requires Inv(s) && a in List(s.lists, CacheBox(t, c))
    ensures a in s.place && s.place[a] == In(CacheBox(t, c)) && HasClass(s, a, c)
  {
    InBox(s, CacheBox(t, c), a);
    assert WhereOk(s.spans, s.cached, s.threads, s.home[a], s.place[a]);
  }

  /** `malloc` with something on the thread's list hands out its front. */
  lemma MallocTakesFront(s: State, t: nat, c: nat)
    requires Inv(s) && Enabled(s, Malloc(t, c)) && List(s.lists, CacheBox(t, c)) != []
    ensures var s', l := Next(s, Malloc(t, c)), List(s.lists, CacheBox(t, c));
            && Given(s, s', l[0], c) && List(s'.lists, CacheBox(t, c)) == l[1..] && s'.threads == s.threads
            && (forall b {:trigger List(s'.lists, b)} | b != CacheBox(t, c) :: List(s'.lists, b) == List(s.lists, b))
  {
    hide SpansInv, HomeInv, Boxes, PlacesInv, CountInv, BucketInv, CachesInv, ThreadsInv;
    var l := List(s.lists, CacheBox(t, c));
    assert l[0] in l;
    CachedObject(s, t, c, l[0]);
  }

  /** With an empty list `malloc` goes to the central cache and the thread's limit doubles, up to one move. */
  lemma MallocMissDoubles(s: State, t: nat, c: nat)
    requires Inv(s) && Enabled(s, Malloc(t, c)) && List(s.lists, CacheBox(t, c)) == []
    ensures var s', m := Next(s, Malloc(t, c)), Max(s.maxSize, CacheBox(t, c));
            && SameHeld(s, s') && s'.lists == s.lists && s'.threads == s.threads[t := Fetch(c)]
            && Max(s'.maxSize, CacheBox(t, c)) == Min(2 * m, NumMoveSize(c)) >= m
            && (forall b | b != CacheBox(t, c) :: Max(s'.maxSize, b) == Max(s.maxSize, b))
  {
    hide SpansInv, HomeInv, Boxes, PlacesInv, CountInv, BucketInv, ThreadsInv;
    assert CacheOk(|List(s.lists, CacheBox(t, c))|, Max(s.maxSize, CacheBox(t, c)), c);
  }

  /** How many objects are taken off a span's list `l`. */
  function Portion(s: State, t: nat, c: nat, l: seq<nat>): nat {
    if Max(s.maxSize, CacheBox(t, c)) == 0 then 1 else Min(Max(s.maxSize, CacheBox(t, c)), |l|)
  }

  lemma ExtractSplits(s: State, t: nat, c: nat, id: nat)
    requires CanExtract(s, t, c, id)
    ensures var s', l := Extract(s, t, c, id), List(s.lists, SpanBox(id)); var k := Portion(s, t, c, l);
            && 0 < k <= |l| && List(s'.lists, CacheBox(t, c)) == l[1..k] && List(s'.lists, SpanBox(id)) == l[k..]
            && s'.place == Relocate(s.place[l[0] := User], l[1..][..k - 1], In(CacheBox(t, c)))
            && s'.threads == s.threads[t := Idle] && s'.home == s.home && InBucket(s'.spans, c, id)
  {
    hide Max, NumMoveSize, Relocate, Move, List;
    ExtractedRun(s.lists, SpanBox(id), Portion(s, t, c, List(s.lists, SpanBox(id))), CacheBox(t, c));
  }

  /** Taking objects off a span: its first goes to the user, and the next ones, up to the thread's limit, to the
      thread's list. */
  lemma ExtractGives(s: State, t: nat, c: nat, id: nat)
    requires Inv(s) && CanExtract(s, t, c, id)
    ensures var s', l := Extract(s, t, c, id), List(s.lists, SpanBox(id)); var k := Portion(s, t, c, l);
            && 0 < k <= |l| && List(s'.lists, CacheBox(t, c)) == l[1..k] && List(s'.lists, SpanBox(id)) == l[k..]
    ensures var s' := Extract(s, t, c, id);
            && Given(s, s', List(s.lists, SpanBox(id))[0], c) && s'.threads == s.threads[t := Idle]
            && s'.home == s.home && InBucket(s'.spans, c, id)
  {
    hide SpansInv, HomeInv, Boxes, PlacesInv, CountInv, BucketInv, CachesInv, ThreadsInv, Extract, Portion, Relocate, List;
    var l := List(s.lists, SpanBox(id));
    var k := Portion(s, t, c, l);
    ExtractSplits(s, t, c, id);
    assert l[0] in l;
    SpanObjects(s, id);
    MovedRun(s, l, k, CacheBox(t, c));
  }

  lemma ExtractedRun(lists: map<Box, seq<nat>>, from: Box, k: nat, to: Box)
    requires from != to && 0 < k <= |List(lists, from)| && List(lists, to) == []
    ensures var l := List(lists, from); var lists' := Move(lists[from := l[1..]], from, k - 1, to);
            List(lists', to) == l[1..k] && List(lists', from) == l[k..]
  {
    var l := List(lists, from);
    assert l[1..][..k - 1] == l[1..k] && l[1..][k - 1..] == l[k..] && l[1..k] + [] == l[1..k];
  }

  /** The objects on a span's list are its own, and no user's. */
  lemma SpanObjects(s: State, id: nat)
    requires Boxes(s.lists, s.place) && PlacesInv(s.spans, s.cached, s.threads, s.home, s.place)
    ensures forall a | a in List(s.lists, SpanBox(id)) :: a in s.home && s.home[a] == id && a in s.place && s.place[a] == In(SpanBox(id))
    ensures NoRepeats(List(s.lists, SpanBox(id)))
  {
    TakenFrom(s, id);
  }

  lemma MovedRun(s: State, l: seq<nat>, k: nat, box: Box)
    requires 0 < k <= |l| && NoRepeats(l) && forall a | a in l :: a in s.place && s.place[a].In?
    ensures var place' := Relocate(s.place[l[0] := User], l[1..][..k - 1], In(box));
            && WithUser(place', l[0]) && forall x | x != l[0] :: WithUser(place', x) <==> WithUser(s.place, x)
  {
    var run := l[1..][..k - 1];
    forall a | a in run
      ensures a in l && a != l[0]
    {
      var i :| 0 <= i < |run| && run[i] == a;
      assert l[i + 1] == a;
    }
  }

  /** `id` is the first of the spans `ids` with an object on its list. */
  predicate IsFirst(ids: seq<nat>, lists: map<Box, seq<nat>>, id: nat) {
    exists i | 0 <= i < |ids| :: ids[i] == id && List(lists, SpanBox(ids[i])) != [] && NothingBefore(ids, lists, i)
  }

  predicate NothingBefore(ids: seq<nat>, lists: map<Box, seq<nat>>, i: nat)
    requires i <= |ids|
  {
    forall j | 0 <= j < i :: List(lists, SpanBox(ids[j])) == []
  }

  /** `FetchRangeObj` hands out the first object of the first span of the bucket that has one, and asks for a new span
      if there is none. */
  lemma FetchServes(s: State, t: nat) returns (a: nat)
    requires Inv(s) && Enabled(s, FetchCached(t))
    ensures var s', c := Next(s, FetchCached(t)), s.threads[t].c;
            if exists id :: id in BucketOf(s.bucket, c) && List(s.lists, SpanBox(id)) != []
            then
              && Given(s, s', a, c) && s'.threads == s.threads[t := Idle] && a in s.home
              && IsFirst(BucketOf(s.bucket, c), s.lists, s.home[a]) && a == List(s.lists, SpanBox(s.home[a]))[0]
            else s' == Goto(s, t, NeedSpan(c))
  {
    hide SpansInv, HomeInv, Boxes, PlacesInv, CountInv, CachesInv, IsFirst;
    var c := s.threads[t].c;
    assert PcOk(s.spans, s.cached, s.lists, s.home, t, s.threads[t]);
    var ids := BucketOf(s.bucket, c);
    var id := FirstWithObjects(ids, s.lists);
    FirstOrNone(s, ids);
    a := 0;
    if id != 0 {
      assert id in ids <==> InBucket(s.spans, c, id);
      FirstIsFirst(ids, s.lists);
      ExtractGives(s, t, c, id);
      SpanObjects(s, id);
      a := List(s.lists, SpanBox(id))[0];
      assert a in List(s.lists, SpanBox(id));
    }
  }

  lemma {:induction false} FirstIsFirst(ids: seq<nat>, lists: map<Box, seq<nat>>)
    requires FirstWithObjects(ids, lists) != 0
    ensures IsFirst(ids, lists, FirstWithObjects(ids, lists))
  {
    hide List;
    if List(lists, SpanBox(ids[0])) != [] {
      assert NothingBefore(ids, lists, 0);
    } else {
      FirstIsFirst(ids[1..], lists);
      var i :| 0 <= i < |ids[1..]| && ids[1..][i] == FirstWithObjects(ids, lists) && NothingBefore(ids[1..], lists, i)
               && List(lists, SpanBox(ids[1..][i])) != [];
      forall j | 0 <= j < i + 1
        ensures List(lists, SpanBox(ids[j])) == []
      {
        assert j > 0 ==> ids[1..][j - 1] == ids[j];
      }
      assert NothingBefore(ids, lists, i + 1) && ids[i + 1] == ids[1..][i];
    }
  }

  lemma FirstOrNone(s: State, ids: seq<nat>)
    requires SpansInv(s.spans, s.pmap) && forall id | id in ids :: id in s.spans
    ensures FirstWithObjects(ids, s.lists) == 0 <==> forall id | id in ids :: List(s.lists, SpanBox(id)) == []
  {
    hide List;
    if ids != [] {
      assert ids[0] in ids && forall id | id in ids[1..] :: id in ids;
      FirstOrNone(s, ids[1..]);
      assert forall id | id in ids :: id == ids[0] || id in ids[1..];
    }
  }

  /** The page heap's answer: with a span the thread goes on to carve it, without one `malloc` ends with nothing. */
  lemma SpanArrives(s: State, t: nat, id: nat, page: nat)
    requires Enabled(s, NewSpan(t, id, page))
    ensures var s' := Next(s, NewSpan(t, id, page));
            SameHeld(s, s') && s'.lists == s.lists && s'.threads == s.threads[t := Carve(s.threads[t].c, id)]
    ensures Next(s, NewSpanFails(t)) == Goto(s, t, Idle)
  {
    hide Extract, Deallocate, FlushFrom, Carved, Objects, Sorted, Max, NumMoveSize, List, Move, Relocate, Finish, WithoutCache, SpanPages,
         FirstWithObjects, IndexOf, ReleasedOf, Get, PageOf, RoundUp;
  }

  /** Carving gives nobody anything. */
  lemma CarvedHolds(s: State, t: nat, c: nat, id: nat)
    requires Inv(s) && t in s.threads && s.threads[t] == Carve(c, id) && id in s.spans && s.spans[id].kind == Held(t)
    ensures var s1 := Goto(Carved(s, t, c, id), t, Fetch(c));
            && SameHeld(s, s1) && List(s1.lists, SpanBox(id)) == Objects(s.spans[id], c)
            && s1.threads == s.threads[t := Fetch(c)] && (forall a | a in Objects(s.spans[id], c) :: a in s1.home && s1.home[a] == id)
  {
    hide Boxes, CountInv, BucketInv, CachesInv, ThreadsInv, Objects;
    NewObjects(s, id, c);
    NewPlaces(s, id, c);
  }

  /** A new span is carved, and its first object handed out. */
  lemma CarveServes(s: State, t: nat) returns (a: nat)
    requires Inv(s) && Enabled(s, CarveAndFetch(t))
    ensures var s', c, id := Next(s, CarveAndFetch(t)), s.threads[t].c, s.threads[t].id;
            && Given(s, s', a, c) && s'.threads == s.threads[t := Idle] && InBucket(s'.spans, c, id) && s'.home[a] == id
  {
    hide SpansInv, HomeInv, Boxes, PlacesInv, CountInv, BucketInv, CachesInv, ThreadsInv, Extract, Carved;
    var c, id := s.threads[t].c, s.threads[t].id;
    CarvedInv(s, t, c, id);
    var s1 := Goto(Carved(s, t, c, id), t, Fetch(c));
    CarvedHolds(s, t, c, id);
    ExtractGives(s1, t, c, id);
    a := List(s1.lists, SpanBox(id))[0];
    assert a in List(s1.lists, SpanBox(id));
  }

  /** The new span is in front: as long as objects are left on it, the next fetch of the class takes them. */
  lemma NewSpanIsNext(s: State, t: nat)
    requires Inv(s) && Enabled(s, CarveAndFetch(t))
    ensures var s', c, id := Next(s, CarveAndFetch(t)), s.threads[t].c, s.threads[t].id;
            List(s'.lists, SpanBox(id)) != [] ==> FirstWithObjects(BucketOf(s'.bucket, c), s'.lists) == id
  {
    hide SpansInv, HomeInv, Boxes, PlacesInv, CountInv, BucketInv, CachesInv, ThreadsInv;
    var c, id := s.threads[t].c, s.threads[t].id;
    CarvedInv(s, t, c, id);
    CarvedHolds(s, t, c, id);
  }

  /** The objects that a thread's list of `l` has to give back with one more on it. */
  function Surplus(s: State, t: nat, c: nat, l: seq<nat>): (k: nat)
    requires c < MAX_NFREELISTS
  {
    if |l| >= Max(s.maxSize, CacheBox(t, c)) + NumMoveSize(c) then NumMoveSize(c) else 0
  }

  /** A block given back goes in front of the thread's list of its class. If the list is too long then, its first
      objects, one move of them, are on their way back. */
  lemma DeallocateTakes(s: State, t: nat, a: nat, c: nat)
    requires Inv(s) && t in s.threads && s.threads[t].Idle? && t in s.cached
    requires UserHas(s, a) && InBucket(s.spans, c, s.home[a])
    ensures c < MAX_NFREELISTS && Taken(s, Deallocate(s, t, a, c), a)
    ensures var s', l := Deallocate(s, t, a, c), [a] + List(s.lists, CacheBox(t, c)); var k := Surplus(s, t, c, l);
            && k <= |l| && List(s'.lists, CacheBox(t, c)) == l[k..] && List(s'.lists, RestBox(t)) == l[..k]
            && (k == 0 ==> s'.threads == s.threads)
            && (k > 0 ==> s'.threads == s.threads[t := Lookup(Rel(c, [], 0, 0, false, 0))])
  {
    hide SpansInv, HomeInv, Boxes, PlacesInv, CountInv, BucketInv, CachesInv, ThreadsInv, Relocate, NumMoveSize, Max, Move;
    ClassInRange(s, a, c);
    NothingOnTheWay(s, t);
    var box, l := CacheBox(t, c), [a] + List(s.lists, CacheBox(t, c));
    var s1 := s.(lists := s.lists[box := l], place := s.place[a := In(box)]);
    var n := NumMoveSize(c);
    MoveIsPositive(s, t, c);
    assert List(s1.lists, box) == l && List(s1.lists, RestBox(t)) == [];
    if |l| >= Max(s.maxSize, box) + n {
      MovedLists(s1.lists, box, n, RestBox(t));
      assert l[..n] + [] == l[..n];
      CachedRun(s, t, c, a);
      NobodysRun(s1.place, l, n, RestBox(t));
    }
  }

  lemma ClassInRange(s: State, a: nat, c: nat)
    requires Inv(s) && a in s.place && InBucket(s.spans, c, s.home[a])
    ensures c < MAX_NFREELISTS && a in s.home && HasClass(s, a, c)
  {
  }

  lemma NothingOnTheWay(s: State, t: nat)
    requires Inv(s) && t in s.threads && !Releasing(s.threads[t])
    ensures List(s.lists, RestBox(t)) == []
  {
    NothingInHand(s, t);
  }

  lemma MoveIsPositive(s: State, t: nat, c: nat)
    requires Inv(s) && c < MAX_NFREELISTS
    ensures NumMoveSize(c) > 0
  {
    assert CacheOk(|List(s.lists, CacheBox(t, c))|, Max(s.maxSize, CacheBox(t, c)), c);
  }

  /** No user has an object of a thread's list. */
  lemma CachedRun(s: State, t: nat, c: nat, a: nat)
    requires Inv(s) && a in s.place
    ensures forall x | x in [a] + List(s.lists, CacheBox(t, c)) :: !WithUser(s.place[a := In(CacheBox(t, c))], x)
  {
    forall x | x in List(s.lists, CacheBox(t, c))
      ensures !WithUser(s.place, x)
    {
      InBox(s, CacheBox(t, c), x);
    }
  }

  /** Moving objects that no user has gives nobody anything. */
  lemma NobodysRun(place: map<nat, Where>, l: seq<nat>, n: nat, box: Box)
    requires n <= |l| && forall x | x in l :: !WithUser(place, x)
    ensures forall x :: WithUser(Relocate(place, l[..n], In(box)), x) <==> WithUser(place, x)
  {
    assert forall x | x in l[..n] :: x in l;
  }

  /** `free` takes the block back, whatever thread allocated it. */
  lemma FreeTakes(s: State, t: nat, a: nat)
    requires Inv(s) && Enabled(s, Free(t, a))
    ensures a in s.home && s.home[a] in s.spans && s.spans[s.home[a]].kind.Small? && s.spans[s.home[a]].kind.c < MAX_NFREELISTS
    ensures var s', c := Next(s, Free(t, a)), s.spans[s.home[a]].kind.c;
            var l := [a] + List(s.lists, CacheBox(t, c)); var k := Surplus(s, t, c, l);
            && Taken(s, s', a) && k <= |l|
            && List(s'.lists, CacheBox(t, c)) == l[k..] && List(s'.lists, RestBox(t)) == l[..k]
            && (k == 0 ==> s'.threads == s.threads)
            && (k > 0 ==> s'.threads == s.threads[t := Lookup(Rel(c, [], 0, 0, false, 0))])
  {
    hide Boxes, PlacesInv, CountInv, BucketInv, CachesInv, ThreadsInv, Relocate, NumMoveSize, Deallocate;
    HomeOf(s, a);
    FoundByAddress(s, a);
    NewCache(s, t);
    DeallocateTakes(s.(cached := s.cached + {t}), t, a, s.spans[s.home[a]].kind.c);
  }

  lemma HomeOf(s: State, a: nat)
    requires Inv(s) && a in s.place
    ensures a in s.home
  {
  }

  /** So does a sized `free`; from a thread without a cache the block is on its way to its span. */
  lemma FreeSizedTakes(s: State, t: nat, a: nat, c: nat)
    requires Inv(s) && Enabled(s, FreeSized(t, a, c))
    ensures c < MAX_NFREELISTS && Taken(s, Next(s, FreeSized(t, a, c)), a)
    ensures var s', l := Next(s, FreeSized(t, a, c)), [a] + List(s.lists, CacheBox(t, c)); var k := Surplus(s, t, c, l);
            if t in s.cached then
              && k <= |l| && List(s'.lists, CacheBox(t, c)) == l[k..] && List(s'.lists, RestBox(t)) == l[..k]
              && (k == 0 ==> s'.threads == s.threads)
              && (k > 0 ==> s'.threads == s.threads[t := Lookup(Rel(c, [], 0, 0, false, 0))])
            else
              List(s'.lists, RestBox(t)) == [a] && s'.threads == s.threads[t := Lookup(Rel(c, [], 0, 0, false, 0))]
  {
    hide SpansInv, HomeInv, Boxes, PlacesInv, CountInv, BucketInv, CachesInv, ThreadsInv, Relocate, NumMoveSize, Deallocate;
    ClassInRange(s, a, c);
    if t in s.cached {
      DeallocateTakes(s, t, a, c);
    } else {
      NothingOnTheWay(s, t);
    }
  }

  /** A block freed and asked for again by the same thread is the same block, and everything is as it was, if the
      list has not become too long. */
  lemma FreeThenMalloc(s: State, t: nat, a: nat)
    requires Inv(s) && Enabled(s, Free(t, a))
    ensures a in s.home && s.home[a] in s.spans && s.spans[s.home[a]].kind.Small? && s.spans[s.home[a]].kind.c < MAX_NFREELISTS
    ensures var s', c := Next(s, Free(t, a)), s.spans[s.home[a]].kind.c;
            Surplus(s, t, c, [a] + List(s.lists, CacheBox(t, c))) == 0 ==>
              && Enabled(s', Malloc(t, c))
              && var s2 := Next(s', Malloc(t, c));
                 && s2 == s.(cached := s.cached + {t}, lists := s2.lists)
                 && forall b {:trigger List(s2.lists, b)} :: List(s2.lists, b) == List(s.lists, b)
  {
    hide Boxes, PlacesInv, CountInv, BucketInv, CachesInv, ThreadsInv, Relocate, NumMoveSize;
    HomeOf(s, a);
    FoundByAddress(s, a);
    FreeTakes(s, t, a);
    var c := s.spans[s.home[a]].kind.c;
    MoveIsPositive(s, t, c);
    if Surplus(s, t, c, [a] + List(s.lists, CacheBox(t, c))) == 0 {
      var box, l := CacheBox(t, c), List(s.lists, CacheBox(t, c));
      assert ([a] + l)[1..] == l;
      assert s.place[a := In(box)][a := User] == s.place;
    }
  }

  // ---------------------------------------------------------------- a list on its way back arrives

  /** On the list that thread `t` is giving back, or in one of its batches. */
  predicate OnTheWay(w: Where, t: nat) { w.In? && (w.box.RestBox? || w.box.BatchBox?) && w.box.t == t }

  /** Of an object of span `id`: it stays where it is, or comes nearer to its span. */
  predicate Nearer(w: Where, w': Where, id: nat, t: nat) {
    w' == w || (OnTheWay(w, t) && (OnTheWay(w', t) || w' == In(SpanBox(id))))
  }

  /** What thread `t` does to objects while it gives a list back: those on the way come nearer to their spans,
      those of a span that is idle now cease to be, and nothing else moves. */
  ghost predicate Settles(s: State, s': State, t: nat) {
    && s'.threads.Keys == s.threads.Keys && (forall u | u in s.threads && u != t :: s'.threads[u] == s.threads[u])
    && s'.cached == s.cached && s'.maxSize == s.maxSize
    && (forall a | a in s'.place ::
         && a in s.place && a in s.home && a in s'.home && s'.home[a] == s.home[a]
         && Nearer(s.place[a], s'.place[a], s.home[a], t))
    && (forall a | a in s.place && a !in s'.place :: a in s.home && (OnTheWay(s.place[a], t) || s.place[a] == In(SpanBox(s.home[a]))))
  }

  lemma SettlesTwice(s: State, s1: State, s2: State, t: nat)
    requires Settles(s, s1, t) && Settles(s1, s2, t)
    ensures Settles(s, s2, t)
  {
  }

  /** No user notices. */
  lemma SettlesQuietly(s: State, s': State, t: nat)
    requires Settles(s, s', t)
    ensures SameHeld(s, s')
  {
  }

  lemma StillSettled(s: State, s': State, t: nat)
    requires Inv(s) && s'.place == s.place && s'.home == s.home && s'.cached == s.cached && s'.maxSize == s.maxSize
    requires t in s.threads && t in s'.threads && s'.threads == s.threads[t := s'.threads[t]]
    ensures Settles(s, s', t)
  {
  }

  lemma SortSettles(s: State, t: nat)
    requires Inv(s) && Enabled(s, SortNext(t))
    ensures Settles(s, Next(s, SortNext(t)), t)
  {
    hide SpansInv, HomeInv, CountInv, BucketInv, CachesInv, FirstWithObjects, ReleasedOf, SpanPages, Get, Deallocate,
         FlushFrom, Extract, Carved, RoundUp, AddSpan, Dropped, NewPages, Max, IndexOf, PageOf, HasBatch;
    var rest := List(s.lists, RestBox(t));
    assert PcOk(s.spans, s.cached, s.lists, s.home, t, s.threads[t]);
    assert rest[..1] == [rest[0]] && rest[0] in rest;
    InBox(s, RestBox(t), rest[0]);
  }

  lemma JoinedSettles(s: State, t: nat, rel: Rel, i: nat)
    requires i < |rel.batches| && Flushing(s, t, rel, i)
    requires var b := rel.batches[i]; InBucket(s.spans, rel.c, b.span) && b.count <= s.spans[b.span].kind.useCount
    ensures Settles(s, Joined(s, t, i, rel.batches[i]), t)
  {
    hide SpansInv, CountInv, BucketInv, CachesInv, OthersOk, Move;
    BatchObjects(s, t, i);
  }

  lemma LeftSettles(s: State, t: nat, id: nat)
    requires Boxes(s.lists, s.place) && PlacesInv(s.spans, s.cached, s.threads, s.home, s.place)
    requires id in s.spans && s.spans[id].kind.Small?
    ensures Settles(s, Left(s, t, id), t)
  {
    SpanObjects(s, id);
  }

  lemma FlushOneSettles(s: State, t: nat, rel: Rel, i: nat)
    requires i < |rel.batches| && Flushing(s, t, rel, i)
    ensures Settles(s, FlushOne(s, t, i, rel.batches[i]), t)
  {
    hide SpansInv, HomeInv, Boxes, PlacesInv, CountInv, BucketInv, CachesInv, OthersOk, Settles, Left, Joined, FlushOne;
    var b := rel.batches[i];
    BatchWasOut(s, t, rel, i);
    FlushOneIs(s, t, i, b);
    JoinedInv(s, t, rel, i);
    JoinedSettles(s, t, rel, i);
    var s1 := Joined(s, t, i, b);
    JoinedSpan(s, t, i, b);
    if s1.spans[b.span].kind.useCount == 0 {
      LeftSettles(s1, t, b.span);
      SettlesTwice(s, s1, Left(s1, t, b.span), t);
    }
  }

  lemma JoinedSpan(s: State, t: nat, i: nat, b: Batch)
    requires b.span in s.spans && s.spans[b.span].kind.Small? && b.count <= s.spans[b.span].kind.useCount
    ensures var s1, k := Joined(s, t, i, b), s.spans[b.span].kind;
            s1.spans == s.spans[b.span := s.spans[b.span].(kind := Small(k.c, k.useCount - b.count))]
  {
  }

  lemma {:induction false} FlushFromSettles(s: State, t: nat, rel: Rel, i: nat)
    requires i <= |rel.batches| && Flushing(s, t, rel, i)
    ensures Settles(s, FlushFrom(s, t, rel.batches, i), t)
    decreases |rel.batches| - i
  {
    hide SpansInv, HomeInv, Boxes, PlacesInv, CountInv, BucketInv, CachesInv, OthersOk, BatchesLeft, Settles, FlushOne;
    if i < |rel.batches| {
      FlushOneInv(s, t, rel, i);
      FlushOneSettles(s, t, rel, i);
      var s1 := FlushOne(s, t, i, rel.batches[i]);
      FlushFromSettles(s1, t, rel, i + 1);
      SettlesTwice(s, s1, FlushFrom(s, t, rel.batches, i), t);
    } else {
      FlushingStill(s, t, rel);
    }
  }

  lemma FlushingStill(s: State, t: nat, rel: Rel)
    requires Flushing(s, t, rel, |rel.batches|)
    ensures Settles(s, s, t)
  {
  }

  /** The one step that a thread in the middle of giving a list back can take. */
  function OwnStep(s: State, t: nat): Event
    requires t in s.threads
  {
    if NeedsFlush(s, t) then Flush(t)
    else
      match s.threads[t]
      case Lookup(_) => LookupNext(t)
      case Sort(_) => SortNext(t)
      case Return(_, _) => ReturnNext(t)
      case _ => ExitNext(t)
  }

  lemma OwnStepEnabled(s: State, t: nat)
    requires t in s.threads && (Releasing(s.threads[t]) || s.threads[t].Exiting?)
    ensures Enabled(s, OwnStep(s, t))
  {
  }

  /** How near the end of a turn of the loop it is. */
  function Phase(pc: Pc): nat {
    match pc
    case Lookup(_) => 3
    case Sort(rel) => if rel.batches != [] then 2 else 0
    case Return(_, _) => 1
    case _ => 0
  }

  function Queued(pc: Pc): nat { if pc.Return? then |pc.released| else 0 }

  /** What a step of a thread that is giving a list back does: objects come nearer to their spans, and the thread
      goes on with less to do, or is done. */
  ghost predicate GoesOn(s: State, s': State, t: nat)
    requires t in s.threads && Releasing(s.threads[t])
  {
    && t in s'.threads && Settles(s, s', t)
    && if Releasing(s'.threads[t]) then
         var pc, pc' := s.threads[t], s'.threads[t];
         var n, n' := |List(s.lists, RestBox(t))|, |List(s'.lists, RestBox(t))|;
         && pc'.rel.exiting == pc.rel.exiting && pc'.rel.next == pc.rel.next
         && (n' < n || (n' == n && (Phase(pc') < Phase(pc) || (Phase(pc') == Phase(pc) && Queued(pc') < Queued(pc)))))
       else s'.threads[t] == Finish(s.threads[t].rel)
  }

  lemma LookupStepIs(s: State, t: nat)
    requires Enabled(s, LookupNext(t))
    ensures var s', rel := Next(s, LookupNext(t)), s.threads[t].rel;
            && t in s'.threads && s' == s.(threads := s.threads[t := s'.threads[t]])
            && if List(s.lists, RestBox(t)) == [] then s'.threads[t] == Finish(rel)
               else s'.threads[t].Sort? && s'.threads[t].rel == rel.(lastId := s'.threads[t].rel.lastId, lastSpan := s'.threads[t].rel.lastSpan)
  {
    hide Extract, Deallocate, FlushFrom, Carved, Objects, Sorted, Max, NumMoveSize, List, Move, Relocate, AddSpan,
         WithoutCache, InSpan, RoundUp, Finish, FirstWithObjects, IndexOf, ReleasedOf, SpanPages, Dropped, NewPages;
    var rel, rest, s' := s.threads[t].rel, List(s.lists, RestBox(t)), Next(s, LookupNext(t));
    if rest == [] {
      assert s' == Goto(s, t, Finish(rel));
    } else {
      assert s'.threads[t].Sort? && s' == Goto(s, t, s'.threads[t]);
    }
  }

  lemma LookupGoesOn(s: State, t: nat)
    requires Inv(s) && Enabled(s, LookupNext(t))
    ensures GoesOn(s, Next(s, LookupNext(t)), t)
  {
    hide SpansInv, HomeInv, Boxes, PlacesInv, CountInv, BucketInv, CachesInv, ThreadsInv, Settles, Next;
    LookupStepIs(s, t);
    StillSettled(s, Next(s, LookupNext(t)), t);
  }

  lemma SortGoesOn(s: State, t: nat)
    requires Inv(s) && Enabled(s, SortNext(t))
    ensures GoesOn(s, Next(s, SortNext(t)), t)
  {
    hide SpansInv, HomeInv, Boxes, PlacesInv, CountInv, BucketInv, CachesInv, Settles, Relocate;
    SortSettles(s, t);
    assert PcOk(s.spans, s.cached, s.lists, s.home, t, s.threads[t]);
    MovedLists(s.lists, RestBox(t), 1, BatchBox(t, IndexOf(s.threads[t].rel.batches, s.threads[t].rel.lastSpan)));
  }

  lemma FlushGoesOn(s: State, t: nat)
    requires Inv(s) && Enabled(s, Flush(t))
    ensures GoesOn(s, Next(s, Flush(t)), t)
  {
    hide SpansInv, HomeInv, Boxes, PlacesInv, CountInv, BucketInv, CachesInv, OthersOk, FlushFrom, ReleasedOf;
    StartFlushing(s, t);
    var rel := s.threads[t].rel;
    FlushFromSettles(s, t, rel, 0);
    FlushFromInv(s, t, rel, 0);
  }

  lemma ReturnGoesOn(s: State, t: nat)
    requires Inv(s) && Enabled(s, ReturnNext(t))
    ensures GoesOn(s, Next(s, ReturnNext(t)), t)
  {
    hide SpansInv, HomeInv, Boxes, PlacesInv, CountInv, BucketInv, CachesInv, ThreadsInv, Settles, Next;
    ReturnStepIs(s, t);
    StillSettled(s, Next(s, ReturnNext(t)), t);
  }

  lemma ReturnNextIs(s: State, t: nat)
    requires Enabled(s, ReturnNext(t))
    ensures t in s.threads && s.threads[t].Return?
    ensures var rel, released := s.threads[t].rel, s.threads[t].released;
            Next(s, ReturnNext(t))
            == if released == [] then Goto(s, t, if List(s.lists, RestBox(t)) == [] then Finish(rel) else Sort(rel))
               else Goto(s, t, Return(rel, released[1..])).(spans := s.spans - {released[0]})
  {
    hide Extract, Deallocate, FlushFrom, Carved, Objects, Sorted, Max, NumMoveSize, List, Move, Relocate, AddSpan, WithoutCache,
         InSpan, RoundUp, FirstWithObjects, IndexOf, ReleasedOf, SpanPages, Get, PageOf, Dropped, NewPages, Finish;
  }

  lemma ReturnStepIs(s: State, t: nat)
    requires Inv(s) && Enabled(s, ReturnNext(t))
    ensures var s', rel, released := Next(s, ReturnNext(t)), s.threads[t].rel, s.threads[t].released;
            && s'.place == s.place && s'.home == s.home && s'.cached == s.cached && s'.maxSize == s.maxSize && s'.lists == s.lists
            && rel.batches == []
            && s'.threads == s.threads[t := if released != [] then Return(rel, released[1..])
                                            else if List(s.lists, RestBox(t)) == [] then Finish(rel) else Sort(rel)]
  {
    hide SpansInv, HomeInv, Boxes, PlacesInv, CountInv, BucketInv, CachesInv, Next, Enabled, List, Finish, InSpan;
    ReturnNextIs(s, t);
    assert PcOk(s.spans, s.cached, s.lists, s.home, t, s.threads[t]);
  }

  lemma OwnStepGoesOn(s: State, t: nat)
    requires Inv(s) && t in s.threads && Releasing(s.threads[t])
    ensures Enabled(s, OwnStep(s, t)) && GoesOn(s, Next(s, OwnStep(s, t)), t)
  {
    hide Next, GoesOn, Inv;
    OwnStepEnabled(s, t);
    match OwnStep(s, t)
    case LookupNext(_) => LookupGoesOn(s, t);
    case SortNext(_) => SortGoesOn(s, t);
    case Flush(_) => FlushGoesOn(s, t);
    case ReturnNext(_) => ReturnGoesOn(s, t);
  }

  /** `n` steps of a thread that is giving objects back and that nobody disturbs. */
  ghost function Releases(s: State, t: nat, n: nat): State
    decreases n
  {
    if n == 0 || t !in s.threads || !Enabled(s, OwnStep(s, t)) then s else Releases(Next(s, OwnStep(s, t)), t, n - 1)
  }

  lemma ReleasesTwice(s: State, t: nat, m: nat, n: nat)
    ensures Releases(s, t, m + n) == Releases(Releases(s, t, m), t, n)
    decreases m
  {
    hide Next, Enabled;
    if m > 0 && t in s.threads && Enabled(s, OwnStep(s, t)) {
      ReleasesTwice(Next(s, OwnStep(s, t)), t, m - 1, n);
    }
  }

  lemma ReleasesOnce(s: State, t: nat)
    requires t in s.threads && Enabled(s, OwnStep(s, t))
    ensures Releases(s, t, 1) == Next(s, OwnStep(s, t))
  {
    hide Next, Enabled;
    assert Releases(Next(s, OwnStep(s, t)), t, 0) == Next(s, OwnStep(s, t));
  }

  /** A thread that gives a list back and is not disturbed comes to an end; all that was on the way is on its own
      span's list then, or was in a span that went back to the page heap; and nothing else has moved. */
  lemma {:induction false} ReleaseEnds(s: State, t: nat) returns (n: nat)
    requires Inv(s) && t in s.threads && Releasing(s.threads[t])
    ensures var s' := Releases(s, t, n);
            && Inv(s') && Settles(s, s', t) && s'.threads == s.threads[t := Finish(s.threads[t].rel)]
            && forall a | a in s'.place :: !OnTheWay(s'.place[a], t)
    decreases |List(s.lists, RestBox(t))|, Phase(s.threads[t]), Queued(s.threads[t])
  {
    hide Inv, Next, Enabled, Releases, OwnStep, Settles;
    OwnStepGoesOn(s, t);
    NextInv(s, OwnStep(s, t));
    ReleasesOnce(s, t);
    var s1 := Next(s, OwnStep(s, t));
    if Releasing(s1.threads[t]) {
      var m := ReleaseEnds(s1, t);
      n := 1 + m;
      ReleasesTwice(s, t, 1, m);
      SettlesTwice(s, s1, Releases(s1, t, m), t);
      OthersRest(s, s1, t);
    } else {
      n := 1;
      OthersRest(s, s1, t);
      NothingOfIts(s1, t);
    }
  }

  lemma OthersRest(s: State, s': State, t: nat)
    requires Settles(s, s', t) && t in s.threads
    ensures t in s'.threads && s'.threads == s.threads[t := s'.threads[t]]
  {
  }

  lemma NothingOfIts(s: State, t: nat)
    requires Inv(s) && t in s.threads && !Releasing(s.threads[t])
    ensures forall a | a in s.place :: !OnTheWay(s.place[a], t)
  {
    forall a | a in s.place
      ensures !OnTheWay(s.place[a], t)
    {
      assert WhereOk(s.spans, s.cached, s.threads, s.home[a], s.place[a]);
    }
  }

  /** Block `a` is on its own span's list, or its span went back to the page heap. */
  predicate IsHome(s: State, s': State, a: nat)
    requires a in s.home
  {
    a in s'.place ==> s'.place[a] == In(SpanBox(s.home[a]))
  }

  lemma ComesHome(s: State, s': State, t: nat)
    requires Inv(s) && Settles(s, s', t) && forall a | a in s'.place :: !OnTheWay(s'.place[a], t)
    ensures forall a | a in s.place && OnTheWay(s.place[a], t) :: a in s.home && IsHome(s, s', a)
  {
    hide SpansInv, HomeInv, Boxes, CountInv, BucketInv, CachesInv, ThreadsInv;
  }

  // ---------------------------------------------------------------- a thread that exits

  /** A thread that exits and is not disturbed gives back all its lists, class by class. */
  lemma {:induction false} ExitEnds(s: State, t: nat) returns (n: nat)
    requires Inv(s) && t in s.threads && s.threads[t].Exiting?
    ensures var s' := Releases(s, t, n);
            && Inv(s') && SameHeld(s, s') && s'.threads == s.threads[t := Idle] && s'.cached == s.cached - {t}
    decreases MAX_NFREELISTS - s.threads[t].c
  {
    hide Inv, Next, Enabled, Releases, OwnStep, Settles;
    ExitStepIs(s, t);
    NextInv(s, ExitNext(t));
    ReleasesOnce(s, t);
    var s1 := Next(s, ExitNext(t));
    n := 1;
    if s1.threads[t].Exiting? {
      var m := ExitEnds(s1, t);
      n := 1 + m;
      ReleasesTwice(s, t, 1, m);
    } else if Releasing(s1.threads[t]) {
      var m := ReleaseEnds(s1, t);
      var s2 := Releases(s1, t, m);
      SettlesQuietly(s1, s2, t);
      SameCached(s1, s2, t);
      var k := ExitEnds(s2, t);
      n := 1 + (m + k);
      ReleasesTwice(s, t, 1, m + k);
      ReleasesTwice(s1, t, m, k);
    }
  }

  /** From the thread's end on: no list of its holds anything when it is done, and users hold what they held. */
  lemma ThreadExits(s: State, t: nat) returns (n: nat)
    requires Inv(s) && Enabled(s, Exit(t))
    ensures var s' := Releases(Next(s, Exit(t)), t, n);
            && Inv(s') && SameHeld(s, s') && s'.threads == s.threads && s'.cached == s.cached - {t}
            && forall b: Box {:trigger List(s'.lists, b)} | !b.SpanBox? && b.t == t :: List(s'.lists, b) == []
  {
    hide Inv, Next, Enabled, Releases, WithUser;
    ExitBegins(s, t);
    NextInv(s, Exit(t));
    var s1 := Next(s, Exit(t));
    n := ExitEnds(s1, t);
    assert s.threads[t := Exiting(0)][t := Idle] == s.threads;
    NothingLeftBehind(Releases(s1, t, n), t);
  }

  lemma ExitBegins(s: State, t: nat)
    requires Enabled(s, Exit(t))
    ensures IsIdle(s, t) && Next(s, Exit(t)) == Goto(s, t, Exiting(0))
  {
    hide Extract, Deallocate, FlushFrom, Carved, Objects, Sorted, Max, NumMoveSize, List, Move, Relocate, Finish, WithoutCache, SpanPages,
         FirstWithObjects, IndexOf, ReleasedOf, Get, PageOf, RoundUp;
  }

  lemma SameCached(s: State, s': State, t: nat)
    requires Settles(s, s', t)
    ensures s'.cached == s.cached
  {
  }

  /** The next class, whose list goes on its way back if there is something on it, or the end. */
  lemma ExitStepIs(s: State, t: nat)
    requires Inv(s) && t in s.threads && s.threads[t].Exiting?
    ensures OwnStep(s, t) == ExitNext(t) && Enabled(s, ExitNext(t))
    ensures SameHeld(s, Next(s, ExitNext(t)))
    ensures var s', c := Next(s, ExitNext(t)), s.threads[t].c;
            if c >= MAX_NFREELISTS then s'.threads == s.threads[t := Idle] && s'.cached == s.cached - {t}
            else
              && s'.cached == s.cached
              && s'.threads == s.threads[t := if List(s.lists, CacheBox(t, c)) == [] then Exiting(c + 1)
                                              else Lookup(Rel(c, [], 0, 0, true, c + 1))]
  {
    hide Next, Inv, SameHeld;
    ExitHeld(s, t);
    ExitThreads(s, t);
  }

  lemma ExitHeld(s: State, t: nat)
    requires Inv(s) && t in s.threads && s.threads[t].Exiting?
    ensures SameHeld(s, Next(s, ExitNext(t)))
  {
    hide SpansInv, HomeInv, PlacesInv, CountInv, BucketInv, CachesInv, ThreadsInv, Extract, Deallocate, FlushFrom, Carved,
         Objects, Sorted, Max, NumMoveSize, List, Move, Relocate, AddSpan, WithoutCache, InSpan, RoundUp, FirstWithObjects,
         IndexOf, ReleasedOf, SpanPages, Get, PageOf, Dropped, NewPages;
    var l := List(s.lists, CacheBox(t, s.threads[t].c));
    assert l[..|l|] == l;
    NobodysList(s, CacheBox(t, s.threads[t].c), RestBox(t));
  }

  lemma ExitThreads(s: State, t: nat)
    requires t in s.threads && s.threads[t].Exiting?
    ensures var s', c := Next(s, ExitNext(t)), s.threads[t].c;
            if c >= MAX_NFREELISTS then s'.threads == s.threads[t := Idle] && s'.cached == s.cached - {t}
            else
              && s'.cached == s.cached
              && s'.threads == s.threads[t := if List(s.lists, CacheBox(t, c)) == [] then Exiting(c + 1)
                                              else Lookup(Rel(c, [], 0, 0, true, c + 1))]
  {
    hide Extract, Deallocate, FlushFrom, Carved,
         Objects, Sorted, Max, NumMoveSize, List, Move, Relocate, AddSpan, WithoutCache, InSpan, RoundUp, FirstWithObjects,
         IndexOf, ReleasedOf, SpanPages, Get, PageOf, Dropped, NewPages;
  }

  lemma NobodysList(s: State, b: Box, to: Box)
    requires Boxes(s.lists, s.place)
    ensures forall x :: WithUser(Relocate(s.place, List(s.lists, b), In(to)), x) <==> WithUser(s.place, x)
  {
    forall x | x in List(s.lists, b)
      ensures !WithUser(s.place, x)
    {
      InBox(s, b, x);
    }
  }

  /** After its exit nothing of the thread's is left: no object is on a list of its, or on the way. */
  lemma NothingLeftBehind(s: State, t: nat)
    requires Inv(s) && t in s.threads && s.threads[t].Idle? && t !in s.cached
    ensures forall b: Box {:trigger List(s.lists, b)} | !b.SpanBox? && b.t == t :: List(s.lists, b) == []
  {
    forall b: Box | !b.SpanBox? && b.t == t
      ensures List(s.lists, b) == []
    {
      forall a | a in s.place
        ensures s.place[a] != In(b)
      {
        assert WhereOk(s.spans, s.cached, s.threads, s.home[a], s.place[a]);
      }
      EmptyBox(s.lists, s.place, b);
    }
  }

  // ---------------------------------------------------------------- large blocks

  /** A large `malloc` gives the user exactly one block, of its own pages. */
  lemma MallocLargeGives(s: State, id: nat, page: nat, size: nat)
    requires Inv(s) && Enabled(s, MallocLarge(id, page, size))
    ensures RoundUp(size) >= size
    ensures var s' := Next(s, MallocLarge(id, page, size));
            && SameHeld(s, s')
            && forall a, z, x :: HeldByUser(s', a, z, x) <==> HeldByUser(s, a, z, x) || (x == id && a == page * PAGE_SIZE && z == RoundUp(size))
  {
    hide SpansInv, Boxes, PlacesInv, CountInv, BucketInv, CachesInv, ThreadsInv;
    LargeRoundUp(size);
    var s' := Next(s, MallocLarge(id, page, size));
    forall a, z, x
      ensures HeldByUser(s', a, z, x) <==> HeldByUser(s, a, z, x) || (x == id && a == page * PAGE_SIZE && z == RoundUp(size))
    {
      WholePages(size);
    }
  }

  lemma WholePages(size: nat)
    requires MAX_BYTES < size <= WORD - PAGE_SIZE
    ensures RoundUp(size) / PAGE_SIZE > 0 && RoundUp(size) / PAGE_SIZE * PAGE_SIZE == RoundUp(size)
  {
    LargeRoundUp(size);
  }

  /** A large `free` takes exactly that block back. */
  lemma FreeLargeTakes(s: State, id: nat)
    requires Inv(s) && Enabled(s, FreeLarge(id))
    ensures var s' := Next(s, FreeLarge(id));
            SameHeld(s, s') && forall a, z, x :: HeldByUser(s', a, z, x) <==> HeldByUser(s, a, z, x) && x != id
  {
    hide SpansInv, Boxes, PlacesInv, CountInv, BucketInv, CachesInv, ThreadsInv;
  }

  // ---------------------------------------------------------------- no idle span is kept

  /** A span that thread `u` is to give back to the page heap is in its queue. */
  predicate InQueue(threads: map<nat, Pc>, id: nat, u: nat) { u in threads && threads[u].Return? && id in threads[u].released }

  predicate Busy(sp: Span) { sp.kind.Small? ==> sp.kind.useCount > 0 }

  /** Every span of the central cache has an object out, and one that has none any more is on its way to the page
      heap. */
  ghost predicate NoneIdle(s: State) {
    && (forall id | id in s.spans :: Busy(s.spans[id]))
    && (forall id {:trigger s.spans[id].kind.Returning?} | id in s.spans && s.spans[id].kind.Returning? :: InQueue(s.threads, id, s.spans[id].kind.t))
  }

  /** A step of thread `t` that leaves the spans as they are, or has taken objects off one. */
  lemma QuietKeepsBusy(s: State, s': State, t: nat)
    requires NoneIdle(s) && t in s.threads && !s.threads[t].Return?
    requires forall u | u in s.threads && u != t :: u in s'.threads && s'.threads[u] == s.threads[u]
    requires forall id | id in s'.spans ::
               Busy(s'.spans[id]) && (s'.spans[id].kind.Returning? ==> id in s.spans && s.spans[id] == s'.spans[id])
    ensures NoneIdle(s')
  {
  }

  /** The events in which a thread does something for itself. */
  predicate Plain(e: Event) {
    e.Malloc? || e.NewSpanFails? || e.Free? || e.FreeSized? || e.LookupNext? || e.SortNext? || e.Exit? || e.ExitNext?
  }

  lemma PlainKeepsBusy(s: State, e: Event)
    requires Inv(s) && NoneIdle(s) && Enabled(s, e) && Plain(e)
    ensures NoneIdle(Next(s, e))
  {
    hide Inv, NoneIdle, Next;
    PlainSpans(s, e);
    PlainThreads(s, e);
    BusySpans(s);
    QuietKeepsBusy(s, Next(s, e), e.t);
  }

  lemma BusySpans(s: State)
    requires NoneIdle(s)
    ensures forall id | id in s.spans :: Busy(s.spans[id])
  {
  }

  lemma PlainSpans(s: State, e: Event)
    requires Enabled(s, e) && Plain(e)
    ensures Next(s, e).spans == s.spans
  {
    hide Next, Enabled;
    match e {
      case Malloc(t, c) => MallocStep(s, t, c);
      case NewSpanFails(t) => FailStep(s, t);
      case Free(t, a) => FreeSpans(s, t, a);
      case FreeSized(t, a, c) => FreeSizedSpans(s, t, a, c);
      case LookupNext(t) => LookupStep(s, t);
      case SortNext(t) => SortNextStep(s, t);
      case Exit(t) => ExitStep(s, t);
      case ExitNext(t) => ExitNextStep(s, t);
    }
  }

  lemma FreeSpans(s: State, t: nat, a: nat)
    requires Enabled(s, Free(t, a))
    ensures Next(s, Free(t, a)).spans == s.spans
  {
    hide Extract, FlushFrom, Carved, Objects, Sorted, Max, NumMoveSize, List, Move, Relocate, Finish, AddSpan, WithoutCache;
  }

  lemma FreeSizedSpans(s: State, t: nat, a: nat, c: nat)
    requires Enabled(s, FreeSized(t, a, c))
    ensures Next(s, FreeSized(t, a, c)).spans == s.spans
  {
    hide Extract, FlushFrom, Carved, Objects, Sorted, Max, NumMoveSize, List, Move, Relocate, Finish, AddSpan, WithoutCache;
  }

  /** No other thread notices. */
  ghost predicate OnlyOwn(s: State, s': State, t: nat) {
    && t in s.threads && !s.threads[t].Return?
    && forall u | u in s.threads && u != t :: u in s'.threads && s'.threads[u] == s.threads[u]
  }

  lemma FreeIsOwn(s: State, e: Event)
    requires Enabled(s, e) && (e.Free? || e.FreeSized?)
    ensures OnlyOwn(s, Next(s, e), e.t)
  {
    hide Extract, FlushFrom, Carved, Objects, Sorted, Max, NumMoveSize, List, Move, Relocate, Finish, AddSpan, WithoutCache,
         FirstWithObjects, IndexOf, ReleasedOf, SpanPages, RoundUp, Dropped, NewPages;
  }

  lemma ListIsOwn(s: State, e: Event)
    requires Enabled(s, e) && (e.LookupNext? || e.SortNext?)
    ensures OnlyOwn(s, Next(s, e), e.t)
  {
    hide Extract, FlushFrom, Carved, Objects, Sorted, Max, NumMoveSize, List, Move, Relocate, Finish, AddSpan, WithoutCache;
  }

  lemma ExitIsOwn(s: State, e: Event)
    requires Enabled(s, e) && (e.Exit? || e.ExitNext?)
    ensures OnlyOwn(s, Next(s, e), e.t)
  {
    hide Extract, FlushFrom, Carved, Objects, Sorted, Max, NumMoveSize, List, Move, Relocate, Finish, AddSpan, WithoutCache,
         FirstWithObjects, IndexOf, ReleasedOf, SpanPages, Get, PageOf, Deallocate, RoundUp, Dropped, NewPages;
  }

  lemma MallocIsOwn(s: State, e: Event)
    requires Enabled(s, e) && (e.Malloc? || e.NewSpanFails?)
    ensures OnlyOwn(s, Next(s, e), e.t)
  {
    hide Extract, FlushFrom, Carved, Objects, Sorted, Max, NumMoveSize, List, Move, Relocate, Finish, AddSpan, WithoutCache;
  }

  lemma PlainThreads(s: State, e: Event)
    requires Enabled(s, e) && Plain(e)
    ensures OnlyOwn(s, Next(s, e), e.t)
  {
    hide Next, Enabled, OnlyOwn;
    if e.Free? || e.FreeSized? {
      FreeIsOwn(s, e);
    } else if e.LookupNext? || e.SortNext? {
      ListIsOwn(s, e);
    } else if e.Exit? || e.ExitNext? {
      ExitIsOwn(s, e);
    } else {
      MallocIsOwn(s, e);
    }
  }

  lemma FetchKeepsBusy(s: State, t: nat)
    requires Inv(s) && NoneIdle(s) && Enabled(s, FetchCached(t))
    ensures NoneIdle(Next(s, FetchCached(t)))
  {
    hide SpansInv, HomeInv, Boxes, PlacesInv, CountInv, CachesInv, Extract, NoneIdle;
    var c := s.threads[t].c;
    assert PcOk(s.spans, s.cached, s.lists, s.home, t, s.threads[t]);
    var id := FirstWithObjects(BucketOf(s.bucket, c), s.lists);
    BusySpans(s);
    if id != 0 {
      assert id in BucketOf(s.bucket, c) <==> InBucket(s.spans, c, id);
      ExtractLengths(s, t, c, id);
      ExtractSplits(s, t, c, id);
    }
    QuietKeepsBusy(s, Next(s, FetchCached(t)), t);
  }

  lemma CarveKeepsBusy(s: State, t: nat)
    requires Inv(s) && NoneIdle(s) && Enabled(s, CarveAndFetch(t))
    ensures NoneIdle(Next(s, CarveAndFetch(t)))
  {
    hide SpansInv, HomeInv, Boxes, PlacesInv, CountInv, BucketInv, CachesInv, ThreadsInv, Extract, NoneIdle, Objects,
         FirstWithObjects, IndexOf, ReleasedOf, SpanPages, Get, PageOf, FlushFrom, RoundUp, AddSpan, Dropped, NewPages;
    var c, id := s.threads[t].c, s.threads[t].id;
    CarvedInv(s, t, c, id);
    var s1 := Goto(Carved(s, t, c, id), t, Fetch(c));
    ExtractLengths(s1, t, c, id);
    ExtractSplits(s1, t, c, id);
    BusySpans(s);
    QuietKeepsBusy(s, Next(s, CarveAndFetch(t)), t);
  }

  lemma SpanKeepsBusy(s: State, e: Event)
    requires NoneIdle(s) && Enabled(s, e) && (e.NewSpan? || e.MallocLarge? || e.FreeLarge? || e.OtherPages?)
    ensures NoneIdle(Next(s, e))
  {
    hide Extract, Deallocate, FlushFrom, Carved, Objects, Sorted, Max, NumMoveSize, List, Move, Relocate, Finish, WithoutCache, SpanPages, RoundUp;
  }

  lemma ReturnKeepsBusy(s: State, t: nat)
    requires Inv(s) && NoneIdle(s) && Enabled(s, ReturnNext(t))
    ensures NoneIdle(Next(s, ReturnNext(t)))
  {
    hide Inv, Next, Enabled, List, Finish;
    ReturnNextIs(s, t);
    var released := s.threads[t].released;
    assert released != [] ==> released == [released[0]] + released[1..];
  }

  /** While thread `t` flushes: spans it has found idle are among the batches done so far. */
  ghost predicate FlushedSoFar(s: State, t: nat, rel: Rel, i: nat)
    requires i <= |rel.batches|
  {
    && (forall id | id in s.spans :: Busy(s.spans[id]))
    && (forall id {:trigger s.spans[id].kind.Returning?} | id in s.spans && s.spans[id].kind.Returning? ::
         if s.spans[id].kind.t == t then OneOf(rel.batches, i, id) else InQueue(s.threads, id, s.spans[id].kind.t))
  }

  ghost predicate OneOf(batches: seq<Batch>, i: nat, id: nat)
    requires i <= |batches|
  {
    exists j: nat :: j < i && batches[j].span == id
  }

  lemma FlushOneSoFar(s: State, t: nat, rel: Rel, i: nat)
    requires i < |rel.batches| && Flushing(s, t, rel, i) && FlushedSoFar(s, t, rel, i)
    ensures FlushedSoFar(FlushOne(s, t, i, rel.batches[i]), t, rel, i + 1)
  {
    hide SpansInv, HomeInv, Boxes, PlacesInv, CountInv, BucketInv, CachesInv, OthersOk, BatchesLeft, OneOf, Move, Relocate;
    var b := rel.batches[i];
    BatchWasOut(s, t, rel, i);
    OneMore(rel.batches, i);
  }

  lemma OneMore(batches: seq<Batch>, i: nat)
    requires i < |batches|
    ensures OneOf(batches, i + 1, batches[i].span) && forall id | OneOf(batches, i, id) :: OneOf(batches, i + 1, id)
  {
    forall id | OneOf(batches, i, id)
      ensures OneOf(batches, i + 1, id)
    {
      var j: nat :| j < i && batches[j].span == id;
      assert j < i + 1;
    }
  }

  lemma {:induction false} FlushFromSoFar(s: State, t: nat, rel: Rel, i: nat)
    requires i <= |rel.batches| && Flushing(s, t, rel, i) && FlushedSoFar(s, t, rel, i)
    ensures FlushedSoFar(FlushFrom(s, t, rel.batches, i), t, rel, |rel.batches|)
    decreases |rel.batches| - i
  {
    hide Flushing, FlushedSoFar, FlushOne;
    if i < |rel.batches| {
      FlushOneInv(s, t, rel, i);
      FlushOneSoFar(s, t, rel, i);
      FlushFromSoFar(FlushOne(s, t, i, rel.batches[i]), t, rel, i + 1);
    }
  }

  lemma {:induction false} ReleasedAll(spans: map<nat, Span>, t: nat, batches: seq<Batch>, id: nat)
    requires OneOf(batches, |batches|, id) && id in spans && spans[id].kind == Returning(t)
    ensures id in ReleasedOf(spans, t, batches)
  {
    var j: nat :| j < |batches| && batches[j].span == id;
    if j > 0 {
      assert batches[1..][j - 1].span == id;
      ReleasedAll(spans, t, batches[1..], id);
    }
  }

  /** After a flush no span of the central cache is without an object out, and each span that the flush found so
      is in the thread's queue. */
  lemma FlushKeepsBusy(s: State, t: nat)
    requires Inv(s) && NoneIdle(s) && Enabled(s, Flush(t))
    ensures NoneIdle(Next(s, Flush(t)))
  {
    hide SpansInv, HomeInv, Boxes, PlacesInv, CountInv, BucketInv, CachesInv, OthersOk, BatchesLeft, FlushFrom, ReleasedOf, OneOf;
    StartFlushing(s, t);
    var rel := s.threads[t].rel;
    NoneReturnedYet(s, t);
    FlushFromSoFar(s, t, rel, 0);
    FlushFromInv(s, t, rel, 0);
    var s1 := FlushFrom(s, t, rel.batches, 0);
    forall id | id in s1.spans && s1.spans[id].kind == Returning(t)
      ensures id in ReleasedOf(s1.spans, t, rel.batches)
    {
      assert s1.spans[id].kind.Returning?;
      ReleasedAll(s1.spans, t, rel.batches, id);
    }
  }

  lemma NoneReturnedYet(s: State, t: nat)
    requires NoneIdle(s) && t in s.threads && Releasing(s.threads[t]) && !s.threads[t].Return?
    ensures FlushedSoFar(s, t, s.threads[t].rel, 0)
  {
  }

  lemma StepKeepsBusy(s: State, e: Event)
    requires Inv(s) && NoneIdle(s) && Enabled(s, e)
    ensures NoneIdle(Next(s, e))
  {
    hide Inv, NoneIdle, Next, Enabled;
    match e
    case FetchCached(t) => FetchKeepsBusy(s, t);
    case CarveAndFetch(t) => CarveKeepsBusy(s, t);
    case Flush(t) => FlushKeepsBusy(s, t);
    case ReturnNext(t) => ReturnKeepsBusy(s, t);
    case _ =>
      if Plain(e) {
        PlainKeepsBusy(s, e);
      } else {
        SpanKeepsBusy(s, e);
      }
  }

  /** In every run a span of the central cache has an object out, and one whose last object came home is in the
      queue of the thread that brought it. */
  lemma {:induction false} NoSpanIsKeptIdle(run: seq<State>, events: seq<Event>, k: nat)
    requires IsRun(run, events) && k < |run|
    ensures NoneIdle(run[k])
  {
    hide Inv, NoneIdle, Next, Enabled;
    if k == 0 {
      InitBusy(run[0]);
    } else {
      RunInv(run, events, k - 1);
      NoSpanIsKeptIdle(run, events, k - 1);
      StepKeepsBusy(run[k - 1], events[k - 1]);
    }
  }

  lemma InitBusy(s: State)
    requires Init(s)
    ensures NoneIdle(s)
  {
  }
}
