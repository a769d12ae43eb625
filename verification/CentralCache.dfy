/** `FetchRangeObj` and `ReleaseListToSpans` of KzAlloc/CentralCache.cpp as they work on one bucket's spans
    and on the links in free memory, in place. `ReleaseListToSpans` sorts a list into at most 16
    batches, puts batches back under the lock whenever it runs out of them, and remembers the last
    lookup; it is proved to do what giving back one object at a time does. */
module CentralCache {
  import opened Common
  import opened Lists
  import opened FreeList
  import opened Allocator

  // ---------------------------------------------------------------- one object at a time

  /** A span as far as giving objects back goes: its free list is a set here. */
  datatype Account = Account(useCount: nat, free: set<nat>, listed: bool, released: bool)

  /** Some objects of a span go back together; it leaves its bucket for the page heap with the last. */
  function Give(s: Account, xs: set<nat>): Account
    requires |xs| <= s.useCount
  {
    if xs == {} then s
    else if s.useCount == |xs| then Account(0, {}, false, true)
    else Account(s.useCount - |xs|, s.free + xs, s.listed, s.released)
  }

  /** Giving back in two parts is giving back at once. */
  lemma GiveInParts(s: Account, xs: set<nat>, ys: set<nat>)
    requires xs !! ys && |xs + ys| <= s.useCount
    ensures |xs + ys| == |xs| + |ys| && Give(Give(s, xs), ys) == Give(s, xs + ys)
  {
    assert xs + ys == {} <==> xs == {} && ys == {};
    if xs == {} {
      assert xs + ys == ys;
    } else if ys == {} {
      assert xs + ys == xs;
    } else {
      assert |xs| > 0 && |ys| > 0;
      assert (s.free + xs) + ys == s.free + (xs + ys);
    }
  }

  /** The objects of span `id` among `xs`. */
  function Of(xs: set<nat>, home: map<nat, nat>, id: nat): set<nat> { set a | a in xs && a in home && home[a] == id }

  /** Enough objects of every span are out to give `xs` back. */
  ghost predicate CanReturn(c: map<nat, Account>, xs: set<nat>, home: map<nat, nat>) {
    && (forall a | a in xs :: a in home && home[a] in c)
    && (forall id | id in c :: |Of(xs, home, id)| <= c[id].useCount)
  }

  /** Giving back all of `xs` at once. */
  ghost function Returned(c: map<nat, Account>, xs: set<nat>, home: map<nat, nat>): map<nat, Account>
    requires CanReturn(c, xs, home)
  {
    map id | id in c :: Give(c[id], Of(xs, home, id))
  }

  /** Object `a` goes back to its span. */
  function ReturnOne(c: map<nat, Account>, a: nat, id: nat): map<nat, Account>
    requires id in c && c[id].useCount > 0
  {
    c[id := Give(c[id], {a})]
  }

  lemma OfUnion(xs: set<nat>, ys: set<nat>, home: map<nat, nat>, id: nat)
    ensures Of(xs + ys, home, id) == Of(xs, home, id) + Of(ys, home, id)
    ensures xs !! ys ==> Of(xs, home, id) !! Of(ys, home, id)
  {
  }

  /** Giving back in two parts, for all spans. */
  lemma ReturnedInParts(c: map<nat, Account>, xs: set<nat>, ys: set<nat>, home: map<nat, nat>)
    requires xs !! ys && CanReturn(c, xs + ys, home)
    ensures CanReturn(c, xs, home) && CanReturn(Returned(c, xs, home), ys, home)
    ensures Returned(Returned(c, xs, home), ys, home) == Returned(c, xs + ys, home)
  {
    forall id | id in c
      ensures |Of(xs, home, id)| <= c[id].useCount
      ensures |Of(ys, home, id)| <= Give(c[id], Of(xs, home, id)).useCount
      ensures Give(Give(c[id], Of(xs, home, id)), Of(ys, home, id)) == Give(c[id], Of(xs + ys, home, id))
    {
      OfUnion(xs, ys, home, id);
      GiveInParts(c[id], Of(xs, home, id), Of(ys, home, id));
    }
    assert forall a | a in xs || a in ys :: a in xs + ys;
  }

  lemma ReturnedNone(c: map<nat, Account>, home: map<nat, nat>)
    ensures CanReturn(c, {}, home) && Returned(c, {}, home) == c
  {
    assert forall id :: Of({}, home, id) == {};
  }

  lemma ReturnedOne(c: map<nat, Account>, a: nat, home: map<nat, nat>)
    requires CanReturn(c, {a}, home)
    ensures a in home && home[a] in c && c[home[a]].useCount > 0
    ensures Returned(c, {a}, home) == ReturnOne(c, a, home[a])
  {
    assert a in {a};
    forall id | id in c
      ensures Of({a}, home, id) == if id == home[a] then {a} else {}
    {
    }
  }

  /** One object after the other, in list order. */
  ghost function ReturnAll(c: map<nat, Account>, xs: seq<nat>, home: map<nat, nat>): map<nat, Account>
    requires NoRepeats(xs) && CanReturn(c, SetOf(xs), home)
    decreases |xs|
  {
    if xs == [] then c
    else
      OneLess(c, xs, home);
      ReturnAll(ReturnOne(c, xs[0], home[xs[0]]), xs[1..], home)
  }

  lemma OneLess(c: map<nat, Account>, xs: seq<nat>, home: map<nat, nat>)
    requires NoRepeats(xs) && xs != [] && CanReturn(c, SetOf(xs), home)
    ensures xs[0] in home && home[xs[0]] in c && c[home[xs[0]]].useCount > 0 && NoRepeats(xs[1..])
    ensures CanReturn(ReturnOne(c, xs[0], home[xs[0]]), SetOf(xs[1..]), home)
    ensures Returned(ReturnOne(c, xs[0], home[xs[0]]), SetOf(xs[1..]), home) == Returned(c, SetOf(xs), home)
  {
    var a := xs[0];
    TailHasNoRepeats(xs);
    assert xs == [a] + xs[1..];
    assert SetOf(xs) == {a} + SetOf(xs[1..]);
    ReturnedInParts(c, {a}, SetOf(xs[1..]), home);
    ReturnedOne(c, a, home);
  }

  /** Giving back one object at a time has the effect of giving all back at once, whatever the order. */
  lemma {:induction false} OneAtATime(c: map<nat, Account>, xs: seq<nat>, home: map<nat, nat>)
    requires NoRepeats(xs) && CanReturn(c, SetOf(xs), home)
    ensures ReturnAll(c, xs, home) == Returned(c, SetOf(xs), home)
    decreases |xs|
  {
    if xs == [] {
      assert SetOf(xs) == {};
      ReturnedNone(c, home);
    } else {
      OneLess(c, xs, home);
      OneAtATime(ReturnOne(c, xs[0], home[xs[0]]), xs[1..], home);
    }
  }

  // ---------------------------------------------------------------- links in memory

  /** One entry of the array on the stack of `ReleaseListToSpans`. */
  datatype Bat = Bat(span: nat, head: nat, tail: nat, count: nat)

  /** Every span's `_freeList` is a chain of its list. */
  ghost predicate Linked(next: map<nat, nat>, freeHead: map<nat, nat>, lists: map<Box, seq<nat>>) {
    forall id | id in freeHead :: Chain(next, freeHead[id], List(lists, SpanBox(id)))
  }

  ghost predicate BatOk(next: map<nat, nat>, home: map<nat, nat>, l: seq<nat>, b: Bat) {
    && l != [] && b.tail == l[|l| - 1] && b.count == |l| && Chain(next, b.head, l)
    && forall a | a in l :: a in home && home[a] == b.span
  }

  ghost predicate BatsOk(next: map<nat, nat>, home: map<nat, nat>, lists: map<Box, seq<nat>>, bats: seq<Bat>, from: nat) {
    && |bats| <= MAX_BATCH
    && (forall i: nat | from <= i < |bats| :: BatOk(next, home, List(lists, BatchBox(0, i)), bats[i]))
    && (forall i, j | 0 <= i < j < |bats| :: bats[i].span != bats[j].span)
    && (forall i: nat {:trigger BatchBox(0, i)} | i < from || i >= |bats| :: List(lists, BatchBox(0, i)) == [])
  }

  /** An object of one list is on no other. */
  lemma OnNoOther(lists: map<Box, seq<nat>>, place: map<nat, Where>, a: nat, box: Box)
    requires Boxes(lists, place) && a in List(lists, box)
    ensures forall b | b != box :: a !in List(lists, b)
  {
    forall b | b != box
      ensures a !in List(lists, b)
    {
      assert a in List(lists, b) <==> a in place && place[a] == In(b);
      assert a in List(lists, box) <==> a in place && place[a] == In(box);
    }
  }

  /** A store into an object of one list leaves the chains of the others as they are. */
  lemma OtherChains(next: map<nat, nat>, freeHead: map<nat, nat>, lists: map<Box, seq<nat>>, place: map<nat, Where>,
                    home: map<nat, nat>, bats: seq<Bat>, from: nat, a: nat, box: Box, v: nat)
    requires Boxes(lists, place) && a in List(lists, box) && Linked(next, freeHead, lists) && BatsOk(next, home, lists, bats, from)
    ensures forall id | id in freeHead && SpanBox(id) != box :: Chain(next[a := v], freeHead[id], List(lists, SpanBox(id)))
    ensures forall i: nat | from <= i < |bats| && BatchBox(0, i) != box :: BatOk(next[a := v], home, List(lists, BatchBox(0, i)), bats[i])
  {
    hide Chain;
    OnNoOther(lists, place, a, box);
    forall id | id in freeHead && SpanBox(id) != box
      ensures Chain(next[a := v], freeHead[id], List(lists, SpanBox(id)))
    {
      ChainFrame(next, freeHead[id], List(lists, SpanBox(id)), a, v);
    }
    forall i: nat | from <= i < |bats| && BatchBox(0, i) != box
      ensures BatOk(next[a := v], home, List(lists, BatchBox(0, i)), bats[i])
    {
      assert BatOk(next, home, List(lists, BatchBox(0, i)), bats[i]);
      ChainFrame(next, bats[i].head, List(lists, BatchBox(0, i)), a, v);
    }
  }

  /** Nothing but free lists has changed. */
  ghost predicate OnlySpanLists(lists: map<Box, seq<nat>>, lists': map<Box, seq<nat>>) {
    forall b: Box {:trigger List(lists', b)} | !b.SpanBox? :: List(lists', b) == List(lists, b)
  }

  /** Nothing but free lists and list `box` has changed. */
  ghost predicate OthersKept(lists: map<Box, seq<nat>>, lists': map<Box, seq<nat>>, box: Box) {
    forall b: Box {:trigger List(lists', b)} | !b.SpanBox? && b != box :: List(lists', b) == List(lists, b)
  }

  function SortedBats(bats: seq<Bat>, i: nat, span: nat, cur: nat): seq<Bat>
    requires i <= |bats|
  {
    if i < |bats| then bats[i := bats[i].(head := cur, count := bats[i].count + 1)] else bats + [Bat(span, cur, cur, 1)]
  }

  /** The batch that gets the object in hand. */
  lemma SortedBat(next: map<nat, nat>, home: map<nat, nat>, lists: map<Box, seq<nat>>, bats: seq<Bat>, cur: nat, i: nat, span: nat)
    requires BatsOk(next, home, lists, bats, 0) && i <= |bats| && (i < |bats| ==> bats[i].span == span)
    requires cur != 0 && cur in home && home[cur] == span && cur !in List(lists, BatchBox(0, i))
    ensures var next' := next[cur := if i < |bats| then bats[i].head else 0];
            BatOk(next', home, [cur] + List(lists, BatchBox(0, i)), SortedBats(bats, i, span, cur)[i])
  {
    var l := List(lists, BatchBox(0, i));
    if i < |bats| {
      assert BatOk(next, home, l, bats[i]);
      ChainPush(next, bats[i].head, l, cur);
      assert ([cur] + l)[|l|] == l[|l| - 1];
    } else {
      assert l == [];
      ChainPush(next, 0, [], cur);
    }
  }

  /** The object in hand leaves the front of the list and goes to the front of batch `i`, or starts it. */
  lemma SortLinks(next: map<nat, nat>, freeHead: map<nat, nat>, home: map<nat, nat>, lists: map<Box, seq<nat>>, place: map<nat, Where>,
                  bats: seq<Bat>, cur: nat, i: nat, span: nat)
    requires Boxes(lists, place) && Linked(next, freeHead, lists) && BatsOk(next, home, lists, bats, 0)
    requires cur != 0 && Chain(next, cur, List(lists, RestBox(0)))
    requires i <= |bats| && (i == |bats| ==> |bats| < MAX_BATCH && forall j | 0 <= j < |bats| :: bats[j].span != span)
    requires i < |bats| ==> bats[i].span == span
    requires cur in home && home[cur] == span
    ensures cur in next && List(lists, RestBox(0)) != [] && List(lists, RestBox(0))[0] == cur
    ensures var lists' := Move(lists, RestBox(0), 1, BatchBox(0, i));
            var next' := next[cur := if i < |bats| then bats[i].head else 0];
            && Linked(next', freeHead, lists') && BatsOk(next', home, lists', SortedBats(bats, i, span, cur), 0)
            && Chain(next', next[cur], List(lists', RestBox(0)))
  {
    var rest, box := List(lists, RestBox(0)), BatchBox(0, i);
    ChainTail(next, cur, rest);
    TailHasNoRepeats(rest);
    assert rest[..1] == [cur] && cur in rest;
    var v := if i < |bats| then bats[i].head else 0;
    OnNoOther(lists, place, cur, RestBox(0));
    OtherChains(next, freeHead, lists, place, home, bats, 0, cur, RestBox(0), v);
    ChainFrame(next, next[cur], rest[1..], cur, v);
    SortedBat(next, home, lists, bats, cur, i, span);
    MovedLists(lists, RestBox(0), 1, box);
    SortedAll(next[cur := v], freeHead, home, lists, Move(lists, RestBox(0), 1, box), bats, SortedBats(bats, i, span, cur), i);
  }

  lemma SortedAll(next: map<nat, nat>, freeHead: map<nat, nat>, home: map<nat, nat>, lists: map<Box, seq<nat>>, lists': map<Box, seq<nat>>,
                  bats: seq<Bat>, bats': seq<Bat>, i: nat)
    requires i <= |bats| && |bats| <= |bats'| <= MAX_BATCH && i < |bats'| <= |bats| + 1 && (i < |bats| ==> |bats'| == |bats|)
    requires forall j | 0 <= j < |bats| && j != i :: bats'[j] == bats[j]
    requires forall i, j | 0 <= i < j < |bats'| :: bats'[i].span != bats'[j].span
    requires forall b {:trigger List(lists', b)} | b != RestBox(0) && b != BatchBox(0, i) :: List(lists', b) == List(lists, b)
    requires forall id | id in freeHead && SpanBox(id) != RestBox(0) :: Chain(next, freeHead[id], List(lists, SpanBox(id)))
    requires forall j: nat | j < |bats| && j != i :: BatOk(next, home, List(lists, BatchBox(0, j)), bats[j])
    requires BatOk(next, home, List(lists', BatchBox(0, i)), bats'[i])
    requires forall j: nat {:trigger BatchBox(0, j)} | j >= |bats| :: List(lists, BatchBox(0, j)) == []
    ensures Linked(next, freeHead, lists') && BatsOk(next, home, lists', bats', 0)
  {
    hide Chain, List, BatOk;
    forall id | id in freeHead
      ensures Chain(next, freeHead[id], List(lists', SpanBox(id)))
    {
      assert List(lists', SpanBox(id)) == List(lists, SpanBox(id));
    }
    forall j: nat | j < |bats'|
      ensures BatOk(next, home, List(lists', BatchBox(0, j)), bats'[j])
    {
      if j != i {
        assert List(lists', BatchBox(0, j)) == List(lists, BatchBox(0, j));
      }
    }
    forall j: nat | j >= |bats'|
      ensures List(lists', BatchBox(0, j)) == []
    {
      assert List(lists', BatchBox(0, j)) == List(lists, BatchBox(0, j));
    }
  }

  /** Batch `i` is spliced in front of its span's free list. */
  lemma JoinLinks(next: map<nat, nat>, freeHead: map<nat, nat>, home: map<nat, nat>, lists: map<Box, seq<nat>>, place: map<nat, Where>,
                  bats: seq<Bat>, i: nat, cur: nat)
    requires Boxes(lists, place) && Linked(next, freeHead, lists) && i < |bats| && BatsOk(next, home, lists, bats, i)
    requires bats[i].span in freeHead && Chain(next, cur, List(lists, RestBox(0)))
    ensures var b, l := bats[i], List(lists, BatchBox(0, i));
            var lists' := Move(lists, BatchBox(0, i), |l|, SpanBox(b.span));
            var next', freeHead' := next[b.tail := freeHead[b.span]], freeHead[b.span := b.head];
            && Linked(next', freeHead', lists') && BatsOk(next', home, lists', bats, i + 1) && Chain(next', cur, List(lists', RestBox(0)))
  {
    hide Move;
    var b, l, box := bats[i], List(lists, BatchBox(0, i)), BatchBox(0, i);
    assert BatOk(next, home, l, b);
    var v := freeHead[b.span];
    assert b.tail in l && l[..|l|] == l && NoRepeats(l);
    OnNoOther(lists, place, b.tail, box);
    ChainJoin(next, b.head, l, v, List(lists, SpanBox(b.span)));
    ChainFrame(next, cur, List(lists, RestBox(0)), b.tail, v);
    OtherChains(next, freeHead, lists, place, home, bats, i, b.tail, box, v);
    MovedLists(lists, box, |l|, SpanBox(b.span));
    JoinedAll(next[b.tail := v], freeHead, freeHead[b.span := b.head], home, lists, Move(lists, box, |l|, SpanBox(b.span)), bats, i, b.span);
  }

  lemma JoinedAll(next: map<nat, nat>, freeHead: map<nat, nat>, freeHead': map<nat, nat>, home: map<nat, nat>,
                  lists: map<Box, seq<nat>>, lists': map<Box, seq<nat>>, bats: seq<Bat>, i: nat, span: nat)
    requires i < |bats| <= MAX_BATCH && (forall i, j | 0 <= i < j < |bats| :: bats[i].span != bats[j].span)
    requires freeHead'.Keys == freeHead.Keys && forall id | id in freeHead && id != span :: freeHead'[id] == freeHead[id]
    requires forall b {:trigger List(lists', b)} | b != BatchBox(0, i) && b != SpanBox(span) :: List(lists', b) == List(lists, b)
    requires List(lists', BatchBox(0, i)) == [] && span in freeHead && Chain(next, freeHead'[span], List(lists', SpanBox(span)))
    requires forall id | id in freeHead && SpanBox(id) != BatchBox(0, i) :: Chain(next, freeHead[id], List(lists, SpanBox(id)))
    requires forall j: nat | i <= j < |bats| && BatchBox(0, j) != BatchBox(0, i) :: BatOk(next, home, List(lists, BatchBox(0, j)), bats[j])
    requires forall j: nat {:trigger BatchBox(0, j)} | j < i || j >= |bats| :: List(lists, BatchBox(0, j)) == []
    ensures Linked(next, freeHead', lists') && BatsOk(next, home, lists', bats, i + 1)
  {
    hide Chain, List, BatOk;
    forall id | id in freeHead'
      ensures Chain(next, freeHead'[id], List(lists', SpanBox(id)))
    {
      if id != span {
        assert List(lists', SpanBox(id)) == List(lists, SpanBox(id));
      }
    }
    forall j: nat | i + 1 <= j < |bats|
      ensures BatOk(next, home, List(lists', BatchBox(0, j)), bats[j])
    {
      assert List(lists', BatchBox(0, j)) == List(lists, BatchBox(0, j));
    }
    forall j: nat | j < i + 1 || j >= |bats|
      ensures List(lists', BatchBox(0, j)) == []
    {
      if j != i {
        assert List(lists', BatchBox(0, j)) == List(lists, BatchBox(0, j));
      }
    }
  }

  lemma BatFacts(next: map<nat, nat>, home: map<nat, nat>, lists: map<Box, seq<nat>>, bats: seq<Bat>, i: nat)
    requires i < |bats| && BatsOk(next, home, lists, bats, i)
    ensures var l := List(lists, BatchBox(0, i)); l != [] && bats[i].count == |l| && bats[i].tail == l[|l| - 1]
    ensures forall a | a in List(lists, BatchBox(0, i)) :: a in home && home[a] == bats[i].span
  {
    assert BatOk(next, home, List(lists, BatchBox(0, i)), bats[i]);
  }

  lemma ListOnce(lists: map<Box, seq<nat>>, place: map<nat, Where>, b: Box)
    requires Boxes(lists, place)
    ensures NoRepeats(List(lists, b))
  {
  }

  /** A span whose objects are all on its list drops the list. */
  lemma DropLinks(next: map<nat, nat>, freeHead: map<nat, nat>, home: map<nat, nat>, lists: map<Box, seq<nat>>, bats: seq<Bat>, from: nat, id: nat)
    requires Linked(next, freeHead, lists) && BatsOk(next, home, lists, bats, from)
    ensures Linked(next, freeHead[id := 0], lists - {SpanBox(id)}) && BatsOk(next, home, lists - {SpanBox(id)}, bats, from)
  {
    hide BatOk;
    var lists' := lists - {SpanBox(id)};
    assert forall b | b != SpanBox(id) :: List(lists', b) == List(lists, b);
    forall j: nat | from <= j < |bats|
      ensures BatOk(next, home, List(lists', BatchBox(0, j)), bats[j])
    {
      assert List(lists', BatchBox(0, j)) == List(lists, BatchBox(0, j));
    }
    forall x | x in freeHead[id := 0]
      ensures Chain(next, freeHead[id := 0][x], List(lists', SpanBox(x)))
    {
      if x != id {
        assert List(lists', SpanBox(x)) == List(lists, SpanBox(x));
      }
    }
  }

  ghost function AccountsOf(useCount: map<nat, nat>, lists: map<Box, seq<nat>>, bucket: seq<nat>, returned: set<nat>): map<nat, Account> {
    map id | id in useCount :: Account(useCount[id], SetOf(List(lists, SpanBox(id))), id in bucket, id in returned)
  }

  lemma SetOfJoin(xs: seq<nat>, ys: seq<nat>)
    ensures SetOf(xs + ys) == SetOf(ys) + SetOf(xs)
  {
  }

  /** Only the account of span `id` changes. */
  lemma OneAccount(useCount: map<nat, nat>, useCount': map<nat, nat>, lists: map<Box, seq<nat>>, lists': map<Box, seq<nat>>,
                   bucket: seq<nat>, bucket': seq<nat>, returned: set<nat>, returned': set<nat>, id: nat)
    requires useCount'.Keys == useCount.Keys && id in useCount
    requires forall x | x in useCount && x != id :: useCount'[x] == useCount[x] && List(lists', SpanBox(x)) == List(lists, SpanBox(x))
    requires forall x | x in useCount && x != id :: (x in bucket' <==> x in bucket) && (x in returned' <==> x in returned)
    ensures AccountsOf(useCount', lists', bucket', returned')
         == AccountsOf(useCount, lists, bucket, returned)[
              id := Account(useCount'[id], SetOf(List(lists', SpanBox(id))), id in bucket', id in returned')]
  {
    hide List, SetOf;
  }

  /** What splicing one batch changes in the accounts. */
  lemma JoinedAccounts(useCount: map<nat, nat>, lists: map<Box, seq<nat>>, bucket: seq<nat>, returned: set<nat>, id: nat, i: nat)
    requires id in useCount && NoRepeats(List(lists, BatchBox(0, i))) && |List(lists, BatchBox(0, i))| <= useCount[id]
    ensures var l := List(lists, BatchBox(0, i));
            var c := AccountsOf(useCount, lists, bucket, returned);
            && |SetOf(l)| == |l|
            && AccountsOf(useCount[id := useCount[id] - |l|], Move(lists, BatchBox(0, i), |l|, SpanBox(id)), bucket, returned)
            == c[id := c[id].(useCount := useCount[id] - |l|, free := c[id].free + SetOf(l))]
  {
    hide List, Move, SetOf, NoRepeats;
    var l := List(lists, BatchBox(0, i));
    SetOfSize(l);
    MovedLists(lists, BatchBox(0, i), |l|, SpanBox(id));
    assert l[..|l|] == l;
    SetOfJoin(l, List(lists, SpanBox(id)));
    OneAccount(useCount, useCount[id := useCount[id] - |l|], lists, Move(lists, BatchBox(0, i), |l|, SpanBox(id)),
               bucket, bucket, returned, returned, id);
  }

  lemma DroppedLists(lists: map<Box, seq<nat>>, id: nat)
    ensures OnlySpanLists(lists, lists - {SpanBox(id)})
  {
  }

  lemma NotEmptySet(l: seq<nat>)
    ensures l != [] ==> SetOf(l) != {}
  {
    assert l != [] ==> l[0] in SetOf(l);
  }

  lemma TwoUpdates(c: map<nat, Account>, id: nat, x: Account, y: Account)
    ensures c[id := x][id := y] == c[id := y]
  {
  }

  lemma GiveIs(s: Account, xs: set<nat>, s': Account)
    requires xs != {} && |xs| <= s.useCount && s' == s.(useCount := s.useCount - |xs|, free := s.free + xs)
    ensures Give(s, xs) == if s'.useCount == 0 then Account(0, {}, false, true) else s'
  {
  }

  lemma MovedKept(lists: map<Box, seq<nat>>, from: Box, k: nat, id: nat)
    requires from != SpanBox(id) && k <= |List(lists, from)|
    ensures OthersKept(lists, Move(lists, from, k, SpanBox(id)), from)
  {
    hide List, Move;
    MovedLists(lists, from, k, SpanBox(id));
  }

  lemma KeptTwice(lists: map<Box, seq<nat>>, lists1: map<Box, seq<nat>>, lists2: map<Box, seq<nat>>, box: Box)
    requires OthersKept(lists, lists1, box) && OnlySpanLists(lists1, lists2)
    ensures OthersKept(lists, lists2, box)
  {
    hide List;
    forall b: Box | !b.SpanBox? && b != box
      ensures List(lists2, b) == List(lists, b)
    {
      assert List(lists2, b) == List(lists1, b);
    }
  }

  lemma AccountKeys(useCount: map<nat, nat>, lists: map<Box, seq<nat>>, bucket: seq<nat>, returned: set<nat>)
    ensures AccountsOf(useCount, lists, bucket, returned).Keys == useCount.Keys
  {
  }

  /** What dropping an idle span changes in the accounts. */
  lemma DroppedAccounts(useCount: map<nat, nat>, lists: map<Box, seq<nat>>, bucket: seq<nat>, returned: set<nat>, id: nat)
    requires id in useCount && useCount[id] == 0
    ensures AccountsOf(useCount, lists - {SpanBox(id)}, Without(bucket, id), returned + {id})
         == AccountsOf(useCount, lists, bucket, returned)[id := Account(0, {}, false, true)]
  {
    var lists' := lists - {SpanBox(id)};
    WithoutFacts(bucket, id);
    forall x | x != id
      ensures List(lists', SpanBox(x)) == List(lists, SpanBox(x))
    {
    }
    assert List(lists', SpanBox(id)) == [] && SetOf([]) == {};
    OneAccount(useCount, useCount, lists, lists', bucket, Without(bucket, id), returned, returned + {id}, id);
  }

  // Progress: what is not pending any more has been given back.

  ghost predicate Progress(c: map<nat, Account>, c0: map<nat, Account>, all: set<nat>, pending: set<nat>, home: map<nat, nat>) {
    CanReturn(c0, all, home) && pending <= all && CanReturn(c0, all - pending, home) && c == Returned(c0, all - pending, home)
  }

  lemma CanReturnLess(c: map<nat, Account>, xs: set<nat>, ys: set<nat>, home: map<nat, nat>)
    requires CanReturn(c, ys, home) && xs <= ys
    ensures CanReturn(c, xs, home)
  {
    forall id | id in c
      ensures |Of(xs, home, id)| <= c[id].useCount
    {
      assert Of(xs, home, id) <= Of(ys, home, id);
      SubsetSize(Of(xs, home, id), Of(ys, home, id));
    }
  }

  /** Giving back objects of one span changes only its account. */
  lemma ReturnedOfOne(c: map<nat, Account>, xs: set<nat>, home: map<nat, nat>, id: nat)
    requires id in c && (forall a | a in xs :: a in home && home[a] == id) && CanReturn(c, xs, home)
    ensures |xs| <= c[id].useCount && Returned(c, xs, home) == c[id := Give(c[id], xs)]
  {
    forall x | x in c
      ensures Of(xs, home, x) == if x == id then xs else {}
    {
    }
  }

  /** One batch put back is progress. */
  lemma BatchProgress(c: map<nat, Account>, c0: map<nat, Account>, all: set<nat>, pending: set<nat>, home: map<nat, nat>, xs: set<nat>, id: nat)
    requires Progress(c, c0, all, pending, home) && xs <= pending && id in c && forall a | a in xs :: a in home && home[a] == id
    ensures |xs| <= c[id].useCount && Progress(c[id := Give(c[id], xs)], c0, all, pending - xs, home)
  {
    var done := all - pending;
    assert all - (pending - xs) == done + xs;
    CanReturnLess(c0, done + xs, all, home);
    ReturnedInParts(c0, done, xs, home);
    ReturnedOfOne(c, xs, home, id);
  }

  lemma StartProgress(c: map<nat, Account>, all: set<nat>, home: map<nat, nat>)
    requires CanReturn(c, all, home)
    ensures Progress(c, c, all, all, home)
  {
    assert all - all == {};
    ReturnedNone(c, home);
  }

  lemma EndProgress(c: map<nat, Account>, c0: map<nat, Account>, xs: seq<nat>, home: map<nat, nat>)
    requires NoRepeats(xs) && Progress(c, c0, SetOf(xs), {}, home)
    ensures CanReturn(c0, SetOf(xs), home) && c == ReturnAll(c0, xs, home)
  {
    assert SetOf(xs) - {} == SetOf(xs);
    OneAtATime(c0, xs, home);
  }

  /** What is on the list being given back or in one of its batches. */
  ghost predicate IsPending(lists: map<Box, seq<nat>>, pending: set<nat>) {
    forall a :: a in pending <==> a in List(lists, RestBox(0)) || exists i: nat :: i < MAX_BATCH && a in List(lists, BatchBox(0, i))
  }

  lemma SortPending(lists: map<Box, seq<nat>>, pending: set<nat>, i: nat)
    requires IsPending(lists, pending) && i < MAX_BATCH && List(lists, RestBox(0)) != []
    ensures IsPending(Move(lists, RestBox(0), 1, BatchBox(0, i)), pending)
  {
    hide Move, List;
    var lists', rest := Move(lists, RestBox(0), 1, BatchBox(0, i)), List(lists, RestBox(0));
    MovedLists(lists, RestBox(0), 1, BatchBox(0, i));
    assert rest == [rest[0]] + rest[1..] && rest[..1] == [rest[0]];
    forall a
      ensures a in pending <==> a in List(lists', RestBox(0)) || exists j: nat :: j < MAX_BATCH && a in List(lists', BatchBox(0, j))
    {
      if a == rest[0] {
        assert a in List(lists', BatchBox(0, i));
      } else {
        assert forall j: nat :: a in List(lists', BatchBox(0, j)) <==> a in List(lists, BatchBox(0, j));
      }
    }
  }

  lemma FlushPending(lists: map<Box, seq<nat>>, lists': map<Box, seq<nat>>, place: map<nat, Where>, pending: set<nat>, i: nat)
    requires Boxes(lists, place) && IsPending(lists, pending) && i < MAX_BATCH
    requires forall b: Box {:trigger List(lists', b)} | !b.SpanBox? && b != BatchBox(0, i) :: List(lists', b) == List(lists, b)
    requires List(lists', BatchBox(0, i)) == []
    ensures SetOf(List(lists, BatchBox(0, i))) <= pending && IsPending(lists', pending - SetOf(List(lists, BatchBox(0, i))))
  {
    hide List;
    var l := List(lists, BatchBox(0, i));
    forall a | a in l
      ensures forall b | b != BatchBox(0, i) :: a !in List(lists, b)
    {
      OnNoOther(lists, place, a, BatchBox(0, i));
    }
    forall a
      ensures a in pending - SetOf(l) <==> a in List(lists', RestBox(0)) || exists j: nat :: j < MAX_BATCH && a in List(lists', BatchBox(0, j))
    {
      assert forall j: nat | j != i :: List(lists', BatchBox(0, j)) == List(lists, BatchBox(0, j));
    }
  }

  /** Batch `i` has an account that covers it, and putting it back is progress. */
  lemma ReadyToFlush(useCount: map<nat, nat>, bucket: seq<nat>, returned: set<nat>, next: map<nat, nat>, home: map<nat, nat>,
                     lists: map<Box, seq<nat>>, place: map<nat, Where>, bats: seq<Bat>, i: nat,
                     c0: map<nat, Account>, all: set<nat>, pending: set<nat>)
    requires Boxes(lists, place) && i < |bats| && BatsOk(next, home, lists, bats, i) && IsPending(lists, pending)
    requires Progress(AccountsOf(useCount, lists, bucket, returned), c0, all, pending, home)
    ensures var c, l, id := AccountsOf(useCount, lists, bucket, returned), List(lists, BatchBox(0, i)), bats[i].span;
            && id in useCount && |l| <= useCount[id] == c[id].useCount && |SetOf(l)| == |l|
            && Progress(c[id := Give(c[id], SetOf(l))], c0, all, pending - SetOf(l), home)
  {
    var c, l, id := AccountsOf(useCount, lists, bucket, returned), List(lists, BatchBox(0, i)), bats[i].span;
    BatFacts(next, home, lists, bats, i);
    ListOnce(lists, place, BatchBox(0, i));
    SetOfSize(l);
    assert SetOf(l) <= pending;
    assert l[0] in SetOf(l) && l[0] in all;
    BatchProgress(c, c0, all, pending, home, SetOf(l), id);
  }

  lemma NoBats(next: map<nat, nat>, home: map<nat, nat>, lists: map<Box, seq<nat>>, bats: seq<Bat>)
    requires BatsOk(next, home, lists, bats, |bats|)
    ensures BatsOk(next, home, lists, [], 0)
  {
  }

  /** Where a span's batch is; `|bats|` if it has none. */
  function BatOf(bats: seq<Bat>, span: nat): (i: nat)
    ensures i <= |bats| && (i < |bats| ==> bats[i].span == span) && forall j | 0 <= j < i :: bats[j].span != span
  {
    if bats == [] || bats[0].span == span then 0 else 1 + BatOf(bats[1..], span)
  }

  lemma SameAccounts(useCount: map<nat, nat>, lists: map<Box, seq<nat>>, lists': map<Box, seq<nat>>, bucket: seq<nat>, returned: set<nat>)
    requires forall id {:trigger SpanBox(id)} :: List(lists', SpanBox(id)) == List(lists, SpanBox(id))
    ensures AccountsOf(useCount, lists', bucket, returned) == AccountsOf(useCount, lists, bucket, returned)
  {
  }

  lemma AllPending(lists: map<Box, seq<nat>>, i: nat)
    requires i < MAX_BATCH && List(lists, RestBox(0)) != []
    ensures forall pending | IsPending(lists, pending) :: IsPending(Move(lists, RestBox(0), 1, BatchBox(0, i)), pending)
  {
    forall pending | IsPending(lists, pending)
      ensures IsPending(Move(lists, RestBox(0), 1, BatchBox(0, i)), pending)
    {
      SortPending(lists, pending, i);
    }
  }

  lemma StartPending(lists: map<Box, seq<nat>>, xs: seq<nat>)
    requires xs == List(lists, RestBox(0)) && forall i: nat {:trigger BatchBox(0, i)} :: List(lists, BatchBox(0, i)) == []
    ensures IsPending(lists, SetOf(xs))
  {
  }

  lemma SetOfAppend(s: set<nat>, xs: seq<nat>, ys: seq<nat>)
    ensures s + SetOf(xs) + SetOf(ys) == s + SetOf(xs + ys)
  {
  }

  lemma AtMost(next: map<nat, nat>, home: map<nat, nat>, lists: map<Box, seq<nat>>, bats: seq<Bat>)
    requires BatsOk(next, home, lists, bats, 0)
    ensures |bats| <= MAX_BATCH
  {
  }

  lemma EmptySet()
    ensures SetOf([]) == {}
  {
  }

  lemma ChainHead(next: map<nat, nat>, head: nat, xs: seq<nat>)
    requires Chain(next, head, xs) && head != 0
    ensures xs != [] && xs[0] == head && head in xs
  {
  }

  lemma ChainEnd(next: map<nat, nat>, xs: seq<nat>)
    requires Chain(next, 0, xs)
    ensures xs == []
  {
  }

  lemma NothingPending(next: map<nat, nat>, home: map<nat, nat>, lists: map<Box, seq<nat>>, pending: set<nat>)
    requires BatsOk(next, home, lists, [], 0) && List(lists, RestBox(0)) == [] && IsPending(lists, pending)
    ensures pending == {}
  {
  }

  /** The page map knows the span of every object on the list. */
  ghost predicate Known(xs: seq<nat>, home: map<nat, nat>, pmap: map<nat, nat>) {
    forall a | a in xs :: a in home && Get(pmap, PageOf(a)) == home[a] && PageOf(a) != 0
  }

  /** The remembered lookup is right for every object left on that page. */
  ghost predicate CacheGood(xs: seq<nat>, home: map<nat, nat>, lastId: nat, lastSpan: nat) {
    forall a | a in xs && PageOf(a) == lastId :: a in home && home[a] == lastSpan
  }

  lemma StartBats(next: map<nat, nat>, home: map<nat, nat>, lists: map<Box, seq<nat>>, xs: seq<nat>, pmap: map<nat, nat>)
    requires Known(xs, home, pmap) && forall i: nat {:trigger BatchBox(0, i)} :: List(lists, BatchBox(0, i)) == []
    ensures BatsOk(next, home, lists, [], 0) && CacheGood(xs, home, 0, 0)
  {
  }

  /** Cutting the free list of one span leaves the others' chains as they are. */
  lemma TakenChains(next: map<nat, nat>, freeHead: map<nat, nat>, lists: map<Box, seq<nat>>, place: map<nat, Where>, id: nat, k: nat)
    requires Boxes(lists, place) && Linked(next, freeHead, lists) && id in freeHead && 0 < k <= |List(lists, SpanBox(id))|
    ensures var l := List(lists, SpanBox(id));
            && l[k - 1] in next
            && Linked(next[l[k - 1] := 0], freeHead[id := next[l[k - 1]]], Move(lists, SpanBox(id), k, RestBox(0)))
  {
    hide Chain, List, Boxes;
    var l := List(lists, SpanBox(id));
    ListOnce(lists, place, SpanBox(id));
    ChainCut(next, freeHead[id], l, k);
    MovedLists(lists, SpanBox(id), k, RestBox(0));
    assert l[k - 1] in l;
    OnNoOther(lists, place, l[k - 1], SpanBox(id));
    var next', freeHead', lists' := next[l[k - 1] := 0], freeHead[id := next[l[k - 1]]], Move(lists, SpanBox(id), k, RestBox(0));
    forall x | x in freeHead'
      ensures Chain(next', freeHead'[x], List(lists', SpanBox(x)))
    {
      if x != id {
        assert List(lists', SpanBox(x)) == List(lists, SpanBox(x));
        ChainFrame(next, freeHead[x], List(lists, SpanBox(x)), l[k - 1], 0);
      }
    }
  }

  lemma TakenBoxes(next: map<nat, nat>, freeHead: map<nat, nat>, lists: map<Box, seq<nat>>, place: map<nat, Where>, id: nat, k: nat)
    requires Boxes(lists, place) && Linked(next, freeHead, lists) && id in freeHead && 0 < k <= |List(lists, SpanBox(id))|
    requires List(lists, RestBox(0)) == []
    ensures var l := List(lists, SpanBox(id)); var lists' := Move(lists, SpanBox(id), k, RestBox(0));
            && l[k - 1] in next && Chain(next[l[k - 1] := 0], l[0], l[..k])
            && Linked(next[l[k - 1] := 0], freeHead[id := next[l[k - 1]]], lists')
            && Boxes(lists', Relocate(place, l[..k], In(RestBox(0))))
            && List(lists', RestBox(0)) == l[..k] && List(lists', SpanBox(id)) == l[k..]
            && forall x | x != id :: List(lists', SpanBox(x)) == List(lists, SpanBox(x))
  {
    hide Boxes, Linked, List, Move, Relocate;
    var l := List(lists, SpanBox(id));
    MovedLists(lists, SpanBox(id), k, RestBox(0));
    MoveKeeps(lists, place, SpanBox(id), k, RestBox(0));
    TakenChains(next, freeHead, lists, place, id, k);
    ListOnce(lists, place, SpanBox(id));
    FirstOfSpan(next, freeHead, lists, id);
    ChainCut(next, l[0], l, k);
    assert l[..k] + [] == l[..k];
  }

  lemma FirstOfSpan(next: map<nat, nat>, freeHead: map<nat, nat>, lists: map<Box, seq<nat>>, id: nat)
    requires Linked(next, freeHead, lists) && id in freeHead && List(lists, SpanBox(id)) != []
    ensures var l := List(lists, SpanBox(id)); Chain(next, l[0], l) && freeHead[id] == l[0]
  {
  }

  // ---------------------------------------------------------------- the methods

  /** What sorting the object in hand into batch `i` does to everything. */
  lemma SortStep(next: map<nat, nat>, freeHead: map<nat, nat>, home: map<nat, nat>, useCount: map<nat, nat>, bucket: seq<nat>, returned: set<nat>,
                 lists: map<Box, seq<nat>>, place: map<nat, Where>, bats: seq<Bat>, cur: nat, i: nat, span: nat)
    requires Boxes(lists, place) && Linked(next, freeHead, lists) && BatsOk(next, home, lists, bats, 0)
    requires cur != 0 && Chain(next, cur, List(lists, RestBox(0)))
    requires i <= |bats| && (i == |bats| ==> |bats| < MAX_BATCH && forall j | 0 <= j < |bats| :: bats[j].span != span)
    requires i < |bats| ==> bats[i].span == span
    requires cur in home && home[cur] == span
    ensures var rest := List(lists, RestBox(0)); cur in next && rest != []
    ensures var rest, lists' := List(lists, RestBox(0)), Move(lists, RestBox(0), 1, BatchBox(0, i));
            var next' := next[cur := if i < |bats| then bats[i].head else 0];
            && Linked(next', freeHead, lists') && BatsOk(next', home, lists', SortedBats(bats, i, span, cur), 0)
            && Chain(next', next[cur], List(lists', RestBox(0))) && List(lists', RestBox(0)) == rest[1..]
            && Boxes(lists', Relocate(place, rest[..1], In(BatchBox(0, i))))
            && AccountsOf(useCount, lists', bucket, returned) == AccountsOf(useCount, lists, bucket, returned)
            && forall pending | IsPending(lists, pending) :: IsPending(lists', pending)
  {
    hide Boxes, Linked, BatsOk, Chain, AccountsOf, IsPending, Relocate, List, Move;
    SortLinks(next, freeHead, home, lists, place, bats, cur, i, span);
    AtMost(next, home, lists, bats);
    MoveKeeps(lists, place, RestBox(0), 1, BatchBox(0, i));
    MovedLists(lists, RestBox(0), 1, BatchBox(0, i));
    SameAccounts(useCount, lists, Move(lists, RestBox(0), 1, BatchBox(0, i)), bucket, returned);
    AllPending(lists, i);
  }


  class CentralCache {
    var next: map<nat, nat>
    var freeHead: map<nat, nat>
    var useCount: map<nat, nat>
    var bucket: seq<nat>
    var pmap: map<nat, nat>
    ghost var lists: map<Box, seq<nat>>
    ghost var place: map<nat, Where>
    ghost var returned: set<nat>

    ghost function Accounts(): map<nat, Account>
      reads this
    {
      AccountsOf(useCount, lists, bucket, returned)
    }

    /** Objects are on one list each, and the lists of the spans are chained from their heads. */
    ghost predicate Valid()
      reads this
    {
      && Boxes(lists, place) && Linked(next, freeHead, lists) && freeHead.Keys == useCount.Keys && NoRepeats(bucket)
    }

    /** Batch `i` is spliced in front of its span's free list. */
    method Splice(bats: seq<Bat>, i: nat, ghost home: map<nat, nat>, ghost cur: nat)
      requires Valid() && i < |bats| && BatsOk(next, home, lists, bats, i) && Chain(next, cur, List(lists, RestBox(0)))
      requires bats[i].span in useCount && |List(lists, BatchBox(0, i))| <= useCount[bats[i].span]
      modifies this`next, this`freeHead, this`useCount, this`lists, this`place
      ensures Valid() && BatsOk(next, home, lists, bats, i + 1) && Chain(next, cur, List(lists, RestBox(0)))
      ensures var l, id := old(List(lists, BatchBox(0, i))), bats[i].span;
              && |SetOf(l)| == |l| && l != [] && OthersKept(old(lists), lists, BatchBox(0, i))
              && useCount == old(useCount)[id := old(useCount)[id] - |l|]
              && Accounts() == old(Accounts())[id := old(Accounts())[id].(useCount := useCount[id], free := old(Accounts())[id].free + SetOf(l))]
    {
      hide Boxes, Linked, Chain, AccountsOf, Move, List, Relocate, SetOf, BatsOk;
      BatFacts(next, home, lists, bats, i);
      var b := bats[i];
      ghost var l := List(lists, BatchBox(0, i));
      ListOnce(lists, place, BatchBox(0, i));
      JoinLinks(next, freeHead, home, lists, place, bats, i, cur);
      MoveKeeps(lists, place, BatchBox(0, i), |l|, SpanBox(b.span));
      MovedKept(lists, BatchBox(0, i), |l|, b.span);
      JoinedAccounts(useCount, lists, bucket, returned, b.span, i);
      next := next[b.tail := freeHead[b.span]];
      freeHead := freeHead[b.span := b.head];
      useCount := useCount[b.span := useCount[b.span] - b.count];
      lists, place := Move(lists, BatchBox(0, i), |l|, SpanBox(b.span)), Relocate(place, l[..|l|], In(SpanBox(b.span)));
    }

    /** A span of which nothing is out leaves the bucket with its list. */
    method Leave(id: nat, ghost bats: seq<Bat>, ghost from: nat, ghost home: map<nat, nat>, ghost cur: nat)
      requires Valid() && BatsOk(next, home, lists, bats, from) && Chain(next, cur, List(lists, RestBox(0)))
      requires id in useCount && useCount[id] == 0
      modifies this`freeHead, this`bucket, this`lists, this`place, this`returned
      ensures Valid() && BatsOk(next, home, lists, bats, from) && Chain(next, cur, List(lists, RestBox(0)))
      ensures OnlySpanLists(old(lists), lists)
      ensures returned == old(returned) + {id}
      ensures Accounts() == old(Accounts())[id := Account(0, {}, false, true)]
    {
      hide Boxes, Linked, BatsOk, Chain, AccountsOf;
      DropLinks(next, freeHead, home, lists, bats, from, id);
      DropKeeps(lists, place, SpanBox(id));
      DroppedAccounts(useCount, lists, bucket, returned, id);
      WithoutFacts(bucket, id);
      DroppedLists(lists, id);
      bucket := Without(bucket, id);
      freeHead := freeHead[id := 0];
      place := Dropped(place, List(lists, SpanBox(id)));
      lists := lists - {SpanBox(id)};
      returned := returned + {id};
    }

    /** Batch `i` goes back to its span, which leaves the bucket with its last object. */
    method FlushOne(bats: seq<Bat>, i: nat, ghost home: map<nat, nat>, ghost cur: nat) returns (released: bool)
      requires Valid() && i < |bats| && BatsOk(next, home, lists, bats, i) && Chain(next, cur, List(lists, RestBox(0)))
      requires bats[i].span in useCount && |List(lists, BatchBox(0, i))| <= useCount[bats[i].span] == Accounts()[bats[i].span].useCount
      modifies this`next, this`freeHead, this`useCount, this`bucket, this`lists, this`place, this`returned
      ensures Valid() && BatsOk(next, home, lists, bats, i + 1) && Chain(next, cur, List(lists, RestBox(0)))
      ensures OthersKept(old(lists), lists, BatchBox(0, i))
      ensures var l, id := old(List(lists, BatchBox(0, i))), bats[i].span;
              && |SetOf(l)| == |l| && useCount.Keys == old(useCount).Keys
              && Accounts() == old(Accounts())[id := Give(old(Accounts())[id], SetOf(l))]
              && returned == (if released then old(returned) + {id} else old(returned))
    {
      hide Boxes, Linked, BatsOk, Chain, Move, SetOf, List, AccountsOf, Give, NoRepeats;
      var id := bats[i].span;
      ghost var l := List(lists, BatchBox(0, i));
      NotEmptySet(l);
      AccountKeys(useCount, lists, bucket, returned);
      ghost var c := Accounts();
      Splice(bats, i, home, cur);
      released := useCount[id] == 0;
      ghost var after := c[id].(useCount := useCount[id], free := c[id].free + SetOf(l));
      GiveIs(c[id], SetOf(l), after);
      if released {
        ghost var before := lists;
        Leave(id, bats, i + 1, home, cur);
        KeptTwice(old(lists), before, lists, BatchBox(0, i));
        TwoUpdates(c, id, after, Account(0, {}, false, true));
      }
    }

    /** The `flush_batches` lambda: all batches go back, and the spans that are idle then are returned to
        the page heap. */
    method FlushBatches(bats: seq<Bat>, ghost home: map<nat, nat>, ghost cur: nat, ghost c0: map<nat, Account>,
                        ghost all: set<nat>, ghost pending: set<nat>)
      returns (released: seq<nat>, ghost pending': set<nat>)
      requires Valid() && BatsOk(next, home, lists, bats, 0) && Chain(next, cur, List(lists, RestBox(0)))
      requires IsPending(lists, pending) && Progress(Accounts(), c0, all, pending, home)
      modifies this`next, this`freeHead, this`useCount, this`bucket, this`lists, this`place, this`returned
      ensures Valid() && BatsOk(next, home, lists, [], 0) && Chain(next, cur, List(lists, RestBox(0)))
      ensures List(lists, RestBox(0)) == old(List(lists, RestBox(0)))
      ensures IsPending(lists, pending') && Progress(Accounts(), c0, all, pending', home) && useCount.Keys == old(useCount).Keys
      ensures returned == old(returned) + SetOf(released)
    {
      hide Boxes, Linked, Chain, List, AccountsOf, Progress, IsPending;
      released, pending' := [], pending;
      assert SetOf([]) == {};
      var i := 0;
      while i < |bats|
        invariant i <= |bats| && Valid() && BatsOk(next, home, lists, bats, i) && Chain(next, cur, List(lists, RestBox(0)))
        invariant List(lists, RestBox(0)) == old(List(lists, RestBox(0)))
        invariant IsPending(lists, pending') && Progress(Accounts(), c0, all, pending', home) && useCount.Keys == old(useCount).Keys
        invariant returned == old(returned) + SetOf(released)
      {
        ghost var before, l := lists, List(lists, BatchBox(0, i));
        ghost var was := place;
        ReadyToFlush(useCount, bucket, returned, next, home, lists, place, bats, i, c0, all, pending');
        var leaves := FlushOne(bats, i, home, cur);
        FlushPending(before, lists, was, pending', i);
        pending' := pending' - SetOf(l);
        if leaves {
          SetOfJoin(released, [bats[i].span]);
          assert SetOf([bats[i].span]) == {bats[i].span};
          released := released + [bats[i].span];
        }
        i := i + 1;
      }
      NoBats(next, home, lists, bats);
    }

    /** The object in hand joins its batch, which is started if there is none. */
    method SortOne(bats: seq<Bat>, cur: nat, span: nat, ghost home: map<nat, nat>) returns (bats': seq<Bat>, rest: nat)
      requires Valid() && BatsOk(next, home, lists, bats, 0) && cur != 0 && Chain(next, cur, List(lists, RestBox(0)))
      requires cur in home && home[cur] == span
      requires BatOf(bats, span) == |bats| ==> |bats| < MAX_BATCH
      modifies this`next, this`lists, this`place
      ensures Valid() && BatsOk(next, home, lists, bats', 0) && Chain(next, rest, List(lists, RestBox(0)))
      ensures List(old(lists), RestBox(0)) != [] && List(lists, RestBox(0)) == List(old(lists), RestBox(0))[1..]
      ensures Accounts() == old(Accounts())
      ensures forall pending | IsPending(old(lists), pending) :: IsPending(lists, pending)
    {
      hide Boxes, Linked, Chain, List, AccountsOf, IsPending, Move, BatsOk, Relocate;
      var i := BatOf(bats, span);
      SortStep(next, freeHead, home, useCount, bucket, returned, lists, place, bats, cur, i, span);
      rest := next[cur];
      next := next[cur := 0];
      if i < |bats| {
        next := next[cur := bats[i].head];
        bats' := bats[i := bats[i].(head := cur, count := bats[i].count + 1)];
        assert next == old(next)[cur := bats[i].head];
      } else {
        bats' := bats + [Bat(span, cur, cur, 1)];
      }
      place := Relocate(place, List(lists, RestBox(0))[..1], In(BatchBox(0, i)));
      lists := Move(lists, RestBox(0), 1, BatchBox(0, i));
    }

    /** The page map lookup with its one-entry cache. */
    method LookUp(cur: nat, lastId: nat, lastSpan: nat, ghost left: seq<nat>, ghost home: map<nat, nat>)
      returns (span: nat, lastId': nat, lastSpan': nat)
      requires left != [] && left[0] == cur && Known(left, home, pmap) && CacheGood(left, home, lastId, lastSpan)
      ensures cur in home && span == home[cur] && CacheGood(left, home, lastId', lastSpan')
      ensures Known(left[1..], home, pmap) && CacheGood(left[1..], home, lastId', lastSpan')
    {
      assert cur in left && forall a | a in left[1..] :: a in left;
      var id := PageOf(cur);
      lastId', lastSpan' := lastId, lastSpan;
      if id == lastId {
        span := lastSpan;
      } else {
        span := Get(pmap, id);
        lastId' := id;
        lastSpan' := span;
      }
    }

    /** One turn of the loop: look the object up, make room for a batch if need be, sort it. */
    method Turn(bats: seq<Bat>, cur: nat, lastId: nat, lastSpan: nat, ghost left: seq<nat>, ghost home: map<nat, nat>,
                ghost c0: map<nat, Account>, ghost all: set<nat>, ghost pending: set<nat>)
      returns (bats': seq<Bat>, rest: nat, lastId': nat, lastSpan': nat, some: seq<nat>, ghost pending': set<nat>)
      requires Valid() && BatsOk(next, home, lists, bats, 0) && Chain(next, cur, left) && left == List(lists, RestBox(0)) && cur != 0
      requires IsPending(lists, pending) && Progress(Accounts(), c0, all, pending, home)
      requires Known(left, home, pmap) && CacheGood(left, home, lastId, lastSpan)
      modifies this`next, this`freeHead, this`useCount, this`bucket, this`lists, this`place, this`returned
      ensures left != [] && Valid() && BatsOk(next, home, lists, bats', 0) && Chain(next, rest, left[1..]) && left[1..] == List(lists, RestBox(0))
      ensures IsPending(lists, pending') && Progress(Accounts(), c0, all, pending', home)
      ensures Known(left[1..], home, pmap) && CacheGood(left[1..], home, lastId', lastSpan')
      ensures returned == old(returned) + SetOf(some)
    {
      hide Boxes, Linked, Chain, List, AccountsOf, IsPending, Progress, BatsOk, SetOf, Known, CacheGood;
      ChainHead(next, cur, left);
      AtMost(next, home, lists, bats);
      var span;
      span, lastId', lastSpan' := LookUp(cur, lastId, lastSpan, left, home);
      some, pending' := [], pending;
      bats' := bats;
      EmptySet();
      if BatOf(bats, span) == |bats| && |bats| == MAX_BATCH {
        some, pending' := FlushBatches(bats, home, cur, c0, all, pending);
        bats' := [];
      }
      bats', rest := SortOne(bats', cur, span, home);
    }

    /** `ReleaseListToSpans`: the list `xs` from `start` goes back. The effect on every span is that of
        giving back one object after the other, and the spans in `released` went to the page heap. */
    method ReleaseListToSpans(start: nat, ghost xs: seq<nat>, ghost home: map<nat, nat>) returns (released: seq<nat>)
      requires Valid() && Chain(next, start, xs) && NoRepeats(xs) && xs == List(lists, RestBox(0))
      requires forall i: nat {:trigger BatchBox(0, i)} :: List(lists, BatchBox(0, i)) == []
      requires Known(xs, home, pmap) && CanReturn(Accounts(), SetOf(xs), home)
      modifies this`next, this`freeHead, this`useCount, this`bucket, this`lists, this`place, this`returned
      ensures Valid() && Accounts() == ReturnAll(old(Accounts()), xs, home)
      ensures returned == old(returned) + SetOf(released) && List(lists, RestBox(0)) == []
    {
      hide Boxes, Linked, Chain, List, AccountsOf, IsPending, Progress, BatsOk, SetOf, CanReturn, NoRepeats, ReturnAll, Known, CacheGood;
      ghost var c0, pending := Accounts(), SetOf(xs);
      StartProgress(c0, pending, home);
      StartPending(lists, xs);
      StartBats(next, home, lists, xs, pmap);
      released := [];
      EmptySet();
      var bats: seq<Bat> := [];
      var cur, lastId, lastSpan := start, 0, 0;
      ghost var left := xs;
      var some;
      while cur != 0
        invariant Valid() && BatsOk(next, home, lists, bats, 0) && Chain(next, cur, left) && left == List(lists, RestBox(0))
        invariant IsPending(lists, pending) && Progress(Accounts(), c0, SetOf(xs), pending, home)
        invariant returned == old(returned) + SetOf(released) && pmap == old(pmap)
        invariant Known(left, home, pmap) && CacheGood(left, home, lastId, lastSpan)
        decreases |left|
      {
        bats, cur, lastId, lastSpan, some, pending := Turn(bats, cur, lastId, lastSpan, left, home, c0, SetOf(xs), pending);
        SetOfAppend(old(returned), released, some);
        released := released + some;
        left := left[1..];
      }
      ChainEnd(next, left);
      some, pending := FlushBatches(bats, home, cur, c0, SetOf(xs), pending);
      SetOfAppend(old(returned), released, some);
      released := released + some;
      NothingPending(next, home, lists, pending);
      EndProgress(Accounts(), c0, xs, home);
    }

    /** The loop of `FetchRangeObj`. */
    method WalkRun(id: nat, n: nat) returns (start: nat, end: nat, actualNum: nat)
      requires Valid() && id in freeHead && List(lists, SpanBox(id)) != [] && n > 0
      ensures var l := List(lists, SpanBox(id)); actualNum == Min(n, |l|) && start == l[0] == freeHead[id] && end == l[actualNum - 1]
    {
      ghost var l := List(lists, SpanBox(id));
      ListOnce(lists, place, SpanBox(id));
      start := freeHead[id];
      end := start;
      actualNum := 1;
      while actualNum < n && next[end] != 0
        invariant 1 <= actualNum <= n && actualNum <= |l| && end == l[actualNum - 1]
      {
        assert next[l[actualNum - 1]] == After(l, actualNum - 1);
        end := next[end];
        actualNum := actualNum + 1;
      }
      assert next[l[actualNum - 1]] == After(l, actualNum - 1);
    }

    /** The extraction in `FetchRangeObj`: walks the free list of span `id`, which has an object, for up to
        `n` objects, cuts them off as a list of their own and counts them as out. */
    method TakeRun(id: nat, n: nat) returns (start: nat, end: nat, actualNum: nat)
      requires Valid() && id in freeHead && List(lists, SpanBox(id)) != [] && n > 0 && List(lists, RestBox(0)) == []
      modifies this`next, this`freeHead, this`useCount, this`lists, this`place
      ensures Valid() && actualNum == Min(n, |old(List(lists, SpanBox(id)))|)
      ensures var l := old(List(lists, SpanBox(id)));
              && List(lists, RestBox(0)) == l[..actualNum] && List(lists, SpanBox(id)) == l[actualNum..]
              && Chain(next, start, l[..actualNum]) && end == l[actualNum - 1]
      ensures useCount == old(useCount)[id := old(useCount)[id] + actualNum]
      ensures forall x | x != id :: List(lists, SpanBox(x)) == old(List(lists, SpanBox(x)))
    {
      hide Boxes, Linked, Chain, List, Move, Relocate;
      ghost var l := List(lists, SpanBox(id));
      start, end, actualNum := WalkRun(id, n);
      TakenBoxes(next, freeHead, lists, place, id, actualNum);
      freeHead := freeHead[id := next[end]];
      next := next[end := 0];
      useCount := useCount[id := useCount[id] + actualNum];
      lists, place := Move(lists, SpanBox(id), actualNum, RestBox(0)), Relocate(place, l[..actualNum], In(RestBox(0)));
    }
  }
}
