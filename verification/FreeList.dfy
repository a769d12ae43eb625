/** Singly linked lists through the first words of free objects, and the per-thread list of
    KzAlloc/ThreadCache.h built on them, updated in place. `next` is the memory those words are in. */
module FreeList {
  import opened Lists

  /** What follows element `i`, or null. */
  function After(xs: seq<nat>, i: nat): nat { if i + 1 < |xs| then xs[i + 1] else 0 }

  /** Following the links from `head` visits `xs` and then ends. */
  ghost predicate Chain(next: map<nat, nat>, head: nat, xs: seq<nat>) {
    && head == (if xs == [] then 0 else xs[0])
    && (forall i: nat | i < |xs| :: xs[i] != 0 && xs[i] in next)
    && (forall i: nat {:trigger next[xs[i]]} | i < |xs| :: next[xs[i]] == After(xs, i))
  }

  lemma ChainFrame(next: map<nat, nat>, head: nat, xs: seq<nat>, a: nat, v: nat)
    requires Chain(next, head, xs) && a !in xs
    ensures Chain(next[a := v], head, xs)
  {
  }

  lemma ChainPush(next: map<nat, nat>, head: nat, xs: seq<nat>, a: nat)
    requires Chain(next, head, xs) && a !in xs && a != 0
    ensures Chain(next[a := head], a, [a] + xs)
  {
    var ys, next' := [a] + xs, next[a := head];
    forall i: nat | i < |ys|
      ensures ys[i] != 0 && ys[i] in next' && next'[ys[i]] == After(ys, i)
    {
      if i > 0 {
        assert ys[i] == xs[i - 1] && next[xs[i - 1]] == After(xs, i - 1);
      }
    }
  }

  lemma ChainTail(next: map<nat, nat>, head: nat, xs: seq<nat>)
    requires Chain(next, head, xs) && xs != []
    ensures head == xs[0] && head in next && Chain(next, next[head], xs[1..])
  {
    var ys := xs[1..];
    assert next[xs[0]] == After(xs, 0);
    forall i: nat | i < |ys|
      ensures ys[i] != 0 && ys[i] in next && next[ys[i]] == After(ys, i)
    {
      assert next[xs[i + 1]] == After(xs, i + 1);
    }
  }

  lemma ChainEnds(next: map<nat, nat>, head: nat, xs: seq<nat>)
    requires Chain(next, head, xs)
    ensures (head == 0 <==> xs == []) && (xs != [] ==> head == xs[0])
  {
  }

  /** Cutting a chain after `k` elements. */
  lemma ChainCut(next: map<nat, nat>, head: nat, xs: seq<nat>, k: nat)
    requires Chain(next, head, xs) && 0 < k <= |xs| && NoRepeats(xs)
    ensures xs[k - 1] in next && Chain(next, next[xs[k - 1]], xs[k..]) && Chain(next[xs[k - 1] := 0], next[xs[k - 1]], xs[k..])
    ensures Chain(next[xs[k - 1] := 0], head, xs[..k])
  {
    var ys, zs, end := xs[..k], xs[k..], xs[k - 1];
    assert next[xs[k - 1]] == After(xs, k - 1);
    forall i: nat | i < |ys|
      ensures ys[i] != 0 && ys[i] in next && next[end := 0][ys[i]] == After(ys, i)
    {
      assert next[xs[i]] == After(xs, i);
    }
    forall i: nat | i < |zs|
      ensures zs[i] != 0 && zs[i] in next && zs[i] != end && next[zs[i]] == After(zs, i)
    {
      assert next[xs[k + i]] == After(xs, k + i);
    }
  }

  /** Joining two chains by the last link of the first. */
  lemma ChainJoin(next: map<nat, nat>, head: nat, xs: seq<nat>, head': nat, ys: seq<nat>)
    requires xs != [] && NoRepeats(xs) && Chain(next, head', ys) && xs[|xs| - 1] !in ys
    requires head == xs[0] && forall i: nat | i < |xs| :: xs[i] != 0 && xs[i] in next
    requires forall i: nat {:trigger next[xs[i]]} | i + 1 < |xs| :: next[xs[i]] == After(xs, i)
    ensures Chain(next[xs[|xs| - 1] := head'], head, xs + ys)
  {
    var zs, last := xs + ys, xs[|xs| - 1];
    forall i: nat | i < |zs|
      ensures zs[i] != 0 && zs[i] in next && next[last := head'][zs[i]] == After(zs, i)
    {
      if i < |xs| {
        assert zs[i] == xs[i];
        if i + 1 < |xs| {
          assert next[xs[i]] == After(xs, i) && xs[i] != last;
        }
      } else {
        assert zs[i] == ys[i - |xs|] && next[ys[i - |xs|]] == After(ys, i - |xs|);
      }
    }
  }

  lemma LastIsThere(next: map<nat, nat>, head: nat, xs: seq<nat>)
    requires Chain(next, head, xs)
    ensures xs != [] ==> xs[|xs| - 1] != 0
  {
  }

  lemma JoinedOnce(xs: seq<nat>, ys: seq<nat>)
    requires NoRepeats(xs) && NoRepeats(ys) && forall a | a in xs :: a !in ys
    ensures NoRepeats(xs + ys)
  {
    assert forall i, j | 0 <= i < |xs| && |xs| <= j < |xs + ys| :: (xs + ys)[i] in xs && (xs + ys)[j] == ys[j - |xs|];
  }

  class Memory {
    var next: map<nat, nat>
  }

  /** `objs` is history: the objects on the list from front to back. */
  class FreeList {
    const mem: Memory
    var head: nat
    var tail: nat
    var size: nat
    var maxSize: nat
    var maxNum: nat
    ghost var objs: seq<nat>

    ghost predicate Valid()
      reads this, mem
    {
      && Chain(mem.next, head, objs) && NoRepeats(objs)
      && tail == (if objs == [] then 0 else objs[|objs| - 1]) && size == |objs|
    }

    constructor (memory: Memory, limit: nat)
      ensures Valid() && mem == memory && objs == [] && maxSize == 1 && maxNum == limit
    {
      mem, head, tail, size, maxSize, maxNum := memory, 0, 0, 0, 1, limit;
      objs := [];
    }

    predicate Empty()
      requires Valid()
      reads this, mem
      ensures Empty() <==> objs == []
    {
      head == 0
    }

    method Push(obj: nat)
      requires Valid() && obj != 0 && obj !in objs
      modifies this, mem
      ensures Valid() && objs == [obj] + old(objs) && mem.next == old(mem.next)[obj := old(head)]
      ensures maxSize == old(maxSize) && maxNum == old(maxNum)
    {
      ChainPush(mem.next, head, objs, obj);
      mem.next := mem.next[obj := head];
      head := obj;
      if tail == 0 {
        tail := obj;
      }
      size := size + 1;
      objs := [obj] + objs;
    }

    method Pop() returns (obj: nat)
      requires Valid() && objs != []
      modifies this
      ensures Valid() && obj == old(objs)[0] && objs == old(objs)[1..]
      ensures maxSize == old(maxSize) && maxNum == old(maxNum)
    {
      ChainTail(mem.next, head, objs);
      TailHasNoRepeats(objs);
      obj := head;
      head := mem.next[head];
      if head == 0 {
        tail := 0;
      }
      size := size - 1;
      objs := objs[1..];
    }

    /** `xs` are the objects from `start` to `end`, which are linked up to `end`. */
    method PushRange(start: nat, end: nat, n: nat, ghost xs: seq<nat>)
      requires Valid() && xs != [] && NoRepeats(xs) && (forall a | a in xs :: a !in objs) && n == |xs|
      requires start == xs[0] && end == xs[|xs| - 1] && forall i: nat | i < |xs| :: xs[i] != 0 && xs[i] in mem.next
      requires forall i: nat {:trigger mem.next[xs[i]]} | i + 1 < |xs| :: mem.next[xs[i]] == After(xs, i)
      modifies this, mem
      ensures Valid() && objs == xs + old(objs) && mem.next == old(mem.next)[end := old(head)]
      ensures maxSize == old(maxSize) && maxNum == old(maxNum)
    {
      hide Chain, NoRepeats;
      assert end in xs;
      ChainJoin(mem.next, start, xs, head, objs);
      LastIsThere(mem.next, head, objs);
      JoinedOnce(xs, objs);
      mem.next := mem.next[end := head];
      head := start;
      if tail == 0 {
        tail := end;
      }
      size := size + n;
      objs := xs + objs;
    }

    /** The loop of `PopRange`. */
    method Walk(n: nat) returns (end: nat)
      requires Valid() && 0 < n <= |objs|
      ensures end == objs[n - 1]
    {
      end := head;
      var i := 0;
      while i < n - 1
        invariant i <= n - 1 && end == objs[i]
      {
        assert mem.next[objs[i]] == After(objs, i);
        end := mem.next[end];
        i := i + 1;
      }
    }

    /** Walks to the `n`-th object and cuts the list behind it. */
    method PopRange(n: nat) returns (start: nat, end: nat)
      requires Valid() && 0 < n <= |objs|
      modifies this, mem
      ensures Valid() && objs == old(objs)[n..]
      ensures start == old(objs)[0] && end == old(objs)[n - 1] && Chain(mem.next, start, old(objs)[..n])
      ensures mem.next == old(mem.next)[end := 0]
      ensures maxSize == old(maxSize) && maxNum == old(maxNum)
    {
      hide NoRepeats, Chain;
      start := head;
      end := Walk(n);
      ChainCut(mem.next, head, objs, n);
      RestHasNoRepeats(objs, n);
      ChainEnds(mem.next, head, objs);
      ChainEnds(mem.next, mem.next[end], objs[n..]);
      head := mem.next[end];
      mem.next := mem.next[end := 0];
      if head == 0 {
        tail := 0;
      }
      size := size - n;
      objs := objs[n..];
    }
  }
}
