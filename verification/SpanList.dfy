/** KzAlloc/Span.h: the circular doubly linked list of spans with its sentinel, whose links are rewritten
    in place. `nodes` is history: the spans on the list from front to back. */
module SpanList {
  import opened Lists

  class Span {
    var next: Span?
    var prev: Span?

    constructor ()
      ensures next == null && prev == null
    {
      next, prev := null, null;
    }

    /** `Span::Remove`, which knows only the span itself; `list` is the list it is on. */
    method Remove(ghost list: SpanList)
      requires list.Valid() && this in list.nodes
      modifies list, list.Objects()
      ensures list.Valid() && list.nodes == Without(old(list.nodes), this)
      ensures next == null && prev == null
    {
      ghost var k :| 0 <= k < |list.nodes| && list.nodes[k] == this;
      list.LinksAt(k);
      list.LinksAt(k + 1);
      list.Apart(k);
      prev.next := next;
      next.prev := prev;
      prev := null;
      next := null;
      WithoutAt(list.nodes, k);
      list.nodes := list.nodes[..k] + list.nodes[k + 1..];
      list.CutLinks(k);
    }
  }

  class SpanList {
    const head: Span
    ghost var nodes: seq<Span>

    ghost function Objects(): set<object>
      reads this
    {
      {head} + set x | x in nodes
    }

    /** What comes before, and what is at, position `i`, where the sentinel is at both ends. */
    ghost function Before(i: nat): Span
      requires i <= |nodes|
      reads this
    {
      if i == 0 then head else nodes[i - 1]
    }

    ghost function At(i: nat): Span
      requires i <= |nodes|
      reads this
    {
      if i == |nodes| then head else nodes[i]
    }

    ghost predicate Valid()
      reads this, Objects()
    {
      && head !in nodes && NoRepeats(nodes)
      && forall i: nat | i <= |nodes| :: Before(i).next == At(i) && At(i).prev == Before(i)
    }

    constructor ()
      ensures Valid() && nodes == [] && fresh(head)
    {
      var sentinel := new Span();
      head := sentinel;
      nodes := [];
      new;
      head.next := head;
      head.prev := head;
    }

    lemma LinksAt(i: nat)
      requires Valid() && i <= |nodes|
      ensures Before(i).next == At(i) && At(i).prev == Before(i)
    {
    }

    predicate Empty()
      requires Valid()
      reads this, Objects()
      ensures Empty() <==> nodes == []
    {
      LinksAt(0);
      head.next == head
    }

    /** The neighbours of element `k` are neither it nor, on the same side, neighbours of another. */
    lemma Apart(k: nat)
      requires Valid() && k < |nodes|
      ensures nodes[k] != Before(k) && nodes[k] != At(k + 1)
      ensures forall i: nat | i <= |nodes| && i != k :: Before(i) != Before(k)
      ensures forall i: nat | i <= |nodes| && i != k + 1 :: At(i) != At(k + 1)
      ensures forall i: nat | i <= |nodes| && i != k + 1 :: Before(i) != nodes[k]
      ensures forall i: nat | i <= |nodes| && i != k :: At(i) != nodes[k]
    {
    }

    /** After the two links around element `k` are joined, the others are as good as before. */
    twostate lemma CutLinks(k: nat)
      requires old(Valid()) && k < |old(nodes)| && nodes == old(nodes)[..k] + old(nodes)[k + 1..]
      requires old(Before(k)).next == old(At(k + 1)) && old(At(k + 1)).prev == old(Before(k))
      requires forall i: nat | i <= |old(nodes)| && i != k && i != k + 1 :: old(Before(i)).next == old(Before(i).next)
      requires forall i: nat | i <= |old(nodes)| && i != k && i != k + 1 :: old(At(i)).prev == old(At(i).prev)
      ensures Valid()
    {
      forall i: nat | i <= |nodes|
        ensures Before(i).next == At(i) && At(i).prev == Before(i)
      {
        if i < k {
          assert Before(i) == old(Before(i)) && At(i) == old(At(i));
        } else if i == k {
          assert Before(i) == old(Before(k)) && At(i) == old(At(k + 1));
        } else {
          assert Before(i) == old(Before(i + 1)) && At(i) == old(At(i + 1));
        }
      }
      forall i, j | 0 <= i < j < |nodes|
        ensures nodes[i] != nodes[j]
      {
        assert nodes[i] == old(nodes)[if i < k then i else i + 1] && nodes[j] == old(nodes)[if j < k then j else j + 1];
      }
    }

    method Erase(span: Span)
      requires Valid() && span in nodes
      modifies this, Objects()
      ensures Valid() && nodes == Without(old(nodes), span)
      ensures span.next == null && span.prev == null
    {
      ghost var k :| 0 <= k < |nodes| && nodes[k] == span;
      LinksAt(k);
      LinksAt(k + 1);
      Apart(k);
      var prev, next := span.prev, span.next;
      prev.next := next;
      next.prev := prev;
      span.prev := null;
      span.next := null;
      WithoutAt(nodes, k);
      nodes := nodes[..k] + nodes[k + 1..];
      CutLinks(k);
    }

    twostate lemma InsertLinks(k: nat, new span: Span)
      requires old(Valid()) && k <= |old(nodes)| && nodes == old(nodes)[..k] + [span] + old(nodes)[k..]
      requires span !in old(nodes) && span != head
      requires old(Before(k)).next == span && span.prev == old(Before(k)) && span.next == old(At(k)) && old(At(k)).prev == span
      requires forall i: nat | i <= |old(nodes)| && i != k :: old(Before(i)).next == old(Before(i).next)
      requires forall i: nat | i <= |old(nodes)| && i != k :: old(At(i)).prev == old(At(i).prev)
      ensures Valid()
    {
      forall i: nat | i <= |nodes|
        ensures Before(i).next == At(i) && At(i).prev == Before(i)
      {
        if i < k {
          assert Before(i) == old(Before(i)) && At(i) == old(At(i));
        } else if i == k {
          assert Before(i) == old(Before(k)) && At(i) == span;
        } else if i == k + 1 {
          assert Before(i) == span && At(i) == old(At(k));
        } else {
          assert Before(i) == old(Before(i - 1)) && At(i) == old(At(i - 1));
        }
      }
      forall i, j | 0 <= i < j < |nodes|
        ensures nodes[i] != nodes[j]
      {
        assert nodes[i] == if i < k then old(nodes)[i] else if i == k then span else old(nodes)[i - 1];
        assert nodes[j] == if j < k then old(nodes)[j] else if j == k then span else old(nodes)[j - 1];
      }
    }

    lemma Sides(k: nat)
      requires Valid() && k <= |nodes|
      ensures At(k).prev == Before(k) && Before(k).next == At(k)
      ensures forall i: nat | i <= |nodes| && i != k :: Before(i) != Before(k) && At(i) != At(k)
    {
    }

    /** In front of `pos`, which is on the list or its sentinel. */
    method Insert(pos: Span, span: Span, ghost k: nat)
      requires Valid() && k <= |nodes| && pos == At(k) && span !in nodes && span != head
      modifies this, Objects() + {span}
      ensures Valid() && nodes == old(nodes)[..k] + [span] + old(nodes)[k..]
    {
      Sides(k);
      var prev := pos.prev;
      prev.next := span;
      span.prev := prev;
      span.next := pos;
      pos.prev := span;
      nodes := nodes[..k] + [span] + nodes[k..];
      InsertLinks(k, span);
    }

    method PushFront(span: Span)
      requires Valid() && span !in nodes && span != head
      modifies this, Objects() + {span}
      ensures Valid() && nodes == [span] + old(nodes)
    {
      LinksAt(0);
      Insert(head.next, span, 0);
    }

    method PopFront() returns (front: Span?)
      requires Valid()
      modifies this, Objects()
      ensures Valid()
      ensures old(nodes) == [] ==> front == null && nodes == []
      ensures old(nodes) != [] ==> front == old(nodes)[0] && nodes == old(nodes)[1..]
    {
      LinksAt(0);
      if head.next == head {
        return null;
      }
      front := head.next;
      WithoutAt(nodes, 0);
      Erase(front);
    }
  }
}
