/** KzAlloc/PageMap.h, the 64-bit layout: a radix tree of three levels from page numbers to spans; null
    is 0. Tables are parts of their nodes. The system may refuse memory for a node, which `oom` says
    of each. The lock around growth only keeps two threads from making the same node, so that a
    call is one step. */
module PageMap {

  const LEN_ROOT: nat := 4096
  const LEN_INTERNAL: nat := 4096
  const LEN_LEAF: nat := 2048
  const PAGES: nat := LEN_ROOT * LEN_INTERNAL * LEN_LEAF

  function RootOf(id: nat): nat { id / (LEN_INTERNAL * LEN_LEAF) }

  function InternalOf(id: nat): nat { id / LEN_LEAF % LEN_INTERNAL }

  function LeafOf(id: nat): nat { id % LEN_LEAF }

  /** The three indices take a page number apart without losing anything. */
  lemma IndicesNamePage(id: nat)
    ensures (RootOf(id) * LEN_INTERNAL + InternalOf(id)) * LEN_LEAF + LeafOf(id) == id
    ensures RootOf(id) < LEN_ROOT <==> id < PAGES
    ensures InternalOf(id) < LEN_INTERNAL && LeafOf(id) < LEN_LEAF
  {
    var leaf := id / LEN_LEAF;
    assert leaf / LEN_INTERNAL == RootOf(id);
  }

  /** Pages share a leaf node exactly if they agree in the first two indices. */
  lemma SameLeaf(p: nat, q: nat)
    ensures p / LEN_LEAF == q / LEN_LEAF <==> RootOf(p) == RootOf(q) && InternalOf(p) == InternalOf(q)
  {
    IndicesNamePage(p);
    IndicesNamePage(q);
  }

  /** `root` and `internal` are history: where in the tree the node hangs. */
  class Leaf {
    var values: seq<nat>
    ghost const root: nat
    ghost const internal: nat

    constructor (ghost r: nat, ghost i: nat)
      ensures |values| == LEN_LEAF && (forall j | 0 <= j < LEN_LEAF :: values[j] == 0) && root == r && internal == i
    {
      values := seq(LEN_LEAF, _ => 0);
      root, internal := r, i;
    }
  }

  class Internal {
    var leafs: seq<Leaf?>
    ghost const root: nat

    constructor (ghost r: nat)
      ensures |leafs| == LEN_INTERNAL && (forall i | 0 <= i < LEN_INTERNAL :: leafs[i] == null) && root == r
    {
      leafs := seq(LEN_INTERNAL, _ => null);
      root := r;
    }
  }

  class PageMap {
    var root: seq<Internal?>
    ghost var Repr: set<object>

    ghost predicate Valid()
      reads this, Repr
    {
      && this in Repr && |root| == LEN_ROOT
      && (forall r | 0 <= r < LEN_ROOT && root[r] != null ::
           root[r] in Repr && |root[r].leafs| == LEN_INTERNAL && root[r].root == r)
      && (forall r, i | 0 <= r < LEN_ROOT && root[r] != null && 0 <= i < LEN_INTERNAL && root[r].leafs[i] != null ::
           LeafValid(root[r].leafs[i], r, i))
    }

    ghost predicate LeafValid(leaf: Leaf, r: nat, i: nat)
      reads this, Repr
    {
      leaf in Repr && |leaf.values| == LEN_LEAF && leaf.root == r && leaf.internal == i
    }

    constructor ()
      ensures Valid() && fresh(Repr)
      ensures forall id: nat :: Get(id) == 0 && !HasLeaf(id)
    {
      root := seq(LEN_ROOT, _ => null);
      Repr := {this};
    }

    predicate HasInternal(id: nat)
      requires Valid()
      reads this, Repr
    {
      RootOf(id) < LEN_ROOT && root[RootOf(id)] != null
    }

    predicate HasLeaf(id: nat)
      requires Valid()
      reads this, Repr
    {
      IndicesNamePage(id);
      HasInternal(id) && root[RootOf(id)].leafs[InternalOf(id)] != null
    }

    /** `get`: null on every page beyond the range or without nodes. */
    function Get(id: nat): (span: nat)
      requires Valid()
      reads this, Repr
      ensures !HasLeaf(id) ==> span == 0
    {
      IndicesNamePage(id);
      var iRoot := RootOf(id);
      if iRoot >= LEN_ROOT then 0
      else
        var rootNode := root[iRoot];
        if rootNode == null then 0
        else
          var leafNode := rootNode.leafs[InternalOf(id)];
          if leafNode == null then 0 else leafNode.values[LeafOf(id)]
    }

    method EnsureRoot(index: nat, oom: bool) returns (ok: bool)
      requires Valid()
      modifies this
      ensures Valid() && fresh(Repr - old(Repr))
      ensures ok <==> index < LEN_ROOT && (old(root[index]) != null || !oom)
      ensures ok ==> root[index] != null
      ensures forall p: nat :: Get(p) == old(Get(p)) && HasLeaf(p) == old(HasLeaf(p))
    {
      if index >= LEN_ROOT {
        return false;
      }
      if root[index] == null {
        if oom {
          return false;
        }
        var node := new Internal(index);
        root := root[index := node];
        Repr := Repr + {node};
      }
      return true;
    }

    method EnsureInternal(iRoot: nat, iInternal: nat, oom: bool) returns (ok: bool)
      requires Valid() && iRoot < LEN_ROOT && iInternal < LEN_INTERNAL && root[iRoot] != null
      modifies this, root[iRoot]
      ensures Valid() && fresh(Repr - old(Repr)) && root == old(root)
      ensures ok <==> old(root[iRoot].leafs[iInternal]) != null || !oom
      ensures ok ==> root[iRoot].leafs[iInternal] != null
      ensures forall p: nat :: Get(p) == old(Get(p))
      ensures forall p: nat :: HasLeaf(p) == (old(HasLeaf(p)) || (ok && RootOf(p) == iRoot && InternalOf(p) == iInternal))
    {
      var rootNode := root[iRoot];
      if rootNode.leafs[iInternal] == null {
        if oom {
          return false;
        }
        var node := new Leaf(iRoot, iInternal);
        rootNode.leafs := rootNode.leafs[iInternal := node];
        Repr := Repr + {node};
      }
      return true;
    }

    /** `set`: the tree is the flat map with one entry changed, and the page now has a leaf; or, when a
        node is missing and cannot be had, the flat map is as it was. A page with a leaf cannot fail. */
    method Set(id: nat, span: nat, oomRoot: bool, oomLeaf: bool) returns (ok: bool)
      requires Valid()
      modifies Repr
      ensures Valid() && fresh(Repr - old(Repr))
      ensures ok <==> id < PAGES && (old(HasInternal(id)) || !oomRoot) && (old(HasLeaf(id)) || !oomLeaf)
      ensures forall p: nat :: Get(p) == if ok && p == id then span else old(Get(p))
      ensures forall p: nat :: HasLeaf(p) == (old(HasLeaf(p)) || (ok && p / LEN_LEAF == id / LEN_LEAF))
    {
      IndicesNamePage(id);
      var iRoot, iInternal, iLeaf := RootOf(id), InternalOf(id), LeafOf(id);
      ok := EnsureRoot(iRoot, oomRoot);
      if !ok {
        return;
      }
      ok := EnsureInternal(iRoot, iInternal, oomLeaf);
      if !ok {
        return;
      }
      forall p: nat
        ensures p / LEN_LEAF == id / LEN_LEAF <==> RootOf(p) == iRoot && InternalOf(p) == iInternal
        ensures p == id <==> RootOf(p) == iRoot && InternalOf(p) == iInternal && LeafOf(p) == iLeaf
      {
        SameLeaf(p, id);
        IndicesNamePage(p);
      }
      var leafNode := root[iRoot].leafs[iInternal];
      leafNode.values := leafNode.values[iLeaf := span];
    }
  }
}
