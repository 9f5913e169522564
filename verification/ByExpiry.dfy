/** Binary-heap order on a sequence of keys, with at most one edge out of order. */
module HeapOrder {
  function Par(k: int): int { (k - 1) / 2 }

  predicate Edge(s: seq<int>, k: int)
    requires 0 < k < |s|
  {
    s[Par(k)] <= s[k]
  }

  /** The first n keys are in order but perhaps for the edge into j. */
  predicate OrderedBut(s: seq<int>, n: int, j: int)
    requires n <= |s|
  {
    forall k {:trigger Edge(s, k)} :: 0 < k < n && k != j ==> Edge(s, k)
  }

  /** The first n keys are in order but perhaps for the edges out of j and the edge into top. */
  predicate OrderedButBelow(s: seq<int>, n: int, j: int, top: int)
    requires n <= |s|
  {
    forall k {:trigger Edge(s, k)} :: 0 < k < n && Par(k) != j && k != top ==> Edge(s, k)
  }

  /** j's children are no smaller than j's parent. */
  predicate Bridged(s: seq<int>, n: int, j: int)
    requires n <= |s|
  {
    forall k {:trigger s[k]} :: 0 < k < n && Par(k) == j && j > 0 && j < n ==> s[Par(j)] <= s[k]
  }

  predicate Ordered(s: seq<int>) {
    forall k {:trigger Edge(s, k)} :: 0 < k < |s| ==> Edge(s, k)
  }

  lemma {:induction false} RootIsMin(s: seq<int>, i: int)
    requires Ordered(s) && 0 <= i < |s|
    ensures s[0] <= s[i]
  {
    if i > 0 {
      RootIsMin(s, Par(i));
      assert Edge(s, i);
    }
  }

  function Swapped(s: seq<int>, i: int, j: int): seq<int>
    requires 0 <= i < |s| && 0 <= j < |s|
  {
    s[i := s[j]][j := s[i]]
  }

  lemma UpStep(s: seq<int>, n: int, j: int)
    requires 0 < j < n <= |s| && OrderedBut(s, n, j) && Bridged(s, n, j)
    requires s[j] < s[Par(j)]
    ensures OrderedBut(Swapped(s, Par(j), j), n, Par(j)) && Bridged(Swapped(s, Par(j), j), n, Par(j))
  {
    var i := Par(j);
    var t := Swapped(s, i, j);
    forall k | 0 < k < n && k != i ensures Edge(t, k) {
      if k != j { assert Edge(s, k); }
    }
    forall k | 0 < k < n && Par(k) == i && i > 0 ensures t[Par(i)] <= t[k] {
      assert Edge(s, i);
      if k != j { assert Edge(s, k); }
    }
  }

  predicate LeastChild(s: seq<int>, n: int, i: int, j: int)
    requires n <= |s|
  {
    && 0 <= i < j < n
    && Par(j) == i
    && (2 * i + 1 < n ==> s[j] <= s[2 * i + 1])
    && (2 * i + 2 < n ==> s[j] <= s[2 * i + 2])
  }

  lemma Childless(s: seq<int>, n: int, i: int, top: int)
    requires n <= |s| && 0 <= i && 2 * i + 1 >= n
    requires OrderedButBelow(s, n, i, top)
    ensures OrderedBut(s, n, top)
  {
    forall k | 0 < k < n && k != top ensures Edge(s, k) {
    }
  }

  lemma Settled(s: seq<int>, n: int, i: int, j: int, top: int)
    requires n <= |s| && LeastChild(s, n, i, j) && s[i] <= s[j]
    requires OrderedButBelow(s, n, i, top)
    ensures OrderedBut(s, n, top)
  {
    forall k | 0 < k < n && k != top ensures Edge(s, k) {
      if Par(k) == i {
        assert k == 2 * i + 1 || k == 2 * i + 2;
      }
    }
  }

  lemma DownStep(s: seq<int>, n: int, i: int, j: int, top: int)
    requires n <= |s| && LeastChild(s, n, i, j) && s[j] < s[i]
    requires OrderedButBelow(s, n, i, top) && Bridged(s, n, i) && (top == i || top == 0)
    ensures OrderedButBelow(Swapped(s, i, j), n, j, 0) && Bridged(Swapped(s, i, j), n, j)
  {
    var t := Swapped(s, i, j);
    forall k | 0 < k < n && Par(k) != j ensures Edge(t, k) {
      if Par(k) == i {
        assert k == 2 * i + 1 || k == 2 * i + 2;
      } else if k != i { assert Edge(s, k); }
    }
    forall k | 0 < k < n && Par(k) == j ensures t[Par(j)] <= t[k] {
      assert Edge(s, k);
    }
  }

  /** Putting the last key in position i and forgetting the last position leaves
      a heap but for the edges at i. */
  lemma Replaced(s: seq<int>, i: int)
    requires Ordered(s) && 0 <= i < |s| - 1
    ensures var t := Swapped(s, i, |s| - 1);
      OrderedButBelow(t, |s| - 1, i, i) && Bridged(t, |s| - 1, i)
  {
    var n := |s| - 1;
    var t := Swapped(s, i, n);
    forall k | 0 < k < n && Par(k) != i && k != i ensures Edge(t, k) {
      assert Edge(s, k);
    }
    forall k | 0 < k < n && Par(k) == i && i > 0 ensures t[Par(i)] <= t[k] {
      assert Edge(s, k) && Edge(s, i);
    }
  }
}

/** The expiry heap of the lock table: container/heap over a slice of nodes that
    know their own position in it. */
module ByExpiry {
  import opened HeapOrder

  /** The metadata a client gives for a lock; a negative duration means infinite. */
  datatype LockDetails = LockDetails(root: string, duration: int, ownerXML: string, zeroDepth: bool)

  class Node {
    var details: LockDetails
    var token: string
    var refCount: int
    var expiry: int
    var byExpiryIndex: int
    var held: bool

    constructor (root: string)
      ensures details == LockDetails(root, 0, "", false)
      ensures token == "" && refCount == 0 && byExpiryIndex == -1 && !held
    {
      details := LockDetails(root, 0, "", false);
      token, refCount, byExpiryIndex, held := "", 0, -1, false;
    }
  }

  class ExpiryHeap {
    var nodes: seq<Node>

    constructor ()
      ensures nodes == []
    {
      nodes := [];
    }

    ghost function Members(): set<Node>
      reads this
    {
      set x | x in nodes
    }

    /** Every node of the heap records its own index. */
    ghost predicate Indexed()
      reads this, nodes
    {
      forall i :: 0 <= i < |nodes| ==> nodes[i].byExpiryIndex == i
    }

    ghost function Keys(): (s: seq<int>)
      reads this, nodes
      ensures |s| == |nodes| && forall i :: 0 <= i < |s| ==> s[i] == nodes[i].expiry
    {
      seq(|nodes|, i requires 0 <= i < |nodes| reads this, nodes => nodes[i].expiry)
    }

    ghost predicate Valid()
      reads this, nodes
    {
      Indexed() && Ordered(Keys())
    }

    method Swap(i: int, j: int)
      requires 0 <= i < |nodes| && 0 <= j < |nodes| && Indexed()
      modifies `nodes, Members()`byExpiryIndex
      ensures Indexed() && nodes == old(nodes)[i := old(nodes)[j]][j := old(nodes)[i]]
      ensures Keys() == Swapped(old(Keys()), i, j)
      ensures Members() == old(Members())
    {
      nodes := nodes[i := nodes[j]][j := nodes[i]];
      nodes[i].byExpiryIndex := i;
      nodes[j].byExpiryIndex := j;
      forall x | x in old(nodes) ensures x in nodes {
        var k :| 0 <= k < |nodes| && old(nodes)[k] == x;
        assert nodes[if k == i then j else if k == j then i else k] == x;
      }
    }

    /** Moves the node at j0 towards the root; the first n entries are in order
        but for the edge into j0. */
    method Up(j0: int, ghost n: int)
      requires 0 <= j0 < n <= |nodes| && Indexed()
      requires OrderedBut(Keys(), n, j0) && Bridged(Keys(), n, j0)
      modifies `nodes, Members()`byExpiryIndex
      ensures Indexed() && |nodes| == |old(nodes)| && (n < |nodes| ==> nodes[n] == old(nodes)[n])
      ensures OrderedBut(Keys(), n, 0)
      ensures Members() == old(Members())
    {
      var j := j0;
      while true
        invariant 0 <= j < n <= |nodes| && Indexed()
        invariant |nodes| == |old(nodes)| && (n < |nodes| ==> nodes[n] == old(nodes)[n])
        invariant Members() == old(Members())
        invariant OrderedBut(Keys(), n, j) && Bridged(Keys(), n, j)
        decreases j
      {
        var i := if j == 0 then 0 else (j - 1) / 2;
        if i == j || !(nodes[j].expiry < nodes[i].expiry) {
          break;
        }
        UpStep(Keys(), n, j);
        Swap(i, j);
        j := i;
      }
      assert j > 0 ==> Edge(Keys(), j);
    }

    /** Moves the node at i0 towards the leaves of the first n entries; answers
        whether it moved. */
    method Down(i0: int, n: int) returns (moved: bool)
      requires 0 <= i0 < n <= |nodes| && Indexed()
      requires OrderedButBelow(Keys(), n, i0, i0) && Bridged(Keys(), n, i0)
      modifies `nodes, Members()`byExpiryIndex
      ensures Indexed() && |nodes| == |old(nodes)| && (n < |nodes| ==> nodes[n] == old(nodes)[n])
      ensures OrderedBut(Keys(), n, if moved then 0 else i0)
      ensures !moved ==> nodes == old(nodes)
      ensures Members() == old(Members())
    {
      var i := i0;
      while true
        invariant i0 <= i < n <= |nodes| && Indexed()
        invariant |nodes| == |old(nodes)| && (n < |nodes| ==> nodes[n] == old(nodes)[n])
        invariant i == i0 ==> nodes == old(nodes)
        invariant Members() == old(Members())
        invariant OrderedButBelow(Keys(), n, i, if i > i0 then 0 else i0) && Bridged(Keys(), n, i)
        decreases n - i
      {
        var j1 := 2 * i + 1;
        if j1 >= n {
          Childless(Keys(), n, i, if i > i0 then 0 else i0);
          break;
        }
        var j := j1;
        if j1 + 1 < n && nodes[j1 + 1].expiry < nodes[j1].expiry {
          j := j1 + 1;
        }
        if !(nodes[j].expiry < nodes[i].expiry) {
          Settled(Keys(), n, i, j, if i > i0 then 0 else i0);
          break;
        }
        DownStep(Keys(), n, i, j, if i > i0 then 0 else i0);
        Swap(i, j);
        i := j;
      }
      moved := i > i0;
    }

    method Push(x: Node)
      requires Valid() && x !in nodes
      modifies `nodes, Members()`byExpiryIndex, x`byExpiryIndex
      ensures Valid()
      ensures Members() == old(Members()) + {x} && x in nodes
    {
      ghost var was := Keys();
      x.byExpiryIndex := |nodes|;
      nodes := nodes + [x];
      forall k | 0 < k < |nodes| - 1 ensures Edge(Keys(), k) {
        assert Edge(was, k);
      }
      assert x in Members();
      Up(|nodes| - 1, |nodes|);
    }

    method Pop() returns (x: Node)
      requires |nodes| > 0 && Indexed()
      requires OrderedBut(Keys(), |nodes| - 1, 0)
      modifies `nodes, Members()`byExpiryIndex
      ensures Valid()
      ensures x == old(nodes)[|old(nodes)| - 1] && x.byExpiryIndex == -1 && x !in nodes
      ensures Members() == old(Members()) - {x}
    {
      ghost var was := Keys();
      ghost var full := nodes;
      var i := |nodes| - 1;
      x := nodes[i];
      x.byExpiryIndex := -1;
      nodes := nodes[..i];
      assert full == nodes + [x];
      forall k | 0 < k < |nodes| ensures Edge(Keys(), k) {
        assert Edge(was, k);
      }
    }

    /** Restores the order of the first n entries when only the edges at i may be broken. */
    method Fix(i: int, n: int)
      requires 0 <= i < n <= |nodes| && Indexed()
      requires OrderedButBelow(Keys(), n, i, i) && Bridged(Keys(), n, i)
      modifies `nodes, Members()`byExpiryIndex
      ensures Indexed() && |nodes| == |old(nodes)| && (n < |nodes| ==> nodes[n] == old(nodes)[n])
      ensures OrderedBut(Keys(), n, 0)
      ensures Members() == old(Members())
    {
      var moved := Down(i, n);
      if !moved {
        Up(i, n);
      }
    }

    /** Removes the node at index i, wherever that is in the heap. */
    method Remove(i: int) returns (x: Node)
      requires 0 <= i < |nodes| && Valid()
      modifies `nodes, Members()`byExpiryIndex
      ensures Valid()
      ensures x == old(nodes)[i] && x.byExpiryIndex == -1 && x !in nodes
      ensures Members() == old(Members()) - {x}
    {
      var n := |nodes| - 1;
      if n != i {
        Replaced(Keys(), i);
        Swap(i, n);
        Fix(i, n);
      }
      x := Pop();
    }
  }
}
