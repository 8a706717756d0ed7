/** The hand-rolled binary min-heap of the walk closure (`internal/schedule/buffer.go`). */
module WalkQueues {

  datatype WalkNode = WalkNode(stop: string, dist: int)

  function Parent(i: nat): nat
    requires i > 0
  {
    (i - 1) / 2
  }

  /** Heap order everywhere except, possibly, between `i` and its parent. */
  ghost predicate OrderedButAbove(q: seq<WalkNode>, i: int) {
    && (forall j :: 0 < j < |q| && j != i ==> q[Parent(j)].dist <= q[j].dist)
    && (forall j :: 0 < j < |q| && Parent(j) == i && i > 0 ==> q[Parent(i)].dist <= q[j].dist)
  }

  /** Heap order everywhere except, possibly, between `i` and its children. */
  ghost predicate OrderedButBelow(q: seq<WalkNode>, i: int) {
    && (forall j :: 0 < j < |q| && Parent(j) != i ==> q[Parent(j)].dist <= q[j].dist)
    && (forall j :: 0 < j < |q| && Parent(j) == i && i > 0 ==> q[Parent(i)].dist <= q[j].dist)
  }

  ghost predicate IsHeap(q: seq<WalkNode>) {
    forall j :: 0 < j < |q| ==> q[Parent(j)].dist <= q[j].dist
  }

  lemma {:induction false} RootIsLeast(q: seq<WalkNode>, i: nat)
    requires IsHeap(q) && i < |q|
    ensures q[0].dist <= q[i].dist
    decreases i
  {
    if i > 0 {
      RootIsLeast(q, Parent(i));
    }
  }

  lemma SwapKeepsEntries(q: seq<WalkNode>, i: nat, j: nat)
    requires i < |q| && j < |q|
    ensures multiset(q[i := q[j]][j := q[i]]) == multiset(q)
  {
  }

  lemma SwapUp(q: seq<WalkNode>, i: nat)
    requires 0 < i < |q| && OrderedButAbove(q, i) && q[Parent(i)].dist > q[i].dist
    ensures OrderedButAbove(q[i := q[Parent(i)]][Parent(i) := q[i]], Parent(i))
  {
    var p := Parent(i);
    var s := q[i := q[p]][p := q[i]];
    forall j | 0 < j < |s| && Parent(j) == p && p > 0
      ensures s[Parent(p)].dist <= s[j].dist
    {
      assert q[Parent(p)].dist <= q[p].dist;
      assert j != i ==> q[Parent(j)].dist <= q[j].dist;
    }
  }

  lemma SwapDown(q: seq<WalkNode>, i: nat, c: nat)
    requires c < |q| && c > 0 && Parent(c) == i && OrderedButBelow(q, i) && q[c].dist < q[i].dist
    requires forall j :: 0 < j < |q| && Parent(j) == i ==> q[c].dist <= q[j].dist
    ensures OrderedButBelow(q[i := q[c]][c := q[i]], c)
  {
    var s := q[i := q[c]][c := q[i]];
    forall j | 0 < j < |s| && Parent(j) != c
      ensures s[Parent(j)].dist <= s[j].dist
    {
      if Parent(j) == i {
      } else if j == i {
        assert q[Parent(i)].dist <= q[c].dist;
      } else {
        assert q[Parent(j)].dist <= q[j].dist;
      }
    }
    forall j | 0 < j < |s| && Parent(j) == c
      ensures s[Parent(c)].dist <= s[j].dist
    {
      assert q[Parent(j)].dist <= q[j].dist;
    }
  }

  class WalkQueue {
    var q: seq<WalkNode>

    constructor ()
      ensures q == []
    {
      q := [];
    }

    method Clear()
      modifies this
      ensures q == []
    {
      q := [];
    }

    method Push(n: WalkNode)
      requires IsHeap(q)
      modifies this
      ensures IsHeap(q) && multiset(q) == multiset(old(q)) + multiset{n}
    {
      q := q + [n];
      var i := |q| - 1;
      while i > 0
        invariant 0 <= i < |q| && OrderedButAbove(q, i)
        invariant multiset(q) == multiset(old(q)) + multiset{n}
      {
        var parent := (i - 1) / 2;
        if q[parent].dist <= q[i].dist {
          break;
        }
        SwapUp(q, i);
        SwapKeepsEntries(q, i, parent);
        q := q[i := q[parent]][parent := q[i]];
        i := parent;
      }
    }

    method Pop() returns (top: WalkNode)
      requires IsHeap(q) && |q| > 0
      modifies this
      ensures IsHeap(q) && multiset(old(q)) == multiset(q) + multiset{top}
      ensures forall n :: n in old(q) ==> top.dist <= n.dist
    {
      RootIsLeastOfAll(q);
      top := q[0];
      TakeTop(q);
      q := q[0 := q[|q| - 1]][..|q| - 1];
      SiftDown();
    }

    /** Restore heap order from the root downwards. */
    method SiftDown()
      requires OrderedButBelow(q, 0)
      modifies this
      ensures IsHeap(q) && multiset(q) == multiset(old(q))
    {
      var i := 0;
      while true
        invariant 0 <= i && (i < |q| || |q| == 0) && OrderedButBelow(q, i)
        invariant multiset(q) == multiset(old(q))
        decreases |q| - i
      {
        var smallest := Smallest(q, i);
        if smallest == i {
          NothingBelow(q, i);
          break;
        }
        SwapDown(q, i, smallest);
        SwapKeepsEntries(q, i, smallest);
        q := q[i := q[smallest]][smallest := q[i]];
        i := smallest;
      }
    }
  }

  /** The least of an entry and its two children. */
  function Smallest(q: seq<WalkNode>, i: nat): (c: nat)
    ensures c == i || (i < c < |q| && Parent(c) == i && i < |q| && q[c].dist < q[i].dist)
    ensures i < |q| ==> c < |q| && forall j :: 0 < j < |q| && Parent(j) == i ==> q[c].dist <= q[j].dist
  {
    var left, right := 2 * i + 1, 2 * i + 2;
    assert forall j :: 0 < j && Parent(j) == i ==> j == left || j == right;
    var s := if left < |q| && q[left].dist < q[i].dist then left else i;
    if right < |q| && q[right].dist < q[s].dist then right else s
  }

  lemma NothingBelow(q: seq<WalkNode>, i: nat)
    requires OrderedButBelow(q, i) && Smallest(q, i) == i && (i < |q| || |q| == 0)
    ensures IsHeap(q)
  {
  }

  lemma RootIsLeastOfAll(q: seq<WalkNode>)
    requires IsHeap(q) && |q| > 0
    ensures forall n :: n in q ==> q[0].dist <= n.dist
  {
    forall n | n in q
      ensures q[0].dist <= n.dist
    {
      var i :| 0 <= i < |q| && q[i] == n;
      RootIsLeast(q, i);
    }
  }

  /** Moving the last entry to the front and shrinking removes exactly the old front. */
  lemma TakeTop(q: seq<WalkNode>)
    requires |q| > 0 && IsHeap(q)
    ensures var r := q[0 := q[|q| - 1]][..|q| - 1];
            OrderedButBelow(r, 0) && multiset(q) == multiset(r) + multiset{q[0]}
  {
    var n := |q| - 1;
    var r := q[0 := q[n]][..n];
    if n == 0 {
      assert q == [q[0]] && r == [];
    } else {
      assert q == [q[0]] + q[1..n] + [q[n]];
      assert r == [q[n]] + q[1..n];
      assert multiset(q) == multiset{q[0]} + multiset(q[1..n]) + multiset{q[n]};
    }
    forall j | 0 < j < |r| && Parent(j) != 0
      ensures r[Parent(j)].dist <= r[j].dist
    {
      assert q[Parent(j)].dist <= q[j].dist;
    }
  }
}
