/** The expiry heap of `cache/memcachettl/memCacheTTL.go`: the `expireHeap` slice
    with its `Less`, `Swap`, `Push` and `Pop`, driven by the sift loops of Go's
    `container/heap`. */
module ExpireHeaps {
  import opened Prelude

  /** One index record: the key, its expiry and the sequence number of the `Set` that wrote it. */
  datatype ExpireItem = ExpireItem(key: string, expiry: Time, stamp: nat)

  /** The children of `p` are those whose parent index `(c - 1) / 2` is `p`. */
  predicate ChildOf(c: int, p: int) {
    0 <= p && (c == 2 * p + 1 || c == 2 * p + 2)
  }

  /** No entry expires before its parent. */
  ghost predicate HeapOrdered(h: seq<ExpireItem>) {
    forall p, c :: ChildOf(c, p) && c < |h| ==> h[p].expiry <= h[c].expiry
  }

  /** Heap order, except possibly between `j` and its parent. */
  ghost predicate OrderedAbove(h: seq<ExpireItem>, j: int) {
    && (forall p, c :: ChildOf(c, p) && c < |h| && c != j ==> h[p].expiry <= h[c].expiry)
    && (forall p, c :: ChildOf(j, p) && ChildOf(c, j) && c < |h| ==> h[p].expiry <= h[c].expiry)
  }

  /** Heap order on the first `n` entries, except possibly between `j` and its children. */
  ghost predicate OrderedBelow(h: seq<ExpireItem>, n: int, j: int)
    requires 0 <= n <= |h|
  {
    && (forall p, c :: ChildOf(c, p) && c < n && p != j ==> h[p].expiry <= h[c].expiry)
    && (forall p, c :: ChildOf(j, p) && ChildOf(c, j) && c < n ==> h[p].expiry <= h[c].expiry)
  }

  /** The root of an ordered heap has least expiry among all entries. */
  lemma {:induction false} RootIsLeast(h: seq<ExpireItem>, i: int)
    requires HeapOrdered(h) && 0 <= i < |h|
    ensures h[0].expiry <= h[i].expiry
    decreases i
  {
    if i > 0 {
      assert ChildOf(i, (i - 1) / 2);
      RootIsLeast(h, (i - 1) / 2);
    }
  }

  /** The heap's entries all expire after `now` as soon as its root does. */
  lemma RootBoundsAll(h: seq<ExpireItem>, now: Time)
    requires HeapOrdered(h)
    requires |h| > 0 ==> now < h[0].expiry
    ensures forall e :: e in multiset(h) ==> now < e.expiry
  {
    forall e | e in multiset(h) ensures now < e.expiry {
      var i :| 0 <= i < |h| && h[i] == e;
      RootIsLeast(h, i);
    }
  }

  function Swapped(h: seq<ExpireItem>, i: int, j: int): (r: seq<ExpireItem>)
    requires 0 <= i < |h| && 0 <= j < |h|
    ensures multiset(r) == multiset(h)
  {
    h[i := h[j]][j := h[i]]
  }

  /** Swapping an entry with its later parent moves the disorder one level up. */
  lemma SiftUpStep(h: seq<ExpireItem>, i: int, j: int)
    requires ChildOf(j, i) && j < |h|
    requires OrderedAbove(h, j) && h[j].expiry < h[i].expiry
    ensures OrderedAbove(Swapped(h, i, j), i)
  {
    var g := Swapped(h, i, j);
    forall p, c | ChildOf(c, p) && c < |g| && c != i ensures g[p].expiry <= g[c].expiry {
      if p == i && c != j {
        assert h[i].expiry <= h[c].expiry;
      }
    }
    forall p, c | ChildOf(i, p) && ChildOf(c, i) && c < |g| ensures g[p].expiry <= g[c].expiry {
      assert h[p].expiry <= h[i].expiry;
      assert c != j ==> h[i].expiry <= h[c].expiry;
    }
  }

  /** `j` is the child of `i` among the first `n` entries that expires first. */
  ghost predicate EarliestChild(h: seq<ExpireItem>, n: int, i: int, j: int)
    requires 0 <= n <= |h|
  {
    && 0 <= i && ChildOf(j, i) && j < n
    && h[j].expiry <= h[2 * i + 1].expiry && (2 * i + 2 < n ==> h[j].expiry <= h[2 * i + 2].expiry)
  }

  /** Swapping an entry with its earlier child moves the disorder one level down. */
  lemma SiftDownStep(h: seq<ExpireItem>, n: int, i: int, j: int)
    requires 0 <= n <= |h| && EarliestChild(h, n, i, j)
    requires OrderedBelow(h, n, i)
    requires h[j].expiry < h[i].expiry
    ensures OrderedBelow(Swapped(h, i, j), n, j)
  {
    var g := Swapped(h, i, j);
    forall p, c | ChildOf(c, p) && c < n && p != j ensures g[p].expiry <= g[c].expiry {
      if p == i {
      } else if c == i {
        assert h[p].expiry <= h[j].expiry;
      } else {
        assert c != j && p != i;
      }
    }
    forall p, c | ChildOf(j, p) && ChildOf(c, j) && c < n ensures g[p].expiry <= g[c].expiry {
      assert p == i && c != j && c != i;
    }
  }

  /** Moving the root behind the first `n` entries leaves disorder only at the root. */
  lemma SwapRootOut(h: seq<ExpireItem>, n: int)
    requires HeapOrdered(h) && n == |h| - 1
    ensures n >= 0 ==> OrderedBelow(Swapped(h, 0, n), n, 0)
  {
  }

  lemma SiftDownEnds(h: seq<ExpireItem>, n: int, i: int, j: int)
    requires 0 <= i && 0 <= n <= |h| && OrderedBelow(h, n, i)
    requires 2 * i + 1 >= n || (EarliestChild(h, n, i, j) && h[i].expiry <= h[j].expiry)
    ensures HeapOrdered(h[..n])
  {
  }

  /** No entry occurs twice. */
  ghost predicate Once(m: multiset<ExpireItem>) {
    forall e :: e in m ==> m[e] == 1
  }

  ghost function Entries(m: multiset<ExpireItem>): set<ExpireItem> {
    set e | e in m
  }

  lemma OnceWith(m: multiset<ExpireItem>, x: ExpireItem)
    requires Once(m) && x !in m
    ensures Once(m + multiset{x}) && Entries(m + multiset{x}) == Entries(m) + {x}
  {
  }

  lemma OnceWithout(m: multiset<ExpireItem>, x: ExpireItem)
    requires Once(m + multiset{x})
    ensures Once(m) && x !in m && Entries(m) == Entries(m + multiset{x}) - {x}
  {
    forall e | e in m ensures m[e] == 1 {
      assert (m + multiset{x})[e] == 1;
    }
    assert (m + multiset{x})[x] == 1;
    forall e ensures e in Entries(m) <==> e in Entries(m + multiset{x}) - {x} {
      assert (m + multiset{x})[e] == m[e] + multiset{x}[e];
    }
  }

  class ExpireHeap {
    var h: seq<ExpireItem>

    constructor ()
      ensures h == []
    {
      h := [];
    }

    predicate Less(i: int, j: int)
      requires 0 <= i < |h| && 0 <= j < |h|
      reads this
    {
      h[i].expiry < h[j].expiry
    }

    method Swap(i: int, j: int)
      requires 0 <= i < |h| && 0 <= j < |h|
      modifies this
      ensures h == Swapped(old(h), i, j)
    {
      h := h[i := h[j]][j := h[i]];
    }

    /** `Push` of the slice itself: append at the end, no reordering. */
    method Append(x: ExpireItem)
      modifies this
      ensures h == old(h) + [x]
    {
      h := h + [x];
    }

    /** `Pop` of the slice itself: cut off the last entry. */
    method CutLast() returns (it: ExpireItem)
      requires |h| > 0
      modifies this
      ensures it == old(h)[|old(h)| - 1] && h == old(h)[..|old(h)| - 1]
    {
      var n := |h|;
      it := h[n - 1];
      h := h[..n - 1];
    }

    /** `up` of container/heap: sift entry `start` towards the root. */
    method Up(start: int)
      requires 0 <= start < |h|
      requires OrderedAbove(h, start)
      modifies this
      ensures HeapOrdered(h)
      ensures multiset(h) == multiset(old(h)) && |h| == |old(h)|
    {
      var j := start;
      while j > 0
        invariant 0 <= j < |h| == |old(h)|
        invariant OrderedAbove(h, j)
        invariant multiset(h) == multiset(old(h))
      {
        var i := (j - 1) / 2;
        if !Less(j, i) {
          break;
        }
        SiftUpStep(h, i, j);
        Swap(i, j);
        j := i;
      }
    }

    /** One round of `down`: exchanges entry `i` with its earlier child, or finds it in place. */
    method DownRound(i: int, n: int) returns (next: int)
      requires 0 <= n <= |h| && 0 <= i && 2 * i + 1 < n
      requires OrderedBelow(h, n, i)
      modifies this
      ensures if next == i then h == old(h) && HeapOrdered(h[..n]) else
                i < next < n && h == Swapped(old(h), i, next) && OrderedBelow(h, n, next)
    {
      var j1 := 2 * i + 1;
      var j2 := j1 + 1;
      var j := if j2 < n && Less(j2, j1) then j2 else j1;
      assert EarliestChild(h, n, i, j);
      if !Less(j, i) {
        SiftDownEnds(h, n, i, j);
        return i;
      }
      SiftDownStep(h, n, i, j);
      Swap(i, j);
      return j;
    }

    /** `down` of container/heap: sift entry `i0` towards the leaves of the first `n` entries. */
    method Down(i0: int, n: int)
      requires 0 <= i0 && 0 <= n <= |h|
      requires OrderedBelow(h, n, i0)
      modifies this
      ensures |h| == |old(h)| && HeapOrdered(h[..n])
      ensures multiset(h) == multiset(old(h))
      ensures forall k :: n <= k < |h| ==> h[k] == old(h)[k]
    {
      var i := i0;
      while true
        invariant 0 <= i && |h| == |old(h)|
        invariant OrderedBelow(h, n, i)
        invariant multiset(h) == multiset(old(h))
        invariant forall k :: n <= k < |h| ==> h[k] == old(h)[k]
        decreases n - i
      {
        if 2 * i + 1 >= n {
          SiftDownEnds(h, n, i, 2 * i + 1);
          break;
        }
        var j := DownRound(i, n);
        if j == i {
          break;
        }
        i := j;
      }
    }

    /** `heap.Push`. */
    method Push(x: ExpireItem)
      requires HeapOrdered(h)
      modifies this
      ensures HeapOrdered(h)
      ensures multiset(h) == multiset(old(h)) + multiset{x}
    {
      Append(x);
      Up(|h| - 1);
    }

    /** `heap.Pop`: removes exactly one occurrence of an entry of least expiry. */
    method Pop() returns (it: ExpireItem)
      requires HeapOrdered(h) && |h| > 0
      modifies this
      ensures HeapOrdered(h)
      ensures it == old(h)[0] && multiset(old(h)) == multiset(h) + multiset{it}
      ensures |h| == |old(h)| - 1
      ensures forall e :: e in multiset(old(h)) ==> it.expiry <= e.expiry
    {
      forall e | e in multiset(h) ensures h[0].expiry <= e.expiry {
        var i :| 0 <= i < |h| && h[i] == e;
        RootIsLeast(h, i);
      }
      var n := |h| - 1;
      SwapRootOut(h, n);
      Swap(0, n);
      Down(0, n);
      assert h == h[..n] + [h[n]];
      it := CutLast();
    }
  }
}
