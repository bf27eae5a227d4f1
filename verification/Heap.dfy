/** The binary-heap operations the transaction pool calls on its slices: push,
    pop, remove, re-initialise and sort, over any strict weak order. A slice is
    a sequence value; every operation returns the slice it leaves behind.
 */
module Heap {

  /** The laws `Less` has to obey at three points: irreflexive, transitive, and
      with a transitive "not less than". */
  ghost predicate OrderLaw<T>(less: (T, T) -> bool, x: T, y: T, z: T) {
    && !less(x, x)
    && (less(x, y) && less(y, z) ==> less(x, z))
    && (!less(x, y) && !less(y, z) ==> !less(x, z))
  }

  ghost predicate StrictWeakOrder<T(!new)>(less: (T, T) -> bool) {
    forall x, y, z :: OrderLaw(less, x, y, z)
  }

  function Parent(j: nat): nat {
    if j == 0 then 0 else (j - 1) / 2
  }

  /** Slot j is not less than its parent. */
  ghost predicate Edge<T>(h: seq<T>, less: (T, T) -> bool, j: nat)
    requires j < |h|
  {
    !less(h[j], h[Parent(j)])
  }

  /** All edges below slot `lo` hold among the first n slots. */
  ghost predicate HeapFrom<T>(h: seq<T>, less: (T, T) -> bool, n: nat, lo: nat)
    requires n <= |h|
  {
    forall j: nat :: 0 < j < n && lo <= Parent(j) ==> Edge(h, less, j)
  }

  ghost predicate IsHeap<T>(h: seq<T>, less: (T, T) -> bool) {
    HeapFrom(h, less, |h|, 0)
  }

  ghost predicate Sorted<T>(s: seq<T>, less: (T, T) -> bool) {
    forall i, j :: 0 <= i < j < |s| ==> !less(s[j], s[i])
  }

  function Swapped<T>(s: seq<T>, i: nat, j: nat): (r: seq<T>)
    requires i < |s| && j < |s|
    ensures |r| == |s| && r[i] == s[j] && r[j] == s[i]
    ensures forall k :: 0 <= k < |s| && k != i && k != j ==> r[k] == s[k]
    ensures multiset(r) == multiset(s)
  {
    s[i := s[j]][j := s[i]]
  }

  /** The root of a heap is not greater than any other entry. */
  lemma {:induction false} RootIsLeast<T(!new)>(h: seq<T>, less: (T, T) -> bool, k: nat)
    requires StrictWeakOrder(less) && IsHeap(h, less) && k < |h|
    ensures !less(h[k], h[0])
    decreases k
  {
    if k > 0 {
      RootIsLeast(h, less, Parent(k));
      assert Edge(h, less, k);
      assert OrderLaw(less, h[k], h[Parent(k)], h[0]);
    } else {
      assert OrderLaw(less, h[0], h[0], h[0]);
    }
  }

  /** The premise of sifting slot i up: every edge holds except the one above
      i, and i's children fit under i's parent. */
  ghost predicate UpReady<T>(h: seq<T>, less: (T, T) -> bool, i: nat) {
    && i < |h|
    && (forall j: nat :: 0 < j < |h| && j != i ==> Edge(h, less, j))
    && (forall j: nat :: 0 < j < |h| && Parent(j) == i ==> !less(h[j], h[Parent(i)]))
  }

  lemma UpStep<T(!new)>(h: seq<T>, less: (T, T) -> bool, j: nat)
    requires StrictWeakOrder(less) && UpReady(h, less, j)
    requires j != 0 && less(h[j], h[Parent(j)])
    ensures UpReady(Swapped(h, Parent(j), j), less, Parent(j))
  {
    var i := Parent(j);
    var r := Swapped(h, i, j);
    assert OrderLaw(less, h[j], h[i], h[j]);
    forall k: nat | 0 < k < |r| && k != i ensures Edge(r, less, k) {
      if k != j {
        assert Edge(h, less, k);
        assert OrderLaw(less, h[k], h[i], h[j]);
      }
    }
    forall k: nat | 0 < k < |r| && Parent(k) == i ensures !less(r[k], r[Parent(i)]) {
      assert OrderLaw(less, r[k], r[k], r[k]);
      if i != 0 {
        assert Edge(h, less, i);
        if k != j {
          assert Edge(h, less, k);
          assert OrderLaw(less, h[k], h[i], h[Parent(i)]);
        }
      } else {
        assert k != j ==> Edge(h, less, k);
        assert OrderLaw(less, h[k], h[i], h[j]);
      }
    }
  }

  method Up<T(!new)>(h: seq<T>, j0: nat, less: (T, T) -> bool) returns (r: seq<T>)
    requires StrictWeakOrder(less) && UpReady(h, less, j0)
    ensures |r| == |h| && IsHeap(r, less) && multiset(r) == multiset(h)
  {
    var j: nat := j0;
    r := h;
    while j != 0 && less(r[j], r[Parent(j)])
      invariant j < |r| == |h| && multiset(r) == multiset(h)
      invariant UpReady(r, less, j)
    {
      UpStep(r, less, j);
      r, j := Swapped(r, Parent(j), j), Parent(j);
    }
  }

  /** The premise of sifting slot i down: every edge below `lo` holds except
      those that touch i, and i's children fit under i's parent. */
  ghost predicate DownReady<T>(h: seq<T>, less: (T, T) -> bool, n: nat, lo: nat, i: nat)
    requires n <= |h|
  {
    && (forall j: nat :: 0 < j < n && lo <= Parent(j) && Parent(j) != i && j != i ==> Edge(h, less, j))
    && (i < n && i > 0 && lo <= Parent(i) ==>
          forall j: nat :: 0 < j < n && Parent(j) == i ==> !less(h[j], h[Parent(i)]))
  }

  /** j is the least child of i among the first n slots. */
  predicate LeastChild<T(!new)>(h: seq<T>, less: (T, T) -> bool, n: nat, i: nat, j: nat)
    requires n <= |h|
  {
    && j < n && (j == 2 * i + 1 || j == 2 * i + 2)
    && (2 * i + 1 < n ==> !less(h[2 * i + 1], h[j]))
    && (2 * i + 2 < n ==> !less(h[2 * i + 2], h[j]))
  }

  lemma DownStep<T(!new)>(h: seq<T>, less: (T, T) -> bool, n: nat, lo: nat, i: nat, j: nat)
    requires StrictWeakOrder(less)
    requires n <= |h| && lo <= i && i < n && DownReady(h, less, n, lo, i)
    requires LeastChild(h, less, n, i, j) && less(h[j], h[i])
    ensures DownReady(Swapped(h, i, j), less, n, lo, j)
    ensures Edge(Swapped(h, i, j), less, j)
    ensures 0 < i && lo <= Parent(i) ==> Edge(Swapped(h, i, j), less, i)
  {
    var r := Swapped(h, i, j);
    assert OrderLaw(less, h[i], h[j], h[i]);
    assert OrderLaw(less, h[j], h[i], h[j]);
    forall k: nat | 0 < k < n && lo <= Parent(k) && Parent(k) != j && k != j ensures Edge(r, less, k) {
      if k == i {
      } else if Parent(k) == i {
        assert k == 2 * i + 1 || k == 2 * i + 2;
      } else {
        assert Edge(h, less, k);
      }
    }
    forall k: nat | 0 < k < n && Parent(k) == j ensures !less(r[k], r[Parent(j)]) {
      assert Edge(h, less, k);
    }
  }

  /** Slot i is not greater than any of its children. */
  lemma DownStops<T(!new)>(h: seq<T>, less: (T, T) -> bool, n: nat, i: nat, j: nat)
    requires StrictWeakOrder(less)
    requires n <= |h| && i < n && LeastChild(h, less, n, i, j) && !less(h[j], h[i])
    ensures forall k: nat :: 0 < k < n && Parent(k) == i ==> Edge(h, less, k)
  {
    forall k: nat | 0 < k < n && Parent(k) == i ensures Edge(h, less, k) {
      assert k == 2 * i + 1 || k == 2 * i + 2;
      assert OrderLaw(less, h[k], h[j], h[i]);
    }
  }

  /** What sifting slot i0 down has achieved when the hole is at slot i. */
  ghost predicate DownState<T>(h: seq<T>, r: seq<T>, less: (T, T) -> bool, n: nat, lo: nat, i0: nat, i: nat)
    requires n <= |h|
  {
    && |r| == |h| && multiset(r) == multiset(h)
    && i0 <= i
    && (forall k :: n <= k < |h| ==> r[k] == h[k])
    && DownReady(r, less, n, lo, i)
    && (i != i0 ==> i < n && Edge(r, less, i))
    && (i == i0 ==> r == h)
    && (i != i0 && 0 < i0 && lo <= Parent(i0) ==> Edge(r, less, i0))
  }

  lemma DownProgress<T(!new)>(h: seq<T>, r: seq<T>, less: (T, T) -> bool, n: nat, lo: nat, i0: nat, i: nat, j: nat)
    requires StrictWeakOrder(less) && lo <= i0 && n <= |h| && i < n
    requires DownState(h, r, less, n, lo, i0, i)
    requires LeastChild(r, less, n, i, j) && less(r[j], r[i])
    ensures DownState(h, Swapped(r, i, j), less, n, lo, i0, j)
  {
    DownStep(r, less, n, lo, i, j);
    if i != i0 && 0 < i0 && lo <= Parent(i0) {
      assert Edge(r, less, i0);
    }
  }

  method Child<T(!new)>(h: seq<T>, less: (T, T) -> bool, n: nat, i: nat) returns (j: nat)
    requires StrictWeakOrder(less) && n <= |h| && 2 * i + 1 < n
    ensures LeastChild(h, less, n, i, j)
  {
    j := 2 * i + 1;
    assert OrderLaw(less, h[j], h[j], h[j]);
    if j + 1 < n {
      assert OrderLaw(less, h[j + 1], h[j], h[j + 1]);
      assert OrderLaw(less, h[j], h[j + 1], h[j]);
      if less(h[j + 1], h[j]) {
        j := j + 1;
      }
    }
  }

  method Down<T(!new)>(h: seq<T>, i0: nat, n: nat, less: (T, T) -> bool, ghost lo: nat)
    returns (r: seq<T>, moved: bool)
    requires StrictWeakOrder(less)
    requires n <= |h| && lo <= i0 && DownReady(h, less, n, lo, i0)
    ensures |r| == |h| && multiset(r) == multiset(h)
    ensures forall k :: n <= k < |h| ==> r[k] == h[k]
    ensures forall j: nat :: 0 < j < n && lo <= Parent(j) && j != i0 ==> Edge(r, less, j)
    ensures moved ==> HeapFrom(r, less, n, lo)
    ensures !moved ==> r == h
  {
    var i := i0;
    r := h;
    while 2 * i + 1 < n
      invariant DownState(h, r, less, n, lo, i0, i)
      decreases n - i
    {
      var j := Child(r, less, n, i);
      if !less(r[j], r[i]) {
        DownStops(r, less, n, i, j);
        break;
      }
      DownProgress(h, r, less, n, lo, i0, i, j);
      r, i := Swapped(r, i, j), j;
    }
    moved := i > i0;
    assert forall j: nat :: 0 < j < n && Parent(j) == i ==> Edge(r, less, j);
  }

  method Push<T(!new)>(h: seq<T>, x: T, less: (T, T) -> bool) returns (r: seq<T>)
    requires StrictWeakOrder(less) && IsHeap(h, less)
    ensures IsHeap(r, less) && multiset(r) == multiset(h) + multiset{x}
  {
    var appended := h + [x];
    forall j: nat | 0 < j < |h| ensures Edge(appended, less, j) {
      assert Edge(h, less, j);
    }
    r := Up(appended, |h|, less);
  }

  method Pop<T(!new)>(h: seq<T>, less: (T, T) -> bool) returns (x: T, r: seq<T>)
    requires StrictWeakOrder(less) && IsHeap(h, less) && |h| > 0
    ensures IsHeap(r, less) && multiset(h) == multiset(r) + multiset{x}
    ensures x == h[0] && forall y :: y in r ==> !less(y, x)
  {
    var n := |h| - 1;
    var swapped := Swapped(h, 0, n);
    forall j: nat | 0 < j < n && Parent(j) != 0 ensures Edge(swapped, less, j) {
      assert Edge(h, less, j);
    }
    var down, moved := Down(swapped, 0, n, less, 0);
    x, r := down[n], down[..n];
    assert down == r + [x];
    HeapPrefix(down, less, n);
    forall y | y in r ensures !less(y, x) {
      assert y in multiset(r) && y in multiset(h) && y in h;
      var k: nat :| k < |h| && h[k] == y;
      RootIsLeast(h, less, k);
    }
  }

  lemma HeapPrefix<T>(h: seq<T>, less: (T, T) -> bool, n: nat)
    requires n <= |h| && HeapFrom(h, less, n, 0)
    ensures IsHeap(h[..n], less)
  {
    forall j: nat | 0 < j < n ensures Edge(h[..n], less, j) {
      assert Edge(h, less, j);
    }
  }

  /** Removes slot i, wherever it is in the heap. */
  method Remove<T(!new)>(h: seq<T>, i: nat, less: (T, T) -> bool) returns (r: seq<T>)
    requires StrictWeakOrder(less) && IsHeap(h, less) && i < |h|
    ensures IsHeap(r, less) && multiset(h) == multiset(r) + multiset{h[i]}
  {
    var n := |h| - 1;
    if n == i {
      r := h[..n];
      assert h == r + [h[i]];
      HeapPrefix(h, less, n);
      return;
    }
    var swapped := Swapped(h, i, n);
    RemoveReady(h, swapped, less, i);
    var down, moved := Down(swapped, i, n, less, 0);
    r := down[..n];
    assert down == r + [h[i]];
    if moved {
      HeapPrefix(down, less, n);
    } else {
      RemoveUpReady(h, swapped, r, less, i);
      r := Up(r, i, less);
    }
  }

  lemma RemoveReady<T(!new)>(h: seq<T>, s: seq<T>, less: (T, T) -> bool, i: nat)
    requires StrictWeakOrder(less) && IsHeap(h, less) && i < |h| - 1 && s == Swapped(h, i, |h| - 1)
    ensures DownReady(s, less, |h| - 1, 0, i)
  {
    var n := |h| - 1;
    forall j: nat | 0 < j < n && Parent(j) != i && j != i ensures Edge(s, less, j) {
      assert Edge(h, less, j);
    }
    forall j: nat | 0 < j < n && Parent(j) == i && i > 0 ensures !less(s[j], s[Parent(i)]) {
      assert Edge(h, less, j) && Edge(h, less, i);
      assert OrderLaw(less, h[j], h[i], h[Parent(i)]);
    }
  }

  lemma RemoveUpReady<T(!new)>(h: seq<T>, s: seq<T>, r: seq<T>, less: (T, T) -> bool, i: nat)
    requires StrictWeakOrder(less) && IsHeap(h, less) && i < |h| - 1 && s == Swapped(h, i, |h| - 1)
    requires r == s[..|h| - 1]
    requires forall j: nat :: 0 < j < |h| - 1 && j != i ==> Edge(s, less, j)
    ensures UpReady(r, less, i)
  {
    var n := |h| - 1;
    forall j: nat | 0 < j < n && j != i ensures Edge(r, less, j) {
      assert Edge(s, less, j);
    }
    forall j: nat | 0 < j < n && Parent(j) == i ensures !less(r[j], r[Parent(i)]) {
      if i == 0 {
        assert Edge(s, less, j);
      } else {
        assert Edge(h, less, j) && Edge(h, less, i);
        assert OrderLaw(less, h[j], h[i], h[Parent(i)]);
      }
    }
  }

  /** Establishes heap order on an arbitrary slice. */
  method Init<T(!new)>(h: seq<T>, less: (T, T) -> bool) returns (r: seq<T>)
    requires StrictWeakOrder(less)
    ensures |r| == |h| && IsHeap(r, less) && multiset(r) == multiset(h)
  {
    r := h;
    var n := |h|;
    var i: nat := n / 2;
    while i > 0
      invariant i <= n / 2 && |r| == n && multiset(r) == multiset(h)
      invariant HeapFrom(r, less, n, i)
    {
      i := i - 1;
      var moved;
      r, moved := Down(r, i, n, less, i);
    }
  }

  /** `sort.Sort`, here as repeated extraction of the least entry. */
  method Sort<T(!new)>(s: seq<T>, less: (T, T) -> bool) returns (r: seq<T>)
    requires StrictWeakOrder(less)
    ensures |r| == |s| && Sorted(r, less) && multiset(r) == multiset(s)
  {
    var h := Init(s, less);
    r := [];
    while |h| > 0
      invariant IsHeap(h, less) && multiset(r) + multiset(h) == multiset(s)
      invariant Sorted(r, less) && Below(r, h, less)
      decreases |h|
    {
      var x, rest := Pop(h, less);
      SameSize(h, rest + [x]);
      BelowExtends(r, h, x, rest, less);
      r, h := r + [x], rest;
    }
    SameSize(r, s);
  }

  ghost predicate Below<T(!new)>(r: seq<T>, h: seq<T>, less: (T, T) -> bool) {
    forall x, y :: x in r && y in h ==> !less(y, x)
  }

  lemma SameSize<T>(s: seq<T>, t: seq<T>)
    requires multiset(s) == multiset(t)
    ensures |s| == |t|
    ensures forall x :: x in s <==> x in t
  {
    assert |s| == |multiset(s)| == |multiset(t)| == |t|;
    assert forall x :: x in s <==> x in multiset(s);
    assert forall x :: x in t <==> x in multiset(t);
  }

  lemma BelowExtends<T(!new)>(r: seq<T>, h: seq<T>, x: T, rest: seq<T>, less: (T, T) -> bool)
    requires Sorted(r, less) && Below(r, h, less)
    requires multiset(h) == multiset(rest + [x]) && forall y :: y in rest ==> !less(y, x)
    ensures Sorted(r + [x], less) && Below(r + [x], rest, less)
  {
    SameSize(h, rest + [x]);
    assert x in rest + [x];
  }

  lemma {:induction false} SubsetSize<T>(a: set<T>, b: set<T>)
    requires a <= b
    ensures |a| <= |b|
  {
    assert b == a + (b - a);
  }
}
