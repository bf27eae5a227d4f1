/** The nonce-to-transaction map of one account (core/tx_list.go): a hash map, a
    binary heap over its nonces and a cache of its nonce-sorted contents.
 */
module TxSortedMaps {
  import opened Options
  import opened Transactions
  import Heap

  predicate NonceLess(a: nat, b: nat) { a < b }

  predicate TxNonceLess(a: Tx, b: Tx) { a.nonce < b.nonce }

  lemma NonceOrder()
    ensures Heap.StrictWeakOrder(NonceLess) && Heap.StrictWeakOrder(TxNonceLess)
  {
  }

  /** The heap holds every nonce of the map once, least at the root. */
  ghost predicate Indexes(index: seq<nat>, items: map<nat, Tx>) {
    Heap.IsHeap(index, NonceLess) && multiset(index) == multiset(items.Keys)
  }

  lemma IndexSize(index: seq<nat>, items: map<nat, Tx>)
    requires multiset(index) == multiset(items.Keys)
    ensures |index| == |items|
    ensures forall n :: n in index <==> n in items
  {
    assert |index| == |multiset(index)| == |multiset(items.Keys)| == |items.Keys|;
    forall n: nat ensures n in index <==> n in items {
      assert n in index <==> n in multiset(index);
    }
  }

  /** The root of the heap is the nonce of the first transaction. */
  lemma RootIsFirst(index: seq<nat>, items: map<nat, Tx>)
    requires Keyed(items) && Indexes(index, items) && |index| > 0
    ensures |items| > 0 && index[0] == Flat(items)[0].nonce && index[0] in items
    ensures items[index[0]] == Flat(items)[0]
    ensures Flat(items - {index[0]}) == Flat(items)[1..]
    ensures forall n :: n in items ==> index[0] <= n
  {
    NonceOrder();
    IndexSize(index, items);
    forall n | n in items ensures index[0] <= n {
      var k: nat :| k < |index| && index[k] == n;
      Heap.RootIsLeast(index, NonceLess, k);
    }
    FlatNonces(items, 0);
    var f := Flat(items);
    assert Holds(items, items[index[0]]);
    var i :| 0 <= i < |f| && f[i] == items[index[0]];
    assert Rises(f, 0, i);
    FlatTail(f, items);
    var rest := items - {index[0]};
    FlatUnique(rest, Flat(rest), f[1..]);
  }

  /** Popping the heap and deleting the popped nonce keeps map and heap together. */
  lemma PopKeeps(index: seq<nat>, items: map<nat, Tx>, n: nat, rest: seq<nat>)
    requires multiset(index) == multiset(items.Keys)
    requires multiset(index) == multiset(rest) + multiset{n}
    ensures multiset(rest) == multiset((items - {n}).Keys)
  {
    assert (items - {n}).Keys == items.Keys - {n};
  }

  function From(m: map<nat, Tx>, threshold: nat): map<nat, Tx> {
    map n | n in m && n >= threshold :: m[n]
  }

  /** The transactions of m a filter keeps. */
  function Kept(m: map<nat, Tx>, drop: Tx -> bool): map<nat, Tx> {
    map n | n in m && !drop(m[n]) :: m[n]
  }

  /** The transactions of m a filter removes. */
  function Dropped(m: map<nat, Tx>, drop: Tx -> bool): map<nat, Tx> {
    map n | n in m && drop(m[n]) :: m[n]
  }

  /** s lists each transaction of m once, in any order. */
  ghost predicate Lists(s: seq<Tx>, m: map<nat, Tx>) {
    multiset(s) == multiset(TxSet(m))
  }

  /** The length of the maximal run of consecutive nonces a listing starts with. */
  ghost function RunLength(f: seq<Tx>): (k: nat)
    ensures k <= |f|
    ensures forall i :: 0 <= i < k ==> f[i].nonce == f[0].nonce + i
    ensures k < |f| ==> f[k].nonce != f[0].nonce + k
  {
    RunFrom(f, 0)
  }

  /** How many transactions `Ready(start)` takes from a listing. */
  ghost function ReadyCount(f: seq<Tx>, start: nat): (k: nat)
    ensures k <= |f|
  {
    if |f| == 0 || f[0].nonce > start then 0 else RunLength(f)
  }

  ghost function RunFrom(f: seq<Tx>, i: nat): (k: nat)
    requires i <= |f|
    ensures i <= k <= |f|
    ensures forall j :: i <= j < k ==> f[j].nonce == f[0].nonce + j
    ensures k < |f| ==> f[k].nonce != f[0].nonce + k
    decreases |f| - i
  {
    if i < |f| && f[i].nonce == f[0].nonce + i then RunFrom(f, i + 1) else i
  }

  function Reversed(s: seq<Tx>): seq<Tx> {
    if s == [] then [] else [s[|s| - 1]] + Reversed(s[..|s| - 1])
  }

  lemma {:induction false} Distinct<T>(s: seq<T>)
    requires forall i, j :: 0 <= i < j < |s| ==> s[i] != s[j]
    ensures forall x :: multiset(s)[x] == if x in s then 1 else 0
  {
    if s != [] {
      var t := s[..|s| - 1];
      Distinct(t);
      assert s == t + [s[|s| - 1]];
    }
  }

  lemma {:induction false} NoRepeats<T>(s: seq<T>)
    requires forall x :: multiset(s)[x] <= 1
    ensures forall i, j :: 0 <= i < j < |s| ==> s[i] != s[j]
  {
    if s != [] {
      var t, x := s[..|s| - 1], s[|s| - 1];
      assert s == t + [x];
      assert x !in t by {
        assert multiset(s)[x] == multiset(t)[x] + 1;
      }
      assert forall y :: multiset(t)[y] <= multiset(s)[y];
      NoRepeats(t);
    }
  }

  lemma ForwardDone(index: seq<nat>, items: map<nat, Tx>, threshold: nat)
    requires Keyed(items) && Indexes(index, items) && (|index| == 0 || index[0] >= threshold)
    ensures forall n :: n in items ==> n >= threshold
  {
    IndexSize(index, items);
    if |index| > 0 { RootIsFirst(index, items); }
  }

  lemma ReadyDone(index: seq<nat>, items: map<nat, Tx>, f: seq<Tx>, ready: seq<Tx>)
    requires Keyed(items) && Indexes(index, items) && ready + Flat(items) == f
    requires forall i :: 0 <= i < |ready| ==> ready[i].nonce == f[0].nonce + i
    requires |f| > 0 && (|index| == 0 || index[0] != f[0].nonce + |ready|)
    ensures RunLength(f) == |ready|
  {
    RootOf(index, items);
    var k := |ready|;
    assert forall i :: 0 <= i < k ==> f[i] == ready[i];
    assert k < |f| ==> f[k] == Flat(items)[0];
  }

  lemma RootOf(index: seq<nat>, items: map<nat, Tx>)
    requires Keyed(items) && Indexes(index, items)
    ensures |index| == |items|
    ensures |index| > 0 ==> index[0] == Flat(items)[0].nonce
  {
    IndexSize(index, items);
    if |index| > 0 { RootIsFirst(index, items); }
  }

  lemma ReversedSize(s: seq<Tx>)
    ensures |Reversed(s)| == |s|
  {
  }

  /** The state of `Cap` when the nonces of f from `size` on have been dropped. */
  ghost predicate CapState(items: map<nat, Tx>, index: seq<nat>, f: seq<Tx>, size: nat, drops: seq<Tx>) {
    && Keyed(items) && size == |items| <= |f| == |index|
    && Flat(items) == f[..size] && Reversed(drops) == f[size..]
    && forall i :: 0 <= i < |f| ==> index[i] == f[i].nonce
  }

  lemma CapStep(items: map<nat, Tx>, index: seq<nat>, f: seq<Tx>, size: nat, drops: seq<Tx>)
    requires CapState(items, index, f, size, drops) && size > 0
    ensures index[size - 1] in items
    ensures var n := index[size - 1]; CapState(items - {n}, index, f, size - 1, drops + [items[n]])
  {
    var n := index[size - 1];
    LastOut(items);
    FlatNonces(items, size - 1);
    assert Flat(items)[size - 1] == f[size - 1];
    var grown := drops + [items[n]];
    assert grown[..|grown| - 1] == drops;
    assert f[..size][..size - 1] == f[..size - 1];
  }

  lemma ListsOne(m: map<nat, Tx>, m': map<nat, Tx>, n: nat, s: seq<Tx>, tx: Tx)
    requires Keyed(m') && n !in m && m' == m[n := tx] && Lists(s, m)
    ensures Lists(s + [tx], m')
  {
    assert m'[n] == tx;
    assert TxSet(m') == TxSet(m) + {tx} by {
      forall x ensures x in TxSet(m') <==> x in TxSet(m) + {tx} {
        if x in TxSet(m) {
          var k :| k in m && m[k] == x;
          assert m'[k] == x;
        }
      }
    }
    forall k | k in m ensures m[k] != tx {
      assert m'[k] == m[k];
    }
  }

  lemma ListsGrows(m: map<nat, Tx>, drop: Tx -> bool, todo: set<nat>, n: nat, removed: seq<Tx>)
    requires Keyed(m) && n in todo && todo <= m.Keys && Lists(removed, Dropped(m - todo, drop))
    ensures drop(m[n]) ==> Lists(removed + [m[n]], Dropped(m - (todo - {n}), drop))
    ensures !drop(m[n]) ==> Dropped(m - (todo - {n}), drop) == Dropped(m - todo, drop)
  {
    var before, after := Dropped(m - todo, drop), Dropped(m - (todo - {n}), drop);
    if drop(m[n]) {
      assert after == before[n := m[n]];
      ListsOne(before, after, n, removed, m[n]);
    } else {
      assert after == before;
    }
  }

  lemma ListsMembers(s: seq<Tx>, m: map<nat, Tx>)
    requires Keyed(m) && Lists(s, m)
    ensures forall tx :: tx in s <==> Holds(m, tx)
    ensures forall i, j :: 0 <= i < j < |s| ==> s[i] != s[j]
  {
    forall tx ensures tx in s <==> Holds(m, tx) {
      assert tx in s <==> tx in multiset(s);
    }
    NoRepeats(s);
  }

  lemma NothingDropped(m: map<nat, Tx>, drop: Tx -> bool, removed: seq<Tx>)
    requires Keyed(m) && Lists(removed, Dropped(m, drop)) && |removed| == 0
    ensures Kept(m, drop) == m
  {
    ListsMembers(removed, Dropped(m, drop));
    assert forall n :: n in m && drop(m[n]) ==> Holds(Dropped(m, drop), m[n]);
  }

  lemma SortedIsFlat(s: seq<Tx>, m: map<nat, Tx>)
    requires Keyed(m) && Heap.Sorted(s, TxNonceLess) && Lists(s, m)
    ensures s == Flat(m)
  {
    ListsMembers(s, m);
    forall i, j ensures Rises(s, i, j) {
      if 0 <= i < j < |s| {
        assert !TxNonceLess(s[j], s[i]);
        assert s[i] in s && s[j] in s;
        assert Holds(m, s[i]) && Holds(m, s[j]);
      }
    }
    FlatUnique(m, s, Flat(m));
  }

  lemma SortedIndexIsFlat(index: seq<nat>, items: map<nat, Tx>)
    requires Keyed(items) && Heap.Sorted(index, NonceLess) && multiset(index) == multiset(items.Keys)
    ensures |index| == |items| && forall i :: 0 <= i < |index| ==> index[i] == Flat(items)[i].nonce
  {
    IndexSize(index, items);
    NoRepeats(index);
    var s := seq(|index|, i requires 0 <= i < |index| => items[index[i]]);
    ListedByIndex(index, items, s);
    FlatUnique(items, s, Flat(items));
  }

  lemma ListedByIndex(index: seq<nat>, items: map<nat, Tx>, s: seq<Tx>)
    requires Keyed(items) && Heap.Sorted(index, NonceLess)
    requires forall n :: n in index <==> n in items
    requires forall i, j :: 0 <= i < j < |index| ==> index[i] != index[j]
    requires |s| == |index| && forall i :: 0 <= i < |s| ==> s[i] == items[index[i]]
    ensures IsFlat(s, items)
  {
    forall i, j ensures Rises(s, i, j) {
      if 0 <= i < j < |s| {
        assert !NonceLess(index[j], index[i]);
      }
    }
    forall tx ensures tx in s <==> Holds(items, tx) {
      if Holds(items, tx) {
        var i :| 0 <= i < |index| && index[i] == tx.nonce;
        assert s[i] == tx;
      }
    }
  }

  lemma LastOut(items: map<nat, Tx>)
    requires Keyed(items) && |items| > 0
    ensures var f, k := Flat(items), |items| - 1; Flat(items - {f[k].nonce}) == f[..k]
    ensures |items - {Flat(items)[|items| - 1].nonce}| == |items| - 1
  {
    var f, k := Flat(items), |items| - 1;
    FlatNonces(items, k);
    var low := items - {f[k].nonce};
    assert low.Keys == items.Keys - {f[k].nonce};
    forall n ensures n in low <==> n in items && items[n] in f[..k] {
      if n in items {
        PlaceBelow(items, n, k);
        InOrder(items, PlaceOf(items, n), k);
      }
    }
    FlatCut(items, low, k);
  }

  lemma FlatIndex(index: seq<nat>, items: map<nat, Tx>)
    requires Keyed(items) && |index| == |items|
    requires forall i :: 0 <= i < |index| ==> index[i] == Flat(items)[i].nonce
    ensures multiset(index) == multiset(items.Keys)
  {
    forall i, j | 0 <= i < j < |index| ensures index[i] != index[j] {
      assert Rises(Flat(items), i, j);
    }
    Distinct(index);
    forall n: nat ensures n in index <==> n in items.Keys {
      if n in items {
        assert Holds(items, items[n]);
        var i :| 0 <= i < |items| && Flat(items)[i] == items[n];
        assert index[i] == n;
      }
      if n in index {
        var i: nat :| i < |index| && index[i] == n;
        FlatNonces(items, i);
      }
    }
  }

  /** m is what is left of m0 after some nonces went. */
  ghost predicate SubMap(m: map<nat, Tx>, m0: map<nat, Tx>) {
    forall n :: n in m ==> n in m0 && m[n] == m0[n]
  }

  function Below(m: map<nat, Tx>, n: nat): set<nat> {
    set j | j in m && j < n
  }

  /** The k lowest nonces of m: those with fewer than k nonces below them. */
  function Lowest(m: map<nat, Tx>, k: nat): map<nat, Tx> {
    map n | n in m && |Below(m, n)| < k :: m[n]
  }

  /** No nonce is missing between a stored one and n. */
  predicate Gapless(m: map<nat, Tx>, n: nat) {
    forall i :: i in m && i <= n ==> forall j :: i <= j <= n ==> j in m
  }

  /** The maximal consecutive run at the low end of m, if it starts at or below start. */
  function Run(m: map<nat, Tx>, start: nat): map<nat, Tx> {
    map n | n in m && Gapless(m, n) && (exists i :: i in m && i <= start) :: m[n]
  }

  /** Where the listing has the transaction with nonce n. */
  ghost function PlaceOf(m: map<nat, Tx>, n: nat): (i: nat)
    requires Keyed(m) && n in m
    ensures i < |m| && Flat(m)[i] == m[n]
  {
    assert Holds(m, m[n]);
    var i :| 0 <= i < |Flat(m)| && Flat(m)[i] == m[n];
    i
  }

  lemma InOrder(m: map<nat, Tx>, i: nat, j: nat)
    requires Keyed(m) && i < |m| && j < |m|
    ensures i < j <==> Flat(m)[i].nonce < Flat(m)[j].nonce
    ensures i == j <==> Flat(m)[i].nonce == Flat(m)[j].nonce
  {
    assert Rises(Flat(m), i, j) && Rises(Flat(m), j, i);
  }

  lemma PlaceBelow(m: map<nat, Tx>, n: nat, k: nat)
    requires Keyed(m) && n in m && k <= |m|
    ensures m[n] in Flat(m)[..k] <==> PlaceOf(m, n) < k
    ensures m[n] in Flat(m)[k..] <==> PlaceOf(m, n) >= k
  {
    var f, i := Flat(m), PlaceOf(m, n);
    forall j: nat | j < |m| && f[j] == m[n] ensures j == i {
      InOrder(m, i, j);
    }
    if i < k { assert f[..k][i] == m[n]; } else { assert f[k..][i - k] == m[n]; }
  }

  lemma {:induction false} RankOf(m: map<nat, Tx>, i: nat)
    requires Keyed(m) && i < |m|
    ensures |Below(m, Flat(m)[i].nonce)| == i
    decreases i
  {
    var f := Flat(m);
    var n := f[i].nonce;
    if i == 0 {
      LeastIsFirst(m);
      assert Below(m, n) == {};
    } else {
      var p := f[i - 1].nonce;
      FlatNonces(m, i - 1);
      forall j | j in m ensures j < n <==> j <= p {
        InOrder(m, PlaceOf(m, j), i);
        InOrder(m, PlaceOf(m, j), i - 1);
      }
      assert Below(m, n) == Below(m, p) + {p};
      RankOf(m, i - 1);
    }
  }

  lemma LowestIsPrefix(m: map<nat, Tx>, low: map<nat, Tx>, k: nat)
    requires Keyed(m) && Keyed(low) && SubMap(low, m) && k <= |m| && Flat(low) == Flat(m)[..k]
    ensures low == Lowest(m, k)
  {
    forall n | n in m ensures n in low <==> |Below(m, n)| < k {
      RankOf(m, PlaceOf(m, n));
      PlaceBelow(m, n, k);
      assert m[n] in Flat(low) <==> Holds(low, m[n]);
    }
  }

  lemma AllLowest(m: map<nat, Tx>, k: nat)
    requires |m| <= k
    ensures Lowest(m, k) == m
  {
    forall n | n in m ensures |Below(m, n)| < k {
      Heap.SubsetSize(Below(m, n), m.Keys - {n});
    }
  }

  lemma RunIsPrefix(m: map<nat, Tx>, start: nat, i: nat)
    requires Keyed(m) && i < |m|
    ensures Flat(m)[i].nonce in Run(m, start) <==> i < ReadyCount(Flat(m), start)
  {
    var f := Flat(m);
    FlatNonces(m, i);
    FlatNonces(m, 0);
    LeastIsFirst(m);
    if i < RunLength(f) {
      forall j | f[0].nonce <= j <= f[i].nonce ensures j in m {
        assert f[j - f[0].nonce].nonce == j;
        FlatNonces(m, j - f[0].nonce);
      }
      assert Gapless(m, f[i].nonce);
    } else {
      var k := RunLength(f);
      RunGap(m, k);
      assert f[0].nonce + k < f[i].nonce by {
        assert Rises(f, k, i);
      }
    }
  }

  lemma LeastIsFirst(m: map<nat, Tx>)
    requires Keyed(m) && |m| > 0
    ensures forall n :: n in m ==> Flat(m)[0].nonce <= n
  {
    forall n | n in m ensures Flat(m)[0].nonce <= n {
      InOrder(m, 0, PlaceOf(m, n));
    }
  }

  /** The nonce right after the run is not stored, and the next stored one is above it. */
  lemma RunGap(m: map<nat, Tx>, k: nat)
    requires Keyed(m) && k == RunLength(Flat(m)) && k < |m|
    ensures Flat(m)[0].nonce + k !in m
    ensures k > 0 && Flat(m)[k].nonce > Flat(m)[0].nonce + k
  {
    var f := Flat(m);
    InOrder(m, k - 1, k);
    forall n | n in m ensures n != f[0].nonce + k {
      var i := PlaceOf(m, n);
      InOrder(m, i, k);
      InOrder(m, k - 1, i);
    }
  }

  lemma RunTaken(m: map<nat, Tx>, rest: map<nat, Tx>, ready: seq<Tx>, start: nat)
    requires Keyed(m) && Keyed(rest) && SubMap(rest, m) && ready + Flat(rest) == Flat(m)
    requires |ready| == ReadyCount(Flat(m), start)
    ensures rest == m - Run(m, start).Keys && ready == Flat(Run(m, start))
  {
    var f, k, run := Flat(m), |ready|, Run(m, start);
    assert f[..k] == ready && f[k..] == Flat(rest);
    forall n | n in m ensures n in run <==> m[n] in f[..k] {
      RunIsPrefix(m, start, PlaceOf(m, n));
      PlaceBelow(m, n, k);
    }
    FlatCut(m, run, k);
    forall n | n in m ensures n in rest <==> n !in run {
      PlaceBelow(m, n, k);
      assert m[n] in Flat(rest) <==> Holds(rest, m[n]);
    }
  }

  method PushNonce(index: seq<nat>, items: map<nat, Tx>, tx: Tx) returns (r: seq<nat>)
    requires Indexes(index, items) && tx.nonce !in items
    ensures Indexes(r, items[tx.nonce := tx])
  {
    NonceOrder();
    r := Heap.Push(index, tx.nonce, NonceLess);
    assert items[tx.nonce := tx].Keys == items.Keys + {tx.nonce};
  }

  /** Pops the least nonce, whose transaction is the first of the listing. */
  method PopNonce(index: seq<nat>, items: map<nat, Tx>) returns (nonce: nat, rest: seq<nat>)
    requires Keyed(items) && Indexes(index, items) && |index| > 0
    ensures nonce == index[0] && nonce in items && [items[nonce]] + Flat(items - {nonce}) == Flat(items)
    ensures Keyed(items - {nonce}) && Indexes(rest, items - {nonce}) && |items - {nonce}| < |items|
  {
    NonceOrder();
    RootIsFirst(index, items);
    nonce, rest := Heap.Pop(index, NonceLess);
    PopKeeps(index, items, nonce, rest);
    assert (items - {nonce}).Keys == items.Keys - {nonce};
  }

  /** Deletes the nonces of a sorted index from its end until `threshold` are left. */
  method DropFromEnd(all: map<nat, Tx>, index: seq<nat>, threshold: nat) returns (items: map<nat, Tx>, drops: seq<Tx>)
    requires Keyed(all) && threshold < |all| && Heap.Sorted(index, NonceLess) && multiset(index) == multiset(all.Keys)
    ensures Keyed(items) && items == Lowest(all, threshold) && |index| == |all| == |drops| + threshold
    ensures Flat(items) == Flat(all)[..threshold] && Flat(items) + Reversed(drops) == Flat(all)
    ensures multiset(index[..threshold]) == multiset(items.Keys)
  {
    hide Flat, Lowest, Heap.Sorted;
    ghost var f := Flat(all);
    SortedIndexIsFlat(index, all);
    items, drops := all, [];
    var size := |all|;
    while size > threshold
      invariant threshold <= size && CapState(items, index, f, size, drops) && SubMap(items, all)
    {
      CapStep(items, index, f, size, drops);
      drops := drops + [items[index[size - 1]]];
      items := items - {index[size - 1]};
      size := size - 1;
    }
    ReversedSize(drops);
    assert f[..threshold] + f[threshold..] == f;
    LowestIsPrefix(all, items, threshold);
    FlatIndex(index[..threshold], items);
  }

  /** A heap of all nonces. */
  method HeapOf(items: map<nat, Tx>) returns (index: seq<nat>)
    ensures Indexes(index, items)
  {
    NonceOrder();
    index := [];
    var todo := items.Keys;
    while todo != {}
      invariant todo <= items.Keys && multiset(index) == multiset(items.Keys - todo)
      decreases |todo|
    {
      var nonce :| nonce in todo;
      assert items.Keys - (todo - {nonce}) == (items.Keys - todo) + {nonce};
      index, todo := index + [nonce], todo - {nonce};
    }
    assert items.Keys - {} == items.Keys;
    index := Heap.Init(index, NonceLess);
  }

  /** Deletes what a filter drops, in the map's arbitrary order. */
  method Sift(all: map<nat, Tx>, drop: Tx -> bool) returns (items: map<nat, Tx>, removed: seq<Tx>)
    requires Keyed(all)
    ensures Keyed(items) && items == Kept(all, drop) && Lists(removed, Dropped(all, drop))
  {
    hide Lists, Dropped;
    items, removed := all, [];
    NoneListed(all, drop);
    var todo := all.Keys;
    while todo != {}
      invariant todo <= items.Keys && items.Keys <= all.Keys
      invariant forall n :: n in all ==> (n in items <==> n in todo || !drop(all[n]))
      invariant forall n :: n in items ==> items[n] == all[n]
      invariant Lists(removed, Dropped(all - todo, drop))
      decreases |todo|
    {
      var nonce :| nonce in todo;
      ListsGrows(all, drop, todo, nonce, removed);
      todo := todo - {nonce};
      if drop(items[nonce]) {
        removed := removed + [items[nonce]];
        items := items - {nonce};
      }
    }
    assert all - {} == all;
  }

  lemma NoneListed(all: map<nat, Tx>, drop: Tx -> bool)
    ensures Lists([], Dropped(all - all.Keys, drop))
  {
    assert all - all.Keys == map[];
  }

  class TxSortedMap {
    var items: map<nat, Tx>
    var index: seq<nat>
    var cache: Option<seq<Tx>>

    ghost predicate Valid()
      reads this
    {
      && Keyed(items)
      && Indexes(index, items)
      && (cache.Some? ==> cache.value == Flat(items))
    }

    constructor ()
      ensures Valid() && items == map[]
    {
      items, index, cache := map[], [], None;
    }

    method Put(tx: Tx)
      requires Valid()
      modifies this
      ensures Valid() && items == old(items)[tx.nonce := tx]
    {
      var nonce := tx.nonce;
      if nonce !in items {
        index := PushNonce(index, items, tx);
      } else {
        assert items[nonce := tx].Keys == items.Keys;
      }
      items, cache := items[nonce := tx], None;
    }

    /** Removes exactly the nonces below the threshold, lowest first. */
    method Forward(threshold: nat) returns (removed: seq<Tx>)
      requires Valid()
      modifies this
      ensures Valid() && items == From(old(items), threshold)
      ensures removed + Flat(items) == old(Flat(items))
      ensures forall tx :: tx in removed ==> tx.nonce < threshold
    {
      hide Flat, Indexes;
      removed := [];
      while |index| > 0 && index[0] < threshold
        invariant Keyed(items) && Indexes(index, items) && cache == old(cache)
        invariant removed + Flat(items) == old(Flat(items))
        invariant forall tx :: tx in removed ==> tx.nonce < threshold
        invariant SubMap(items, old(items)) && SubMap(From(old(items), threshold), items)
        decreases |items|
      {
        var nonce, rest := PopNonce(index, items);
        assert removed + [items[nonce]] + Flat(items - {nonce}) == removed + Flat(items);
        removed := removed + [items[nonce]];
        index, items := rest, items - {nonce};
      }
      ForwardDone(index, items, threshold);
      if cache.Some? {
        cache := Some(cache.value[|removed|..]);
      }
    }

    method Filter(drop: Tx -> bool) returns (removed: seq<Tx>)
      requires Valid()
      modifies this
      ensures Valid() && items == Kept(old(items), drop)
      ensures Lists(removed, Dropped(old(items), drop))
    {
      removed := FilterOnly(drop);
      if |removed| > 0 {
        Reheap();
      } else {
        NothingDropped(old(items), drop, removed);
      }
    }

    method Reheap()
      requires Keyed(items)
      modifies this
      ensures Valid() && items == old(items) && cache.None?
    {
      index := HeapOf(items);
      cache := None;
    }

    /** Filters without rebuilding the heap; the heap is stale afterwards. */
    method FilterOnly(drop: Tx -> bool) returns (removed: seq<Tx>)
      requires Keyed(items)
      modifies this
      ensures Keyed(items) && items == Kept(old(items), drop) && index == old(index)
      ensures Lists(removed, Dropped(old(items), drop))
      ensures cache == if |removed| > 0 then None else old(cache)
    {
      items, removed := Sift(items, drop);
      if |removed| > 0 {
        cache := None;
      }
    }

    /** Keeps the `threshold` lowest nonces; the others come back highest first. */
    method Cap(threshold: nat) returns (drops: seq<Tx>)
      requires Valid()
      modifies this
      ensures Valid() && items == Lowest(old(items), threshold)
      ensures Flat(items) + Reversed(drops) == old(Flat(items))
    {
      hide Flat, Lowest, Reversed;
      drops := [];
      if |items| <= threshold {
        AllLowest(items, threshold);
        assert Flat(items) + Reversed(drops) == Flat(items) by { ReversedSize(drops); }
        return;
      }
      index := Heap.Sort(index, NonceLess) by { NonceOrder(); }
      items, drops := DropFromEnd(items, index, threshold);
      index := Heap.Init(index[..threshold], NonceLess) by { NonceOrder(); }
      if cache.Some? {
        cache := Some(cache.value[..|cache.value| - |drops|]);
      }
    }

    method Remove(nonce: nat) returns (found: bool)
      requires Valid()
      modifies this
      ensures Valid() && found == (nonce in old(items)) && items == old(items) - {nonce}
    {
      if nonce !in items {
        assert items == items - {nonce};
        return false;
      }
      IndexSize(index, items);
      NonceOrder();
      var i := 0;
      while index[i] != nonce
        invariant 0 <= i < |index| && nonce !in index[..i]
        decreases |index| - i
      {
        i := i + 1;
      }
      var rest := Heap.Remove(index, i, NonceLess);
      PopKeeps(index, items, nonce, rest);
      index, items, cache := rest, items - {nonce}, None;
      return true;
    }

    /** Takes out the maximal run of consecutive nonces that starts at the lowest
        one, provided that one is not above start. */
    method Ready(start: nat) returns (ready: seq<Tx>)
      requires Valid()
      modifies this
      ensures Valid() && items == old(items) - Run(old(items), start).Keys
      ensures ready == Flat(Run(old(items), start))
    {
      hide Flat, Run, Indexes;
      ready := [];
      RootOf(index, items);
      if |index| == 0 || index[0] > start {
        RunTaken(items, items, ready, start);
        return;
      }
      ghost var f := Flat(items);
      var next := index[0];
      while |index| > 0 && index[0] == next
        invariant Keyed(items) && Indexes(index, items) && ready + Flat(items) == f
        invariant next == f[0].nonce + |ready| && |ready| <= |f|
        invariant forall i :: 0 <= i < |ready| ==> ready[i].nonce == f[0].nonce + i
        invariant SubMap(items, old(items))
        decreases |items|
      {
        var popped, rest := PopNonce(index, items);
        assert ready + [items[next]] + Flat(items - {next}) == ready + Flat(items);
        ready := ready + [items[next]];
        index, items, next := rest, items - {next}, next + 1;
      }
      cache := None;
      ReadyDone(index, items, f, ready);
      RunTaken(old(items), items, ready, start);
    }

    /** The nonce-sorted contents, cached until the next change. */
    method Flatten() returns (txs: seq<Tx>)
      requires Valid()
      modifies this`cache
      ensures Valid() && txs == Flat(items) && cache == Some(txs)
    {
      if cache.None? {
        NonceOrder();
        var unsorted := Unordered(items);
        var sorted := Heap.Sort(unsorted, TxNonceLess);
        SortedIsFlat(sorted, items);
        cache := Some(sorted);
      }
      return cache.value;
    }

    method LastElement() returns (tx: Tx)
      requires Valid() && items != map[]
      modifies this`cache
      ensures Valid() && tx in TxSet(items) && forall n :: n in items ==> n <= tx.nonce
    {
      var txs := Flatten();
      tx := txs[|txs| - 1];
      FlatNonces(items, |txs| - 1);
      forall n | n in items ensures n <= tx.nonce {
        InOrder(items, |txs| - 1, PlaceOf(items, n));
      }
    }
  }

  /** Collects the transactions of a map in the map's arbitrary order. */
  method Unordered(items: map<nat, Tx>) returns (txs: seq<Tx>)
    requires Keyed(items)
    ensures Lists(txs, items)
  {
    txs := [];
    var todo := items.Keys;
    while todo != {}
      invariant todo <= items.Keys
      invariant Lists(txs, items - todo)
      decreases |todo|
    {
      var nonce :| nonce in todo;
      ListsOne(items - todo, items - (todo - {nonce}), nonce, txs, items[nonce]);
      txs, todo := txs + [items[nonce]], todo - {nonce};
    }
    assert items - {} == items;
  }
}
