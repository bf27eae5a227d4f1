/** The price index of the remote transactions (core/tx_list.go): an urgent heap
    by effective tip and a floating heap by fee cap. Entries of transactions that
    left the pool stay behind as stale ones until they surface.
 */
module PricedLists {
  import opened Options
  import opened Transactions
  import Heap

  function Cmp(a: int, b: int): int { if a < b then -1 else if a > b then 1 else 0 }

  /** min(tip, feeCap - baseFee) */
  function EffectiveTip(tx: Tx, baseFee: int): int {
    if tx.tipCap < tx.feeCap - baseFee then tx.tipCap else tx.feeCap - baseFee
  }

  /** priceHeap.cmp */
  function PriceCmp(baseFee: Option<int>, a: Tx, b: Tx): int {
    var byTip := if baseFee.Some? then Cmp(EffectiveTip(a, baseFee.value), EffectiveTip(b, baseFee.value)) else 0;
    if byTip != 0 then byTip
    else if Cmp(a.feeCap, b.feeCap) != 0 then Cmp(a.feeCap, b.feeCap)
    else Cmp(a.tipCap, b.tipCap)
  }

  /** priceHeap.Less: cheaper first, among equals the later nonce first. */
  predicate PriceLess(baseFee: Option<int>, a: Tx, b: Tx) {
    PriceCmp(baseFee, a, b) < 0 || (PriceCmp(baseFee, a, b) == 0 && a.nonce > b.nonce)
  }

  function Order(baseFee: Option<int>): (Tx, Tx) -> bool {
    (a, b) => PriceLess(baseFee, a, b)
  }

  lemma PriceOrder(baseFee: Option<int>)
    ensures Heap.StrictWeakOrder(Order(baseFee))
  {
  }

  /** The root of a price heap costs no more than any entry. */
  lemma RootCheapest(h: seq<Tx>, baseFee: Option<int>, tx: Tx)
    requires Heap.IsHeap(h, Order(baseFee)) && |h| > 0
    ensures PriceCmp(baseFee, h[0], tx) >= 0 <==> forall e :: e in h ==> PriceCmp(baseFee, e, tx) >= 0
  {
    PriceOrder(baseFee);
    forall e | e in h ensures PriceCmp(baseFee, h[0], tx) >= 0 ==> PriceCmp(baseFee, e, tx) >= 0 {
      var k: nat :| k < |h| && h[k] == e;
      Heap.RootIsLeast(h, Order(baseFee), k);
      assert !PriceLess(baseFee, e, h[0]);
    }
  }

  function SlotSum(txs: seq<Tx>): nat {
    if txs == [] then 0 else SlotSum(txs[..|txs| - 1]) + txs[|txs| - 1].slots
  }

  lemma NothingDropped(u: seq<Tx>, f: seq<Tx>, remotes: set<Tx>, baseFee: Option<int>)
    ensures Conserved(u, f, u, f, [], remotes) && SlotSum([]) == 0 && Discarding(f, u, f, [], baseFee, remotes)
  {
  }

  lemma RankedNothing(u: seq<Tx>, f: seq<Tx>)
    ensures NothingNew(u, f, u, f, []) && (Under(f, u) ==> Ranked(u, f, []))
  {
  }

  lemma FewerEntries(u0: seq<Tx>, f0: seq<Tx>, u: seq<Tx>, f: seq<Tx>, drop: seq<Tx>, baseFee: Option<int>,
                     u': seq<Tx>, f': seq<Tx>)
    requires NothingNew(u0, f0, u, f, drop) && (baseFee.None? && Under(f0, u0) ==> Ranked(u, f, drop))
    requires multiset(u') <= multiset(u) && multiset(f') <= multiset(f)
    ensures NothingNew(u0, f0, u', f', drop) && (baseFee.None? && Under(f0, u0) ==> Ranked(u', f', drop))
  {
    hide NothingNew, Under, Ranked;
    NewStale(u0, f0, u, f, drop, u', f');
    if baseFee.None? && Under(f0, u0) {
      RankedStale(u, f, drop, u', f');
    }
  }

  lemma NoneCheaper(drop: seq<Tx>)
    ensures drop != [] ==> NoCheaper([], None, drop[|drop| - 1])
  {
  }

  /** Part way through discarding. */
  ghost predicate Discarding(f0: seq<Tx>, u: seq<Tx>, f: seq<Tx>, drop: seq<Tx>, baseFee: Option<int>, remotes: set<Tx>)
  {
    && StillFloats(f0, f, drop, remotes) && DropsInOrder(f0, drop, remotes)
    && FromUrgent(f0, baseFee, u, f) && FromUrgent(f0, baseFee, u, drop)
  }

  lemma SlotSumGrows(txs: seq<Tx>, tx: Tx)
    ensures SlotSum(txs + [tx]) == SlotSum(txs) + tx.slots
  {
    assert (txs + [tx])[..|txs|] == txs;
  }

  lemma {:induction false} SlotSumJoin(a: seq<Tx>, b: seq<Tx>)
    ensures SlotSum(a + b) == SlotSum(a) + SlotSum(b)
  {
    if b == [] {
      assert a + b == a;
    } else {
      var init, last := b[..|b| - 1], b[|b| - 1];
      assert (a + b)[..|a + b| - 1] == a + init;
      SlotSumJoin(a, init);
    }
  }

  lemma TakeOut(b: seq<Tx>, k: nat)
    requires k < |b|
    ensures var rest := b[..k] + b[k + 1..];
      multiset(b) == multiset(rest) + multiset{b[k]} && SlotSum(b) == SlotSum(rest) + b[k].slots
  {
    var low, high := b[..k], b[k + 1..];
    assert b == low + ([b[k]] + high);
    SlotSumJoin(low, [b[k]] + high);
    SlotSumJoin([b[k]], high);
    SlotSumJoin(low, high);
  }

  /** Slots depend on how often each transaction is listed, not on the order. */
  lemma {:induction false} SlotSumPart(a: seq<Tx>, b: seq<Tx>)
    requires multiset(a) <= multiset(b)
    ensures SlotSum(a) <= SlotSum(b)
    decreases |a|
  {
    hide SlotSum;
    if a == [] {
      assert SlotSum(a) <= SlotSum(b) by { SlotSumJoin(a, b); assert a + b == b; }
    } else {
      TakeOut(a, 0);
      assert a[0] in multiset(a);
      var k: nat :| k < |b| && b[k] == a[0];
      TakeOut(b, k);
      var rest, left := a[..0] + a[0 + 1..], b[..k] + b[k + 1..];
      assert multiset(rest) <= multiset(left) by {
        forall x ensures multiset(rest)[x] <= multiset(left)[x] {
          assert multiset(a)[x] == (multiset(rest) + multiset{a[0]})[x];
        }
      }
      SlotSumPart(rest, left);
    }
  }

  /** The entries of a heap that belong to remote transactions. */
  function Live(h: seq<Tx>, remotes: set<Tx>): (live: seq<Tx>)
    ensures forall tx :: multiset(live)[tx] == if tx in remotes then multiset(h)[tx] else 0
  {
    if h == [] then [] else
    var init, last := Live(h[..|h| - 1], remotes), h[|h| - 1];
    assert h == h[..|h| - 1] + [last];
    if last in remotes then init + [last] else init
  }

  /** The slots the heaps account for: those of a transaction as often as it has entries. */
  function LiveSlots(urgent: seq<Tx>, floating: seq<Tx>, remotes: set<Tx>): nat {
    SlotSum(Live(urgent, remotes) + Live(floating, remotes))
  }

  /** How often tx is in either heap. */
  ghost function Entries(urgent: seq<Tx>, floating: seq<Tx>, tx: Tx): nat {
    multiset(urgent)[tx] + multiset(floating)[tx]
  }

  /** Every remote transaction has an entry. */
  ghost predicate Tracks(urgent: seq<Tx>, floating: seq<Tx>, remotes: set<Tx>) {
    forall tx :: tx in remotes ==> tx in urgent || tx in floating
  }

  /** Every remote transaction has exactly one entry: none is left over from an earlier
      stay in the pool. */
  ghost predicate Single(urgent: seq<Tx>, floating: seq<Tx>, remotes: set<Tx>) {
    forall tx :: tx in remotes ==> Entries(urgent, floating, tx) == 1
  }

  /** A new remote transaction leaves every one with a single entry exactly if it had no
      stale entry itself. */
  lemma SinglePut(u: seq<Tx>, f: seq<Tx>, u': seq<Tx>, remotes: set<Tx>, tx: Tx)
    requires Single(u, f, remotes) && tx !in remotes && multiset(u') == multiset(u) + multiset{tx}
    ensures Single(u', f, remotes + {tx}) <==> Entries(u, f, tx) == 0
  {
    assert Entries(u', f, tx) == Entries(u, f, tx) + 1;
    assert forall x :: x in remotes ==> Entries(u', f, x) == Entries(u, f, x);
  }

  /** Heaps that hold every remote transaction once are single. */
  lemma SingleRebuilt(u: seq<Tx>, f: seq<Tx>, remotes: set<Tx>)
    requires multiset(u) + multiset(f) == multiset(remotes)
    ensures Single(u, f, remotes)
  {
    forall tx | tx in remotes ensures Entries(u, f, tx) == 1 {
      assert (multiset(u) + multiset(f))[tx] == multiset(remotes)[tx];
    }
  }

  /** The live entries and the dropped transactions together are what was there. */
  ghost predicate Conserved(u0: seq<Tx>, f0: seq<Tx>, u: seq<Tx>, f: seq<Tx>, drop: seq<Tx>, remotes: set<Tx>) {
    forall tx :: tx in remotes ==> Entries(u, f, tx) + multiset(drop)[tx] == Entries(u0, f0, tx)
  }

  /** Dropping never frees more than the heaps account for, and draining them frees that. */
  lemma DropBounded(u0: seq<Tx>, f0: seq<Tx>, u: seq<Tx>, f: seq<Tx>, drop: seq<Tx>, remotes: set<Tx>)
    requires Conserved(u0, f0, u, f, drop, remotes) && forall tx :: tx in drop ==> tx in remotes
    ensures SlotSum(drop) <= LiveSlots(u0, f0, remotes)
    ensures u == f == [] ==> SlotSum(drop) == LiveSlots(u0, f0, remotes)
  {
    var live := Live(u0, remotes) + Live(f0, remotes);
    forall tx
      ensures multiset(drop)[tx] <= multiset(live)[tx]
      ensures u == f == [] ==> multiset(drop)[tx] == multiset(live)[tx]
    {
      assert tx in multiset(drop) <==> tx in drop;
      assert multiset(live)[tx] == multiset(Live(u0, remotes))[tx] + multiset(Live(f0, remotes))[tx];
    }
    SlotSumPart(drop, live);
    if u == f == [] {
      SlotSumPart(live, drop);
    }
  }

  /** The entries afterwards and the dropped transactions were all there before. */
  ghost predicate NothingNew(u0: seq<Tx>, f0: seq<Tx>, u: seq<Tx>, f: seq<Tx>, drop: seq<Tx>) {
    multiset(u) + multiset(f) + multiset(drop) <= multiset(u0) + multiset(f0)
  }

  lemma NewMove(u0: seq<Tx>, f0: seq<Tx>, u: seq<Tx>, f: seq<Tx>, drop: seq<Tx>, tx: Tx, u': seq<Tx>, f': seq<Tx>)
    requires NothingNew(u0, f0, u, f, drop)
    requires multiset(u) == multiset(u') + multiset{tx} && multiset(f') == multiset(f) + multiset{tx}
    ensures NothingNew(u0, f0, u', f', drop)
  {
    assert multiset(u') + multiset(f') == multiset(u) + multiset(f);
  }

  lemma NewStale(u0: seq<Tx>, f0: seq<Tx>, u: seq<Tx>, f: seq<Tx>, drop: seq<Tx>, u': seq<Tx>, f': seq<Tx>)
    requires NothingNew(u0, f0, u, f, drop) && multiset(u') <= multiset(u) && multiset(f') <= multiset(f)
    ensures NothingNew(u0, f0, u', f', drop)
  {
  }

  lemma NewDrop(u0: seq<Tx>, f0: seq<Tx>, u: seq<Tx>, f: seq<Tx>, drop: seq<Tx>, tx: Tx, f': seq<Tx>)
    requires NothingNew(u0, f0, u, f, drop) && multiset(f) == multiset(f') + multiset{tx}
    ensures NothingNew(u0, f0, u, f', drop + [tx])
  {
    assert multiset(drop + [tx]) == multiset(drop) + multiset{tx};
  }

  /** No entry of h is cheaper than one of s. */
  ghost predicate Under(s: seq<Tx>, h: seq<Tx>) {
    forall x, y :: x in s && y in h ==> !PriceLess(None, y, x)
  }

  /** While there is no base fee, nothing that is left is cheaper than what went, if what
      floated was not dearer than what was urgent. */
  ghost predicate Ranked(u: seq<Tx>, f: seq<Tx>, drop: seq<Tx>) {
    Under(f, u) && Under(drop, u) && Under(drop, f)
  }

  lemma RankedMove(u: seq<Tx>, f: seq<Tx>, drop: seq<Tx>, tx: Tx, rest: seq<Tx>, grown: seq<Tx>)
    requires Ranked(u, f, drop) && NoCheaper(rest, None, tx)
    requires multiset(u) == multiset(rest) + multiset{tx} && multiset(grown) == multiset(f) + multiset{tx}
    ensures Ranked(rest, grown, drop)
  {
    Fewer(u, rest, tx);
    Fewer(grown, f, tx);
  }

  lemma Within(h': seq<Tx>, h: seq<Tx>)
    requires multiset(h') <= multiset(h)
    ensures forall x :: x in h' ==> x in h
  {
    forall x | x in h' ensures x in h {
      assert x in multiset(h') && multiset(h')[x] <= multiset(h)[x];
      assert x in multiset(h);
    }
  }

  lemma RankedStale(u: seq<Tx>, f: seq<Tx>, drop: seq<Tx>, u': seq<Tx>, f': seq<Tx>)
    requires Ranked(u, f, drop) && multiset(u') <= multiset(u) && multiset(f') <= multiset(f)
    ensures Ranked(u', f', drop)
  {
    Within(u', u);
    Within(f', f);
  }

  lemma RankedDrop(u: seq<Tx>, f: seq<Tx>, drop: seq<Tx>, tx: Tx, rest: seq<Tx>)
    requires Ranked(u, f, drop) && NoCheaper(rest, None, tx) && multiset(f) == multiset(rest) + multiset{tx}
    ensures Ranked(u, rest, drop + [tx])
  {
    Fewer(f, rest, tx);
  }

  lemma ConservedTracks(u0: seq<Tx>, f0: seq<Tx>, u: seq<Tx>, f: seq<Tx>, drop: seq<Tx>, remotes: set<Tx>)
    requires Tracks(u0, f0, remotes) && Conserved(u0, f0, u, f, drop, remotes)
    ensures Tracks(u, f, remotes - (set tx | tx in drop))
  {
    forall tx | tx in remotes && tx !in drop ensures tx in u || tx in f {
      assert Entries(u0, f0, tx) > 0 by { assert tx in multiset(u0) || tx in multiset(f0); }
      assert multiset(drop)[tx] == 0;
      assert tx in multiset(u) || tx in multiset(f);
    }
  }

  /** An urgent entry that moves to the floating heap is still there. */
  lemma MoveConserves(u0: seq<Tx>, f0: seq<Tx>, u: seq<Tx>, f: seq<Tx>, drop: seq<Tx>, remotes: set<Tx>, tx: Tx,
                      u': seq<Tx>, f': seq<Tx>)
    requires Conserved(u0, f0, u, f, drop, remotes) && multiset(u) == multiset(u') + multiset{tx}
    requires multiset(f') == multiset(f) + multiset{tx}
    ensures Conserved(u0, f0, u', f', drop, remotes)
  {
  }

  /** A stale entry does not count. */
  lemma StaleConserves(u0: seq<Tx>, f0: seq<Tx>, u: seq<Tx>, f: seq<Tx>, drop: seq<Tx>, remotes: set<Tx>, tx: Tx,
                       u': seq<Tx>, f': seq<Tx>)
    requires Conserved(u0, f0, u, f, drop, remotes) && tx !in remotes
    requires multiset(u) + multiset(f) == multiset(u') + multiset(f') + multiset{tx}
    ensures Conserved(u0, f0, u', f', drop, remotes)
  {
    forall x | x in remotes ensures Entries(u', f', x) + multiset(drop)[x] == Entries(u0, f0, x) {
      assert (multiset(u) + multiset(f))[x] == (multiset(u') + multiset(f') + multiset{tx})[x];
    }
  }

  /** A live entry that goes is listed as dropped. */
  lemma DropConserves(u0: seq<Tx>, f0: seq<Tx>, u: seq<Tx>, f: seq<Tx>, drop: seq<Tx>, remotes: set<Tx>, tx: Tx,
                      f': seq<Tx>)
    requires Conserved(u0, f0, u, f, drop, remotes) && multiset(f) == multiset(f') + multiset{tx}
    ensures Conserved(u0, f0, u, f', drop + [tx], remotes)
  {
    assert multiset(drop + [tx]) == multiset(drop) + multiset{tx};
  }

  /** No entry of the heap comes before tx. */
  ghost predicate NoCheaper(h: seq<Tx>, baseFee: Option<int>, tx: Tx) {
    forall x :: x in h ==> !PriceLess(baseFee, x, tx)
  }

  /** The live entries of f0 that are not among the dropped ones still float. */
  ghost predicate StillFloats(f0: seq<Tx>, f: seq<Tx>, drop: seq<Tx>, remotes: set<Tx>) {
    forall x :: x in f0 && x in remotes && x !in drop ==> x in f
  }

  /** What went, or floats, without having floated before was the cheapest urgent entry. */
  ghost predicate FromUrgent(f0: seq<Tx>, baseFee: Option<int>, u: seq<Tx>, s: seq<Tx>) {
    forall x :: x in s && x !in f0 ==> NoCheaper(u, baseFee, x)
  }

  /** When drop[k] went, no live floating entry left was cheaper. */
  ghost predicate DropsInOrder(f0: seq<Tx>, drop: seq<Tx>, remotes: set<Tx>) {
    forall k, x :: 0 <= k < |drop| && x in f0 && x in remotes && x !in drop[..k + 1] ==> !PriceLess(None, x, drop[k])
  }

  /** The most underpriced transactions go: the floating ones by rising fee cap; an urgent
      one only when none left urgent is cheaper; and nothing that floats afterwards is
      cheaper than the one dropped last. */
  ghost predicate CheapestGo(f0: seq<Tx>, u: seq<Tx>, f: seq<Tx>, drop: seq<Tx>, baseFee: Option<int>, remotes: set<Tx>)
  {
    && DropsInOrder(f0, drop, remotes) && FromUrgent(f0, baseFee, u, drop)
    && (drop != [] ==> NoCheaper(f, None, drop[|drop| - 1]))
  }

  lemma MoveKeepsOrder(f0: seq<Tx>, f: seq<Tx>, drop: seq<Tx>, remotes: set<Tx>, baseFee: Option<int>, u: seq<Tx>,
                       tx: Tx, rest: seq<Tx>, grown: seq<Tx>)
    requires StillFloats(f0, f, drop, remotes) && FromUrgent(f0, baseFee, u, f) && FromUrgent(f0, baseFee, u, drop)
    requires multiset(u) == multiset(rest) + multiset{tx} && multiset(grown) == multiset(f) + multiset{tx}
    requires NoCheaper(rest, baseFee, tx)
    ensures StillFloats(f0, grown, drop, remotes)
    ensures FromUrgent(f0, baseFee, rest, grown) && FromUrgent(f0, baseFee, rest, drop)
  {
    Fewer(u, rest, tx);
    forall x ensures x in grown <==> x in f || x == tx {
      assert x in grown <==> x in multiset(grown);
      assert x in f <==> x in multiset(f);
    }
  }

  lemma Fewer(h: seq<Tx>, rest: seq<Tx>, tx: Tx)
    requires multiset(h) == multiset(rest) + multiset{tx}
    ensures forall x :: x in h <==> x in rest || x == tx
  {
    forall x ensures x in h <==> x in rest || x == tx {
      assert x in h <==> x in multiset(h);
      assert x in rest <==> x in multiset(rest);
    }
  }

  lemma DropKeepsOrder(f0: seq<Tx>, f: seq<Tx>, drop: seq<Tx>, remotes: set<Tx>, baseFee: Option<int>, u: seq<Tx>,
                       tx: Tx, rest: seq<Tx>)
    requires StillFloats(f0, f, drop, remotes) && FromUrgent(f0, baseFee, u, f) && FromUrgent(f0, baseFee, u, drop)
    requires DropsInOrder(f0, drop, remotes)
    requires multiset(f) == multiset(rest) + multiset{tx} && NoCheaper(rest, None, tx)
    ensures StillFloats(f0, rest, drop + [tx], remotes) && DropsInOrder(f0, drop + [tx], remotes)
    ensures FromUrgent(f0, baseFee, u, rest) && FromUrgent(f0, baseFee, u, drop + [tx])
  {
    Fewer(f, rest, tx);
    var all := drop + [tx];
    forall k, x | 0 <= k < |all| && x in f0 && x in remotes && x !in all[..k + 1] ensures !PriceLess(None, x, all[k]) {
      if k < |drop| {
        assert all[..k + 1] == drop[..k + 1];
      } else {
        assert all[..k + 1] == all;
        assert x in f && x != tx;
      }
    }
  }

  lemma StaleKeepsOrder(f0: seq<Tx>, f: seq<Tx>, drop: seq<Tx>, remotes: set<Tx>, baseFee: Option<int>, u: seq<Tx>,
                        tx: Tx, rest: seq<Tx>)
    requires StillFloats(f0, f, drop, remotes) && FromUrgent(f0, baseFee, u, f)
    requires multiset(f) == multiset(rest) + multiset{tx} && tx !in remotes
    ensures StillFloats(f0, rest, drop, remotes) && FromUrgent(f0, baseFee, u, rest)
  {
    Fewer(f, rest, tx);
  }

  lemma StaleUrgent(f0: seq<Tx>, baseFee: Option<int>, u: seq<Tx>, rest: seq<Tx>, tx: Tx, f: seq<Tx>)
    requires multiset(u) == multiset(rest) + multiset{tx} && FromUrgent(f0, baseFee, u, f)
    ensures FromUrgent(f0, baseFee, rest, f)
  {
    Fewer(u, rest, tx);
  }

  method PopEntry(h: seq<Tx>, baseFee: Option<int>) returns (tx: Tx, rest: seq<Tx>)
    requires Heap.IsHeap(h, Order(baseFee)) && |h| > 0
    ensures Heap.IsHeap(rest, Order(baseFee)) && multiset(h) == multiset(rest) + multiset{tx} && |rest| == |h| - 1
    ensures NoCheaper(rest, baseFee, tx)
  {
    PriceOrder(baseFee);
    tx, rest := Heap.Pop(h, Order(baseFee));
    Heap.SameSize(h, rest + [tx]);
  }

  method PushEntry(h: seq<Tx>, tx: Tx, baseFee: Option<int>) returns (grown: seq<Tx>)
    requires Heap.IsHeap(h, Order(baseFee))
    ensures Heap.IsHeap(grown, Order(baseFee)) && multiset(grown) == multiset(h) + multiset{tx} && |grown| == |h| + 1
  {
    PriceOrder(baseFee);
    grown := Heap.Push(h, tx, Order(baseFee));
    Heap.SameSize(grown, h + [tx]);
  }

  /** The loop of Discard: moves the cheapest urgent entries to the floating heap
      while it is too small, and otherwise drops the cheapest floating ones. */
  method DiscardLoop(u0: seq<Tx>, f0: seq<Tx>, baseFee: Option<int>, remotes: set<Tx>, wanted: int)
    returns (u: seq<Tx>, f: seq<Tx>, drop: seq<Tx>, stale: nat)
    requires Heap.IsHeap(u0, Order(baseFee)) && Heap.IsHeap(f0, Order(None))
    ensures Heap.IsHeap(u, Order(baseFee)) && Heap.IsHeap(f, Order(None))
    ensures Conserved(u0, f0, u, f, drop, remotes) && forall tx :: tx in drop ==> tx in remotes
    ensures SlotSum(drop) >= wanted || (u == [] && f == [])
    ensures drop != [] ==> SlotSum(drop[..|drop| - 1]) < wanted
    ensures CheapestGo(f0, u, f, drop, baseFee, remotes) && NothingNew(u0, f0, u, f, drop)
    ensures baseFee.None? && Under(f0, u0) ==> Ranked(u, f, drop)
  {
    hide Conserved, Heap.IsHeap, SlotSum, Order, NoCheaper, StillFloats, FromUrgent, DropsInOrder, NothingNew, Under,
         Ranked;
    u, f, drop, stale := u0, f0, [], 0;
    NothingDropped(u0, f0, remotes, baseFee);
    RankedNothing(u0, f0);
    var slots := wanted;
    while slots > 0
      invariant Heap.IsHeap(u, Order(baseFee)) && Heap.IsHeap(f, Order(None))
      invariant Conserved(u0, f0, u, f, drop, remotes) && forall tx :: tx in drop ==> tx in remotes
      invariant slots == wanted - SlotSum(drop)
      invariant drop != [] ==> SlotSum(drop[..|drop| - 1]) < wanted
      invariant Discarding(f0, u, f, drop, baseFee, remotes)
      invariant slots <= 0 && drop != [] ==> NoCheaper(f, None, drop[|drop| - 1])
      invariant NothingNew(u0, f0, u, f, drop) && (baseFee.None? && Under(f0, u0) ==> Ranked(u, f, drop))
      decreases 2 * |u| + |f|
    {
      if |u| > |f| * 4 {
        var tx, rest := PopEntry(u, baseFee);
        if tx !in remotes {
          StaleConserves(u0, f0, u, f, drop, remotes, tx, rest, f);
          StaleUrgent(f0, baseFee, u, rest, tx, f);
          StaleUrgent(f0, baseFee, u, rest, tx, drop);
          FewerEntries(u0, f0, u, f, drop, baseFee, rest, f);
          u, stale := rest, stale + 1;
        } else {
          var grown := PushEntry(f, tx, None);
          MoveConserves(u0, f0, u, f, drop, remotes, tx, rest, grown);
          MoveKeepsOrder(f0, f, drop, remotes, baseFee, u, tx, rest, grown);
          NewMove(u0, f0, u, f, drop, tx, rest, grown);
          if baseFee.None? && Under(f0, u0) {
            RankedMove(u, f, drop, tx, rest, grown);
          }
          u, f := rest, grown;
        }
      } else {
        if |f| == 0 {
          break;
        }
        var tx, rest := PopEntry(f, None);
        if tx !in remotes {
          StaleConserves(u0, f0, u, f, drop, remotes, tx, u, rest);
          StaleKeepsOrder(f0, f, drop, remotes, baseFee, u, tx, rest);
          FewerEntries(u0, f0, u, f, drop, baseFee, u, rest);
          f, stale := rest, stale + 1;
        } else {
          DropConserves(u0, f0, u, f, drop, remotes, tx, rest);
          DropKeepsOrder(f0, f, drop, remotes, baseFee, u, tx, rest);
          NewDrop(u0, f0, u, f, drop, tx, rest);
          if baseFee.None? && Under(f0, u0) {
            RankedDrop(u, f, drop, tx, rest);
          }
          SlotSumGrows(drop, tx);
          assert (drop + [tx])[..|drop|] == drop;
          f, drop, slots := rest, drop + [tx], slots - tx.slots;
        }
      }
    }
    if f == [] {
      NoneCheaper(drop);
    }
  }

  /** Pops stale entries until a live one is at the root. */
  method DropStale(h0: seq<Tx>, baseFee: Option<int>, remotes: set<Tx>) returns (h: seq<Tx>, stale: nat)
    requires Heap.IsHeap(h0, Order(baseFee))
    ensures Heap.IsHeap(h, Order(baseFee)) && (|h| > 0 ==> h[0] in remotes)
    ensures SameLive(h0, h, remotes) && multiset(h) <= multiset(h0)
  {
    PriceOrder(baseFee);
    h, stale := h0, 0;
    while |h| > 0 && h[0] !in remotes
      invariant Heap.IsHeap(h, Order(baseFee))
      invariant forall tx :: tx in remotes ==> multiset(h)[tx] == multiset(h0)[tx]
      invariant multiset(h) <= multiset(h0)
      decreases |h|
    {
      var tx, rest := Heap.Pop(h, Order(baseFee));
      Heap.SameSize(h, rest + [tx]);
      h, stale := rest, stale + 1;
    }
  }

  /** The remote transactions in the lookup's arbitrary order. */
  method ListAll(remotes: set<Tx>) returns (s: seq<Tx>)
    ensures multiset(s) == multiset(remotes)
  {
    s := [];
    var todo := remotes;
    while todo != {}
      invariant todo <= remotes && multiset(s) == multiset(remotes - todo)
      decreases |todo|
    {
      var tx :| tx in todo;
      assert remotes - (todo - {tx}) == (remotes - todo) + {tx};
      s, todo := s + [tx], todo - {tx};
    }
    assert remotes - {} == remotes;
  }

  /** Both heaps over the remote transactions, the cheapest fifth floating. */
  method Rebuilt(remotes: set<Tx>, baseFee: Option<int>) returns (u: seq<Tx>, f: seq<Tx>)
    ensures Heap.IsHeap(u, Order(baseFee)) && Heap.IsHeap(f, Order(None))
    ensures multiset(u) + multiset(f) == multiset(remotes) && |f| == |remotes| / 5
    ensures forall x, y :: x in f && y in u ==> !PriceLess(baseFee, y, x)
  {
    PriceOrder(baseFee);
    PriceOrder(None);
    var all := ListAll(remotes);
    u := Heap.Init(all, Order(baseFee));
    f := [];
    assert |all| == |multiset(all)| == |remotes|;
    var count := |u| / 5;
    while |f| < count
      invariant Heap.IsHeap(u, Order(baseFee)) && multiset(u) + multiset(f) == multiset(remotes)
      invariant |u| + |f| == |remotes| && |f| <= count == |remotes| / 5
      invariant forall x, y :: x in f && y in u ==> !PriceLess(baseFee, y, x)
      decreases count - |f|
    {
      var tx, rest := Heap.Pop(u, Order(baseFee));
      Heap.SameSize(u, rest + [tx]);
      assert forall y :: y in rest ==> !Order(baseFee)(y, tx);
      u, f := rest, f + [tx];
    }
    var heaped := Heap.Init(f, Order(None));
    Heap.SameSize(heaped, f);
    f := heaped;
  }

  class PricedList {
    var baseFee: Option<int>
    var urgent: seq<Tx>
    var floating: seq<Tx>
    var stales: int

    ghost predicate Valid()
      reads this
    {
      Heap.IsHeap(urgent, Order(baseFee)) && Heap.IsHeap(floating, Order(None))
    }

    ghost predicate Covers(remotes: set<Tx>)
      reads this
    {
      Tracks(urgent, floating, remotes)
    }

    constructor ()
      ensures Valid() && urgent == floating == [] && stales == 0 && baseFee == None
    {
      baseFee, urgent, floating, stales := None, [], [], 0;
    }

    method Put(tx: Tx, local: bool, ghost remotes: set<Tx>)
      requires Valid() && Covers(remotes)
      modifies this`urgent
      ensures Valid() && Covers(if local then remotes else remotes + {tx})
      ensures local ==> urgent == old(urgent)
      ensures multiset(urgent) == multiset(old(urgent)) + if local then multiset{} else multiset{tx}
      ensures !local && tx !in remotes && old(Single(urgent, floating, remotes)) ==>
                (Single(urgent, floating, remotes + {tx}) <==> old(Entries(urgent, floating, tx)) == 0)
    {
      if !local {
        PriceOrder(baseFee);
        var grown := Heap.Push(urgent, tx, Order(baseFee));
        Heap.SameSize(grown, urgent + [tx]);
        if tx !in remotes && Single(urgent, floating, remotes) {
          SinglePut(urgent, floating, grown, remotes, tx);
        }
        urgent := grown;
      }
    }

    /** Counts stale entries; rebuilds the heaps once they pass a quarter. */
    method Removed(count: nat, remotes: set<Tx>)
      requires Valid() && Covers(remotes)
      modifies this`urgent, this`floating, this`stales
      ensures Valid() && Covers(remotes)
      ensures old(Single(urgent, floating, remotes)) ==> Single(urgent, floating, remotes)
      ensures old(stales) + count <= (|old(urgent)| + |old(floating)|) / 4 ==>
                urgent == old(urgent) && floating == old(floating) && stales == old(stales) + count
      ensures old(stales) + count > (|old(urgent)| + |old(floating)|) / 4 ==>
                && multiset(urgent) + multiset(floating) == multiset(remotes) && stales == 0
                && Single(urgent, floating, remotes)
    {
      stales := stales + count;
      if stales <= (|urgent| + |floating|) / 4 {
        return;
      }
      Reheap(remotes);
    }

    /** Rebuilds both heaps from the remote transactions; the cheapest fifth floats. */
    method Reheap(remotes: set<Tx>)
      modifies this`urgent, this`floating, this`stales
      ensures Valid() && Covers(remotes) && Single(urgent, floating, remotes) && stales == 0
      ensures multiset(urgent) + multiset(floating) == multiset(remotes) && |floating| == |remotes| / 5
      ensures forall x, y :: x in floating && y in urgent ==> !PriceLess(baseFee, y, x)
    {
      stales := 0;
      urgent, floating := Rebuilt(remotes, baseFee);
      SingleRebuilt(urgent, floating, remotes);
      forall tx | tx in remotes ensures tx in urgent || tx in floating {
        assert tx in multiset(urgent) + multiset(floating);
      }
    }

    method SetBaseFee(fee: int, remotes: set<Tx>)
      modifies this
      ensures Valid() && Covers(remotes) && Single(urgent, floating, remotes) && baseFee == Some(fee)
      ensures multiset(urgent) + multiset(floating) == multiset(remotes)
    {
      baseFee := Some(fee);
      Reheap(remotes);
    }

    /** Whether tx is no better than any remote transaction in the heap that has it, and
        there is one at all; only stale entries are thrown out on the way. */
    method Underpriced(tx: Tx, remotes: set<Tx>) returns (r: bool)
      requires Valid() && Covers(remotes)
      modifies this`urgent, this`floating, this`stales
      ensures Valid() && Covers(remotes)
      ensures SameLive(old(urgent), urgent, remotes) && SameLive(old(floating), floating, remotes)
      ensures multiset(urgent) <= multiset(old(urgent)) && multiset(floating) <= multiset(old(floating))
      ensures r == NoBetter(old(urgent), old(floating), baseFee, tx, remotes)
    {
      hide Heap.IsHeap, PriceCmp, Entries;
      var stale;
      var u0, f0 := urgent, floating;
      urgent, stale := DropStale(urgent, baseFee, remotes);
      stales := stales - stale;
      KeepsCover(u0, f0, urgent, floating, remotes);
      RootDecides(u0, urgent, baseFee, tx, remotes);
      if |urgent| > 0 && PriceCmp(baseFee, urgent[0], tx) < 0 {
        return false;
      }
      floating, stale := DropStale(floating, None, remotes);
      stales := stales - stale;
      KeepsCover(u0, f0, urgent, floating, remotes);
      RootDecides(f0, floating, None, tx, remotes);
      if |floating| > 0 && PriceCmp(None, floating[0], tx) < 0 {
        return false;
      }
      r := |urgent| != 0 || |floating| != 0;
      if r {
        assert urgent != [] ==> urgent[0] in remotes;
        assert floating != [] ==> floating[0] in remotes;
      }
    }

    /** Drops the cheapest remote transactions until enough slots are free. It falls
        short only when nothing is tracked any more; then, unless forced, the dropped
        entries are put back. */
    method Discard(slots: int, force: bool, remotes: set<Tx>) returns (drop: seq<Tx>, success: bool)
      requires Valid() && Covers(remotes)
      modifies this`urgent, this`floating, this`stales
      ensures Valid() && Covers(remotes - (set tx | tx in drop))
      ensures Discards(old(urgent), old(floating), urgent, floating, drop, baseFee, remotes)
      ensures success <==> force || LiveSlots(old(urgent), old(floating), remotes) >= slots
      ensures !success ==> drop == []
      ensures success && !force ==> SlotSum(drop) >= slots
      ensures success && SlotSum(drop) < slots ==> force && urgent == floating == []
      ensures drop != [] ==> SlotSum(drop[..|drop| - 1]) < slots
    {
      hide Heap.IsHeap, Order, CheapestGo, Conserved, NothingNew, Under, Ranked, Outranks, LiveSlots, SlotSum;
      ghost var u0, f0 := urgent, floating;
      var u, f, stale;
      u, f, drop, stale := DiscardLoop(urgent, floating, baseFee, remotes, slots);
      stales := stales - stale;
      DropBounded(u0, f0, u, f, drop, remotes);
      var freed := SlotSum(drop);
      if freed < slots && !force {
        var none: seq<Tx> := [];
        u := PutBack(u0, f0, u, f, drop, baseFee, remotes);
        urgent, floating := u, f;
        ConservedTracks(u0, f0, u, f, none, remotes);
        NoneOutranks(u0, f0, remotes);
        return none, false;
      }
      urgent, floating := u, f;
      ConservedTracks(u0, f0, u, f, drop, remotes);
      if baseFee.None? && Under(f0, u0) {
        RankedOutranks(u0, f0, u, f, drop, remotes);
      }
      return drop, true;
    }
  }

  /** Both heaps have the same live entries. */
  ghost predicate SameLive(h0: seq<Tx>, h: seq<Tx>, remotes: set<Tx>) {
    forall e :: e in remotes ==> multiset(h)[e] == multiset(h0)[e]
  }

  /** tx is no better than any live entry of the heap. */
  ghost predicate NoBetterThan(h: seq<Tx>, baseFee: Option<int>, tx: Tx, remotes: set<Tx>) {
    forall e :: e in h && e in remotes ==> PriceCmp(baseFee, e, tx) >= 0
  }

  /** There are remote transactions, and tx is no better than any of them. */
  ghost predicate NoBetter(u: seq<Tx>, f: seq<Tx>, baseFee: Option<int>, tx: Tx, remotes: set<Tx>) {
    remotes != {} && NoBetterThan(u, baseFee, tx, remotes) && NoBetterThan(f, None, tx, remotes)
  }

  /** A live root decides for all live entries; without one there are none. */
  lemma RootDecides(h0: seq<Tx>, h: seq<Tx>, baseFee: Option<int>, tx: Tx, remotes: set<Tx>)
    requires Heap.IsHeap(h, Order(baseFee)) && (|h| > 0 ==> h[0] in remotes) && SameLive(h0, h, remotes)
    ensures NoBetterThan(h0, baseFee, tx, remotes) <==> (|h| > 0 ==> PriceCmp(baseFee, h[0], tx) >= 0)
    ensures h == [] ==> forall e :: e in h0 ==> e !in remotes
  {
    forall e | e in remotes ensures e in h <==> e in h0 {
      assert e in h <==> e in multiset(h);
      assert e in h0 <==> e in multiset(h0);
    }
    if |h| > 0 {
      RootCheapest(h, baseFee, tx);
      assert h[0] in h && h[0] in h0;
    }
  }

  /** No remote transaction with an entry left is cheaper than one that was dropped. */
  ghost predicate Outranks(u0: seq<Tx>, f0: seq<Tx>, drop: seq<Tx>, remotes: set<Tx>) {
    forall x, y :: x in drop && y in remotes && multiset(drop)[y] < Entries(u0, f0, y) ==> !PriceLess(None, y, x)
  }

  lemma NoneOutranks(u0: seq<Tx>, f0: seq<Tx>, remotes: set<Tx>)
    ensures Outranks(u0, f0, [], remotes)
  {
  }

  lemma RankedOutranks(u0: seq<Tx>, f0: seq<Tx>, u: seq<Tx>, f: seq<Tx>, drop: seq<Tx>, remotes: set<Tx>)
    requires Conserved(u0, f0, u, f, drop, remotes) && Ranked(u, f, drop)
    ensures Outranks(u0, f0, drop, remotes)
  {
    forall x, y | x in drop && y in remotes && multiset(drop)[y] < Entries(u0, f0, y) ensures !PriceLess(None, y, x) {
      assert Entries(u, f, y) > 0;
      assert y in multiset(u) || y in multiset(f);
      assert y in u || y in f;
    }
  }

  /** Everything discarding promises, whether or not stale roots went before. */
  ghost predicate Discards(u0: seq<Tx>, f0: seq<Tx>, u: seq<Tx>, f: seq<Tx>, drop: seq<Tx>, baseFee: Option<int>,
                           remotes: set<Tx>)
  {
    && Conserved(u0, f0, u, f, drop, remotes) && NothingNew(u0, f0, u, f, drop)
    && CheapestGo(f0, u, f, drop, baseFee, remotes)
    && (baseFee.None? && Under(f0, u0) ==> Outranks(u0, f0, drop, remotes))
    && forall tx :: tx in drop ==> tx in remotes
  }

  /** Throwing out stale entries first changes nothing about that. */
  lemma StaleFirst(u0: seq<Tx>, f0: seq<Tx>, u1: seq<Tx>, f1: seq<Tx>, u: seq<Tx>, f: seq<Tx>, drop: seq<Tx>,
                   baseFee: Option<int>, remotes: set<Tx>)
    requires SameLive(u0, u1, remotes) && SameLive(f0, f1, remotes)
    requires multiset(u1) <= multiset(u0) && multiset(f1) <= multiset(f0)
    requires Discards(u1, f1, u, f, drop, baseFee, remotes)
    ensures Discards(u0, f0, u, f, drop, baseFee, remotes)
  {
    hide PriceLess;
    Within(u1, u0);
    Within(f1, f0);
    forall e | e in remotes && e in f0 ensures e in f1 {
      assert e in multiset(f0) && e in multiset(f1);
    }
    assert forall e :: e in remotes ==> Entries(u0, f0, e) == Entries(u1, f1, e);
  }

  lemma LiveSame(h0: seq<Tx>, h: seq<Tx>, remotes: set<Tx>)
    requires SameLive(h0, h, remotes)
    ensures multiset(Live(h0, remotes)) == multiset(Live(h, remotes))
  {
    hide Live;
  }

  lemma StaleFirstSlots(u0: seq<Tx>, f0: seq<Tx>, u1: seq<Tx>, f1: seq<Tx>, remotes: set<Tx>)
    requires SameLive(u0, u1, remotes) && SameLive(f0, f1, remotes)
    ensures LiveSlots(u0, f0, remotes) == LiveSlots(u1, f1, remotes)
  {
    hide SlotSum, Live;
    var a, b := Live(u0, remotes) + Live(f0, remotes), Live(u1, remotes) + Live(f1, remotes);
    LiveSame(u0, u1, remotes);
    LiveSame(f0, f1, remotes);
    SlotSumPart(a, b);
    SlotSumPart(b, a);
  }

  lemma NoDiscard(u: seq<Tx>, f: seq<Tx>, baseFee: Option<int>, remotes: set<Tx>)
    ensures Discards(u, f, u, f, [], baseFee, remotes)
  {
  }

  /** Only what went has fewer entries. */
  lemma DiscardsSingle(u0: seq<Tx>, f0: seq<Tx>, u: seq<Tx>, f: seq<Tx>, drop: seq<Tx>, remotes: set<Tx>)
    requires Conserved(u0, f0, u, f, drop, remotes) && Single(u0, f0, remotes)
    requires forall tx :: tx in drop ==> tx in remotes
    ensures Single(u, f, remotes - (set tx | tx in drop)) && forall t :: multiset(drop)[t] <= 1
  {
    forall t ensures multiset(drop)[t] <= 1 {
      if t in multiset(drop) {
        assert t in drop;
        assert Entries(u0, f0, t) == 1;
      }
    }
    forall t | t in remotes && t !in drop ensures Entries(u, f, t) == 1 {
      assert Entries(u0, f0, t) == 1 && multiset(drop)[t] == 0;
    }
  }

  lemma AllOut(u: seq<Tx>, f: seq<Tx>, drop: seq<Tx>, remotes: set<Tx>)
    requires Tracks(u, f, remotes - (set t | t in drop))
    ensures u == f == [] ==> forall t :: t in remotes ==> t in drop
  {
    if u == f == [] {
      forall t | t in remotes ensures t in drop {
        assert t in remotes - (set x | x in drop) ==> t in u || t in f;
      }
    }
  }

  lemma DropsLive(u0: seq<Tx>, f0: seq<Tx>, u: seq<Tx>, f: seq<Tx>, drop: seq<Tx>, baseFee: Option<int>,
                  remotes: set<Tx>)
    requires Discards(u0, f0, u, f, drop, baseFee, remotes)
    ensures Conserved(u0, f0, u, f, drop, remotes) && forall tx :: tx in drop ==> tx in remotes
  {
  }

  lemma FewerCovered(u: seq<Tx>, f: seq<Tx>, before: set<Tx>, left: set<Tx>)
    requires left <= before
    ensures Tracks(u, f, before) ==> Tracks(u, f, left)
    ensures Single(u, f, before) ==> Single(u, f, left)
  {
  }

  lemma NotRebuilt(u: seq<Tx>, f: seq<Tx>, remotes: set<Tx>, tx: Tx)
    requires multiset(u) + multiset(f) == multiset(remotes) && tx !in remotes
    ensures Entries(u, f, tx) == 0
  {
    assert (multiset(u) + multiset(f))[tx] == multiset(remotes)[tx] == 0;
  }

  lemma DiscardsSay(u0: seq<Tx>, f0: seq<Tx>, u: seq<Tx>, f: seq<Tx>, drop: seq<Tx>, baseFee: Option<int>,
                    remotes: set<Tx>, tx: Tx)
    requires Discards(u0, f0, u, f, drop, baseFee, remotes)
    ensures DropsInOrder(f0, drop, remotes) && (baseFee.None? && Under(f0, u0) ==> Outranks(u0, f0, drop, remotes))
    ensures Entries(u, f, tx) <= Entries(u0, f0, tx)
  {
    NoMoreEntries(u0, f0, u, f, drop, tx);
  }

  lemma NoMoreEntries(u0: seq<Tx>, f0: seq<Tx>, u: seq<Tx>, f: seq<Tx>, drop: seq<Tx>, tx: Tx)
    requires NothingNew(u0, f0, u, f, drop)
    ensures Entries(u, f, tx) <= Entries(u0, f0, tx)
  {
    assert (multiset(u) + multiset(f) + multiset(drop))[tx] <= (multiset(u0) + multiset(f0))[tx];
  }

  lemma KeepsCover(u0: seq<Tx>, f0: seq<Tx>, u: seq<Tx>, f: seq<Tx>, remotes: set<Tx>)
    requires Tracks(u0, f0, remotes)
    requires SameLive(u0, u, remotes) && SameLive(f0, f, remotes)
    ensures Tracks(u, f, remotes)
  {
    var none: seq<Tx> := [];
    ConservedTracks(u0, f0, u, f, none, remotes);
    assert remotes - (set tx | tx in none) == remotes;
  }

  /** Puts the dropped entries back. */
  method PutBack(ghost u0: seq<Tx>, ghost f0: seq<Tx>, u: seq<Tx>, ghost f: seq<Tx>, drop: seq<Tx>,
                 baseFee: Option<int>,
                 ghost remotes: set<Tx>)
    returns (u': seq<Tx>)
    requires Heap.IsHeap(u, Order(baseFee)) && Conserved(u0, f0, u, f, drop, remotes) && NothingNew(u0, f0, u, f, drop)
    ensures Heap.IsHeap(u', Order(baseFee)) && Conserved(u0, f0, u', f, [], remotes) && NothingNew(u0, f0, u', f, [])
    ensures CheapestGo(f0, u', f, [], baseFee, remotes)
  {
    u' := PushAll(u, drop, baseFee);
    assert multiset(u') + multiset(f) == multiset(u) + multiset(f) + multiset(drop);
  }

  method PushAll(h0: seq<Tx>, txs: seq<Tx>, baseFee: Option<int>) returns (h: seq<Tx>)
    requires Heap.IsHeap(h0, Order(baseFee))
    ensures Heap.IsHeap(h, Order(baseFee)) && multiset(h) == multiset(h0) + multiset(txs)
  {
    PriceOrder(baseFee);
    h := h0;
    for i := 0 to |txs|
      invariant Heap.IsHeap(h, Order(baseFee)) && multiset(h) == multiset(h0) + multiset(txs[..i])
    {
      assert txs[..i + 1] == txs[..i] + [txs[i]];
      h := Heap.Push(h, txs[i], Order(baseFee));
    }
    assert txs[..|txs|] == txs;
  }
}
