/** The transaction list of one account (core/tx_list.go): a sorted map with the
    price-bump rule and the cost and gas caps that let `Filter` stop early.
 */
module TxLists {
  import opened Options
  import opened Transactions
  import opened TxSortedMaps

  /** What a list holds, as the pool reasons about it. */
  datatype List = List(strict: bool, items: map<nat, Tx>, costcap: int, gascap: nat)

  /** newTxList */
  function EmptyList(strict: bool): List {
    List(strict, map[], 0, 0)
  }

  /** A transaction takes the place of an older one with its nonce only when it
      beats both prices and clears both bumped thresholds. */
  predicate Replaces(older: Tx, tx: Tx, priceBump: nat) {
    && older.feeCap < tx.feeCap && older.tipCap < tx.tipCap
    && (100 + priceBump) * older.feeCap / 100 <= tx.feeCap
    && (100 + priceBump) * older.tipCap / 100 <= tx.tipCap
  }

  predicate Accepts(l: List, tx: Tx, priceBump: nat) {
    tx.nonce in l.items ==> Replaces(l.items[tx.nonce], tx, priceBump)
  }

  function Added(l: List, tx: Tx): List {
    l.(items := l.items[tx.nonce := tx],
       costcap := if l.costcap < tx.cost then tx.cost else l.costcap,
       gascap := if l.gascap < tx.gas then tx.gas else l.gascap)
  }

  predicate Unpayable(tx: Tx, costLimit: int, gasLimit: nat) {
    tx.gas > gasLimit || tx.cost > costLimit
  }

  /** No transaction at or below n is unpayable. */
  predicate PayableUpTo(m: map<nat, Tx>, n: nat, costLimit: int, gasLimit: nat) {
    forall k :: k in m && k <= n ==> !Unpayable(m[k], costLimit, gasLimit)
  }

  /** The transactions a filter drops as unpayable. */
  function Unfunded(m: map<nat, Tx>, costLimit: int, gasLimit: nat): map<nat, Tx> {
    map n | n in m && Unpayable(m[n], costLimit, gasLimit) :: m[n]
  }

  /** The transactions a filter keeps: the payable ones and, on a strict list,
      only those with nothing unpayable before them. */
  function Payable(strict: bool, m: map<nat, Tx>, costLimit: int, gasLimit: nat): map<nat, Tx> {
    map n | n in m && !Unpayable(m[n], costLimit, gasLimit)
            && (strict ==> PayableUpTo(m, n, costLimit, gasLimit)) :: m[n]
  }

  /** The payable transactions a strict filter invalidates. */
  function Invalidated(strict: bool, m: map<nat, Tx>, costLimit: int, gasLimit: nat): map<nat, Tx> {
    map n | n in m && !Unpayable(m[n], costLimit, gasLimit)
            && strict && !PayableUpTo(m, n, costLimit, gasLimit) :: m[n]
  }

  /** The transactions above n, which removing n from a strict list invalidates. */
  function Above(m: map<nat, Tx>, n: nat): map<nat, Tx> {
    map k | k in m && k > n :: m[k]
  }

  function UpTo(m: map<nat, Tx>, n: nat): map<nat, Tx> {
    map k | k in m && k <= n :: m[k]
  }

  /** The caps bound every stored transaction. */
  ghost predicate Capped(l: List) {
    forall n :: n in l.items ==> l.items[n].cost <= l.costcap && l.items[n].gas <= l.gascap
  }

  ghost predicate Interval(m: map<nat, Tx>, lo: nat, hi: nat) {
    lo <= hi && forall n :: n in m <==> lo <= n < hi
  }

  /** Filtering a strict list without gaps leaves a gapless prefix that ends at the
      first unpayable transaction; that one and all later ones go. */
  lemma FilterLeavesPrefix(m: map<nat, Tx>, lo: nat, hi: nat, costLimit: int, gasLimit: nat) returns (cut: nat)
    requires Interval(m, lo, hi)
    ensures lo <= cut <= hi && Interval(Payable(true, m, costLimit, gasLimit), lo, cut)
    ensures cut < hi ==> Unpayable(m[cut], costLimit, gasLimit)
    ensures Unfunded(m, costLimit, gasLimit).Keys + Invalidated(true, m, costLimit, gasLimit).Keys
            == From(m, cut).Keys
  {
    cut := lo;
    while cut < hi && !Unpayable(m[cut], costLimit, gasLimit)
      invariant lo <= cut <= hi
      invariant forall n :: lo <= n < cut ==> !Unpayable(m[n], costLimit, gasLimit)
    {
      cut := cut + 1;
    }
    PrefixSplit(m, lo, hi, costLimit, gasLimit, cut);
  }

  lemma PrefixSplit(m: map<nat, Tx>, lo: nat, hi: nat, costLimit: int, gasLimit: nat, cut: nat)
    requires Interval(m, lo, hi) && lo <= cut <= hi
    requires forall n :: lo <= n < cut ==> !Unpayable(m[n], costLimit, gasLimit)
    requires cut < hi ==> Unpayable(m[cut], costLimit, gasLimit)
    ensures Interval(Payable(true, m, costLimit, gasLimit), lo, cut)
    ensures Unfunded(m, costLimit, gasLimit).Keys + Invalidated(true, m, costLimit, gasLimit).Keys == From(m, cut).Keys
  {
    forall n | n in m ensures PayableUpTo(m, n, costLimit, gasLimit) <==> n < cut {
      if n >= cut { assert cut in m; }
    }
    hide PayableUpTo, Unpayable;
  }

  /** With nothing unpayable the filter changes nothing. */
  lemma NothingUnpayable(strict: bool, m: map<nat, Tx>, costLimit: int, gasLimit: nat)
    requires forall n :: n in m ==> !Unpayable(m[n], costLimit, gasLimit)
    ensures Payable(strict, m, costLimit, gasLimit) == m
    ensures Unfunded(m, costLimit, gasLimit) == map[] && Invalidated(strict, m, costLimit, gasLimit) == map[]
  {
  }

  class TxList {
    const strict: bool
    const txs: TxSortedMap
    var costcap: int
    var gascap: nat

    ghost function Value(): List
      reads this, txs
    {
      List(strict, txs.items, costcap, gascap)
    }

    ghost predicate Valid()
      reads this, txs
    {
      txs.Valid() && Capped(Value())
    }

    constructor (strict: bool)
      ensures Valid() && fresh(txs) && Value() == EmptyList(strict)
    {
      this.strict := strict;
      txs := new TxSortedMap();
      costcap, gascap := 0, 0;
    }

    /** Inserts tx unless an older transaction with its nonce is good enough. */
    method Add(tx: Tx, priceBump: nat) returns (inserted: bool, older: Option<Tx>)
      requires Valid()
      modifies this, txs
      ensures Valid() && inserted == Accepts(old(Value()), tx, priceBump)
      ensures Value() == if inserted then Added(old(Value()), tx) else old(Value())
      ensures older == if inserted && tx.nonce in old(txs.items) then Some(old(txs.items)[tx.nonce]) else None
    {
      older := None;
      if tx.nonce in txs.items {
        var prior := txs.items[tx.nonce];
        if prior.feeCap >= tx.feeCap || prior.tipCap >= tx.tipCap {
          return false, None;
        }
        var thresholdFeeCap := (100 + priceBump) * prior.feeCap / 100;
        var thresholdTip := (100 + priceBump) * prior.tipCap / 100;
        if tx.feeCap < thresholdFeeCap || tx.tipCap < thresholdTip {
          return false, None;
        }
        older := Some(prior);
      }
      txs.Put(tx);
      if costcap < tx.cost {
        costcap := tx.cost;
      }
      if gascap < tx.gas {
        gascap := tx.gas;
      }
      inserted := true;
    }

    method Forward(threshold: nat) returns (removed: seq<Tx>)
      requires Valid()
      modifies txs
      ensures Valid() && Value() == old(Value()).(items := From(old(txs.items), threshold))
      ensures removed + Flat(txs.items) == old(Flat(txs.items))
    {
      removed := txs.Forward(threshold);
    }

    /** Drops what the limits no longer pay for. The caps only decide whether the
        contents are looked at: the outcome is the same without the early exit. */
    method Filter(costLimit: int, gasLimit: nat) returns (removed: seq<Tx>, invalids: seq<Tx>)
      requires Valid()
      modifies this, txs
      ensures Valid() && txs.items == Payable(strict, old(txs.items), costLimit, gasLimit)
      ensures Lists(removed, Unfunded(old(txs.items), costLimit, gasLimit))
      ensures Lists(invalids, Invalidated(strict, old(txs.items), costLimit, gasLimit))
      ensures if old(costcap) <= costLimit && old(gascap) <= gasLimit
              then costcap == old(costcap) && gascap == old(gascap)
              else costcap == costLimit && gascap == gasLimit
    {
      hide Lists, Flat, Payable, Unfunded, Invalidated, Kept, Dropped;
      invalids := [];
      ghost var m := txs.items;
      if costcap <= costLimit && gascap <= gasLimit {
        NothingUnpayable(strict, m, costLimit, gasLimit);
        EmptyListing();
        return [], [];
      }
      costcap, gascap := costLimit, gasLimit;
      removed := txs.Filter((tx: Tx) => Unpayable(tx, costLimit, gasLimit));
      PlainFilter(strict, m, costLimit, gasLimit, removed);
      StillCapped(strict, m, costLimit, gasLimit);
      if |removed| == 0 {
        assert removed == [];
        EmptyListing();
        return [], [];
      }
      if strict {
        var lowest := LowestNonce(removed);
        StrictCut(m, costLimit, gasLimit, removed, lowest);
        invalids := txs.FilterOnly((tx: Tx) => tx.nonce > lowest);
      } else {
        EmptyListing();
      }
      txs.Reheap();
    }

    method Cap(threshold: nat) returns (drops: seq<Tx>)
      requires Valid()
      modifies txs
      ensures Valid() && Value() == old(Value()).(items := Lowest(old(txs.items), threshold))
      ensures Flat(txs.items) + Reversed(drops) == old(Flat(txs.items))
    {
      drops := txs.Cap(threshold);
    }

    /** Deletes the transaction with tx's nonce; a strict list loses the later ones too. */
    method Remove(tx: Tx) returns (found: bool, invalids: seq<Tx>)
      requires Valid()
      modifies txs
      ensures Valid() && found == (tx.nonce in old(txs.items))
      ensures Value() == old(Value()).(items := if found && strict then UpTo(old(txs.items), tx.nonce) - {tx.nonce}
                                                else old(txs.items) - {tx.nonce})
      ensures Lists(invalids, if found && strict then Above(old(txs.items), tx.nonce) else map[])
    {
      hide Lists, Flat, Kept, Dropped;
      var nonce := tx.nonce;
      ghost var m := txs.items;
      found := txs.Remove(nonce);
      invalids := [];
      EmptyListing();
      if found && strict {
        RemovedAbove(m, nonce);
        invalids := txs.Filter((other: Tx) => other.nonce > nonce);
      }
    }

    method Ready(start: nat) returns (ready: seq<Tx>)
      requires Valid()
      modifies txs
      ensures Valid() && ready == Flat(Run(old(txs.items), start))
      ensures Value() == old(Value()).(items := old(txs.items) - Run(old(txs.items), start).Keys)
    {
      ready := txs.Ready(start);
    }
  }

  lemma EmptyListing()
    ensures Lists([], map[])
  {
  }

  lemma RemovedAbove(m: map<nat, Tx>, nonce: nat)
    requires Keyed(m)
    ensures Dropped(m - {nonce}, (other: Tx) => other.nonce > nonce) == Above(m, nonce)
    ensures Kept(m - {nonce}, (other: Tx) => other.nonce > nonce) == UpTo(m, nonce) - {nonce}
  {
  }

  /** The filter without what a strict list invalidates. */
  lemma PlainFilter(strict: bool, m: map<nat, Tx>, costLimit: int, gasLimit: nat, removed: seq<Tx>)
    requires Keyed(m) && Lists(removed, Dropped(m, (tx: Tx) => Unpayable(tx, costLimit, gasLimit)))
    ensures Lists(removed, Unfunded(m, costLimit, gasLimit))
    ensures !strict || |removed| == 0 ==>
      && Payable(strict, m, costLimit, gasLimit) == Kept(m, (tx: Tx) => Unpayable(tx, costLimit, gasLimit))
      && Invalidated(strict, m, costLimit, gasLimit) == map[]
  {
    assert Dropped(m, (tx: Tx) => Unpayable(tx, costLimit, gasLimit)) == Unfunded(m, costLimit, gasLimit);
    ListsMembers(removed, Unfunded(m, costLimit, gasLimit));
    if |removed| == 0 {
      forall n | n in m ensures !Unpayable(m[n], costLimit, gasLimit) {
        assert Unpayable(m[n], costLimit, gasLimit) ==> Holds(Unfunded(m, costLimit, gasLimit), m[n]);
      }
    }
  }

  /** What passes the limits is within caps set to the limits. */
  lemma StillCapped(strict: bool, m: map<nat, Tx>, costLimit: int, gasLimit: nat)
    ensures Capped(List(strict, Payable(strict, m, costLimit, gasLimit), costLimit, gasLimit))
  {
  }

  method LowestNonce(removed: seq<Tx>) returns (lowest: nat)
    requires |removed| > 0
    ensures (exists tx :: tx in removed && tx.nonce == lowest) && forall tx :: tx in removed ==> lowest <= tx.nonce
  {
    lowest := removed[0].nonce;
    var i := 0;
    while i < |removed|
      invariant 0 <= i <= |removed|
      invariant exists tx :: tx in removed && tx.nonce == lowest
      invariant forall tx :: tx in removed[..i] ==> lowest <= tx.nonce
    {
      if lowest > removed[i].nonce {
        lowest := removed[i].nonce;
      }
      i := i + 1;
    }
    assert removed[..i] == removed;
  }

  /** Cutting what a filter left at the lowest removed nonce is the strict filter. */
  lemma StrictCut(m: map<nat, Tx>, costLimit: int, gasLimit: nat, removed: seq<Tx>, lowest: nat)
    requires Keyed(m) && Lists(removed, Unfunded(m, costLimit, gasLimit))
    requires exists tx :: tx in removed && tx.nonce == lowest
    requires forall tx :: tx in removed ==> lowest <= tx.nonce
    ensures var kept := Kept(m, (tx: Tx) => Unpayable(tx, costLimit, gasLimit));
      && Kept(kept, (tx: Tx) => tx.nonce > lowest) == Payable(true, m, costLimit, gasLimit)
      && Dropped(kept, (tx: Tx) => tx.nonce > lowest) == Invalidated(true, m, costLimit, gasLimit)
  {
    ListsMembers(removed, Unfunded(m, costLimit, gasLimit));
    assert lowest in m && Unpayable(m[lowest], costLimit, gasLimit);
    forall k | k in m && Unpayable(m[k], costLimit, gasLimit) ensures lowest <= k {
      assert Holds(Unfunded(m, costLimit, gasLimit), m[k]);
    }
    forall n | n in m && !Unpayable(m[n], costLimit, gasLimit)
      ensures PayableUpTo(m, n, costLimit, gasLimit) <==> n <= lowest
    {
    }
  }
}
