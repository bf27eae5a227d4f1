/** What taking transactions back does to the pending lists and virtual nonces of the
    transaction pool (core/tx_pool.go).
 */
module PoolReinjects {
  import opened Options
  import opened Transactions
  import opened TxSortedMaps
  import opened TxLists
  import opened PoolContent
  import opened PoolNonces
  import opened PricedLists
  import opened PoolStages

  /** Removing d takes a pending transaction of the account with a nonce below n. */
  predicate Takes(s: Stage, d: Tx, a: Address, n: nat) {
    Known(s.lookup, d) && InBook(s.pending, d) && d.from == a && d.nonce < n
  }

  /** One of the removals does. */
  ghost predicate TakesOne(s: Stage, stateNonce: Address -> nat, drop: seq<Tx>, a: Address) {
    exists j :: 0 <= j < |drop| && TakesAt(s, stateNonce, drop, a, j)
  }

  predicate TakesAt(s: Stage, stateNonce: Address -> nat, drop: seq<Tx>, a: Address, j: nat)
    requires j < |drop|
  {
    Takes(WithoutAll(s, stateNonce, drop[..j]), drop[j], a, stateNonce(a))
  }

  /** While the first k transactions were added, a pending transaction of the account with
      a nonce below the state nonce was dropped to make room. */
  ghost predicate SunkBy(stateNonce: Address -> nat, f: Refill, a: Address, k: nat)
    requires k <= |f.drops| < |f.trace|
  {
    exists i :: 0 <= i < k && TakesOne(f.trace[i], stateNonce, f.drops[i], a)
  }

  ghost predicate Sunk(stateNonce: Address -> nat, f: Refill, a: Address) {
    |f.drops| < |f.trace| && SunkBy(stateNonce, f, a, |f.drops|)
  }

  /** The pending list is an interval from lo. The virtual nonce is that of the state, or,
      once it has been lowered below that, the end of the list. */
  ghost predicate Standing(s: Stage, stateNonce: Address -> nat, a: Address, lo: nat, low: bool) {
    var pm, v := Items(s.pending, a), VirtualNonce(s.nonces, stateNonce, a);
    && Interval(pm, lo, lo + |pm|)
    && if low then v == lo + |pm| < stateNonce(a) else v == stateNonce(a)
  }

  lemma IntervalCut(pm: map<nat, Tx>, lo: nat, h: nat, k: nat)
    requires Interval(pm, lo, h) && k in pm
    ensures Interval(Before(pm, k), lo, lo + |Before(pm, k)|) && lo + |Before(pm, k)| == k
  {
    IntervalSize(Before(pm, k), lo, k);
  }

  lemma RemovalStands(s: Stage, stateNonce: Address -> nat, d: Tx, a: Address, lo: nat, low: bool)
    requires Standing(s, stateNonce, a, lo, low)
    ensures Standing(Without(s, stateNonce, d), stateNonce, a, lo, low || Takes(s, d, a, stateNonce(a)))
  {
    hide WithItems, Above, Before;
    if Known(s.lookup, d) && InBook(s.pending, d) && d.from == a {
      IntervalCut(Items(s.pending, a), lo, lo + |Items(s.pending, a)|, d.nonce);
    }
  }

  lemma {:induction false} DropStands(s: Stage, stateNonce: Address -> nat, drop: seq<Tx>, a: Address, lo: nat,
                                      low: bool)
    requires Standing(s, stateNonce, a, lo, low)
    ensures Standing(WithoutAll(s, stateNonce, drop), stateNonce, a, lo, low || TakesOne(s, stateNonce, drop, a))
    decreases |drop|
  {
    hide Standing, Without;
    if drop != [] {
      var k := |drop| - 1;
      DropStands(s, stateNonce, drop[..k], a, lo, low);
      RemovalStands(WithoutAll(s, stateNonce, drop[..k]), stateNonce, drop[k], a, lo,
                    low || TakesOne(s, stateNonce, drop[..k], a));
      OneMoreTaken(s, stateNonce, drop, a);
    }
  }

  lemma OneMoreTaken(s: Stage, stateNonce: Address -> nat, drop: seq<Tx>, a: Address)
    requires drop != []
    ensures var k := |drop| - 1;
      TakesOne(s, stateNonce, drop, a) <==> TakesOne(s, stateNonce, drop[..k], a) || TakesAt(s, stateNonce, drop, a, k)
  {
    hide WithoutAll, Takes;
    var k := |drop| - 1;
    forall j | 0 <= j < k ensures TakesAt(s, stateNonce, drop, a, j) <==> TakesAt(s, stateNonce, drop[..k], a, j) {
      assert drop[..k][..j] == drop[..j];
    }
  }

  /** Adding a transaction replaces a pending one under its nonce or leaves pending alone. */
  lemma InsertStands(s: Stage, tx: Tx, local: bool, priceBump: nat, stateNonce: Address -> nat, a: Address, lo: nat,
                     low: bool)
    requires Standing(s, stateNonce, a, lo, low)
    ensures Standing(Inserting(s, tx, local, priceBump), stateNonce, a, lo, low)
  {
    hide SwapOf, Localised, Replaces, WithItems;
    if tx.nonce in Items(s.pending, tx.from) && tx.from == a {
      var pm := Items(s.pending, a);
      assert pm[tx.nonce := tx].Keys == pm.Keys;
    }
  }

  /** One answer. */
  lemma AnswerStands(t: Terms, s: Stage, p: Prices, tx: Tx, local: bool, wellFormed: bool, r: AddResult, drop: seq<Tx>,
                     s': Stage, a: Address, lo: nat, low: bool)
    requires Answered(t, s, p, tx, local, wellFormed, r, drop, s') && Standing(s, t.state.nonce, a, lo, low)
    ensures Standing(s', t.state.nonce, a, lo, low || TakesOne(s, t.state.nonce, drop, a))
  {
    hide Standing, WithoutAll, Inserting, MakesRoom, CheapestWent, RoomError, Verdict, Validates;
    if drop == [] {
      assert !TakesOne(s, t.state.nonce, drop, a);
      NothingOut(s, t.state.nonce);
    }
    DropStands(s, t.state.nonce, drop, a, lo, low);
    InsertStands(WithoutAll(s, t.state.nonce, drop), tx, local, t.config.priceBump, t.state.nonce, a, lo,
                 low || TakesOne(s, t.state.nonce, drop, a));
  }

  /** A whole batch: the list is still an interval from where it started, and the virtual
      nonce has left that of the state exactly if a pending transaction below that went. */
  lemma {:induction false} RefillStands(t: Terms, batch: seq<Submitted>, local: bool, f: Refill, a: Address, lo: nat,
                                        k: nat)
    requires AddedAll(t, batch, local, f) && k <= |batch| && Standing(f.trace[0], t.state.nonce, a, lo, false)
    ensures Standing(f.trace[k], t.state.nonce, a, lo, SunkBy(t.state.nonce, f, a, k))
    decreases k
  {
    hide Standing, TakesOne, Answered;
    if k > 0 {
      RefillStands(t, batch, local, f, a, lo, k - 1);
      assert AddedAt(t, batch, local, f, k - 1);
      AnswerStands(t, f.trace[k - 1], f.prices[k - 1], batch[k - 1].tx, local || batch[k - 1].type30,
                   batch[k - 1].wellFormed, f.results[k - 1], f.drops[k - 1], f.trace[k], a, lo,
                   SunkBy(t.state.nonce, f, a, k - 1));
    }
  }

  /** A reset sends every interval list into standing. */
  lemma ResetStands(config: Config, gasPrice: int, s: Stage, p: Prices, r: Reset, f: Refill, start: Stage,
                    a: Address, lo: nat, hi: nat)
    requires ResetFrom(config, gasPrice, s, p, r, f, start) && r.head.Some? && Interval(Items(s.pending, a), lo, hi)
    ensures Standing(start, r.head.value.state.nonce, a, lo, Sunk(r.head.value.state.nonce, f, a))
  {
    hide AddedAt, TakesOne;
    var t := Terms(config, r.head.value.state, r.head.value.maxGas, gasPrice);
    IntervalSize(Items(s.pending, a), lo, hi);
    RefillStands(t, r.reinject, false, f, a, lo, |r.reinject|);
  }

  /** The slots of a batch. */
  function BatchSlots(batch: seq<Submitted>): nat {
    if batch == [] then 0 else BatchSlots(batch[..|batch| - 1]) + batch[|batch| - 1].tx.slots
  }

  /** The pool after a batch was added that there is room for: a transaction that is known or
      invalid is passed over, any other is inserted. */
  function TopUp(t: Terms, s: Stage, batch: seq<Submitted>, local: bool): Stage {
    if batch == [] then s
    else
      var s', b := TopUp(t, s, batch[..|batch| - 1], local), batch[|batch| - 1];
      if Known(s'.lookup, b.tx)
        || !Validates(t, b.tx, local || b.type30 || b.tx.from in s'.locals, b.wellFormed) then s'
      else Inserting(s', b.tx, local || b.type30, t.config.priceBump)
  }

  lemma InsertedSlots(s: Stage, tx: Tx, local: bool, priceBump: nat)
    ensures Inserting(s, tx, local, priceBump).lookup.slots <= s.lookup.slots + tx.slots
  {
    hide Inserted, Verdict, Items;
  }

  lemma FitsAnswered(t: Terms, s: Stage, p: Prices, b: Submitted, local: bool, r: AddResult, drop: seq<Tx>, s': Stage)
    requires Answered(t, s, p, b.tx, local || b.type30, b.wellFormed, r, drop, s')
    requires Missing(t.config, s.lookup, b.tx) <= 0
    ensures drop == [] && s'.lookup.slots <= s.lookup.slots + b.tx.slots
    ensures s' == if Known(s.lookup, b.tx)
                    || !Validates(t, b.tx, local || b.type30 || b.tx.from in s.locals, b.wellFormed) then s
                  else Inserting(s, b.tx, local || b.type30, t.config.priceBump)
  {
    hide Inserting, NoBetter, LiveSlots, CheapestWent, Verdict;
    NothingOut(s, t.state.nonce);
    InsertedSlots(s, b.tx, local || b.type30, t.config.priceBump);
  }

  /** If the whole batch fits on top of what is there, nothing is dropped, and the pool
      afterwards is a function of the pool before. */
  lemma {:induction false} RoomForAll(t: Terms, batch: seq<Submitted>, local: bool, f: Refill, k: nat)
    requires AddedAll(t, batch, local, f) && k <= |batch|
    requires f.trace[0].lookup.slots + BatchSlots(batch) <= t.config.globalSlots + t.config.globalQueue
    ensures f.trace[k] == TopUp(t, f.trace[0], batch[..k], local)
    ensures f.trace[k].lookup.slots <= f.trace[0].lookup.slots + BatchSlots(batch[..k])
    ensures forall i :: 0 <= i < k ==> f.drops[i] == []
    decreases k
  {
    hide Answered, Inserting, Validates;
    if k > 0 {
      RoomForAll(t, batch, local, f, k - 1);
      assert AddedAt(t, batch, local, f, k - 1);
      assert batch[..k][..k - 1] == batch[..k - 1];
      PrefixSlots(batch, k);
      FitsAnswered(t, f.trace[k - 1], f.prices[k - 1], batch[k - 1], local, f.results[k - 1], f.drops[k - 1],
                   f.trace[k]);
    }
  }

  lemma {:induction false} PrefixSlots(batch: seq<Submitted>, k: nat)
    requires k <= |batch|
    ensures BatchSlots(batch[..k]) <= BatchSlots(batch)
    decreases |batch|
  {
    if k < |batch| {
      var init := batch[..|batch| - 1];
      assert init[..k] == batch[..k];
      PrefixSlots(init, k);
    } else {
      assert batch[..k] == batch;
    }
  }

  /** Then no account's virtual nonce is lowered either. */
  lemma RoomSinksNone(t: Terms, batch: seq<Submitted>, local: bool, f: Refill, a: Address)
    requires AddedAll(t, batch, local, f)
    requires f.trace[0].lookup.slots + BatchSlots(batch) <= t.config.globalSlots + t.config.globalQueue
    ensures f.trace[|batch|] == TopUp(t, f.trace[0], batch, local) && !Sunk(t.state.nonce, f, a)
  {
    RoomForAll(t, batch, local, f, |batch|);
    assert batch[..|batch|] == batch;
    assert forall i :: 0 <= i < |f.drops| ==> !TakesOne(f.trace[i], t.state.nonce, f.drops[i], a);
  }

  lemma ResetFits(config: Config, gasPrice: int, s: Stage, p: Prices, r: Reset, f: Refill, start: Stage)
    requires ResetFrom(config, gasPrice, s, p, r, f, start) && r.head.Some?
    ensures s.lookup.slots + BatchSlots(r.reinject) <= config.globalSlots + config.globalQueue ==>
      && start == TopUp(Terms(config, r.head.value.state, r.head.value.maxGas, gasPrice), s.(nonces := map[]),
                         r.reinject, false)
      && forall a :: !Sunk(r.head.value.state.nonce, f, a)
  {
    hide AddedAt, TopUp, BatchSlots, Sunk;
    if s.lookup.slots + BatchSlots(r.reinject) <= config.globalSlots + config.globalQueue {
      forall a ensures !Sunk(r.head.value.state.nonce, f, a) {
        RoomSinksNone(Terms(config, r.head.value.state, r.head.value.maxGas, gasPrice), r.reinject, false, f, a);
      }
      RoomSinksNone(Terms(config, r.head.value.state, r.head.value.maxGas, gasPrice), r.reinject, false, f, 0);
    }
  }
}
