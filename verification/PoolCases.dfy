/** Runs of the transaction pool (core/tx_pool.go) in which it does not do what one might
    expect.
 */
module PoolCases {
  import opened Options
  import opened Transactions
  import opened TxSortedMaps
  import opened TxLists
  import opened PoolContent
  import opened PoolNonces
  import opened PricedLists
  import opened PoolTruncate
  import opened PoolQueue
  import opened PoolStages
  import opened PoolReinjects
  import opened PoolGaps
  import opened TxPools
  import Heap

  /** A plain transfer at a given price per gas. */
  function Transfer(id: nat, from: Address, nonce: nat, price: int): Tx {
    Tx(id, from, nonce, 21000, 21000 * price + 1, price, price, 1)
  }

  /** One that carries data over two slots. */
  function Large(id: nat, from: Address, nonce: nat, price: int): Tx {
    Tx(id, from, nonce, 600000, 600000 * price, price, price, 2)
  }

  const MAX_GAS: nat := 30000000

  /** Every account has the given nonce and one ether. */
  function AtNonce(n: nat): ChainState {
    ChainState(_ => n, _ => 1000000000000000000)
  }

  /** A remote transaction with a free nonce that fits is queued. */
  lemma FitsIn(t: Terms, s: Stage, p: Prices, tx: Tx, r: AddResult, drop: seq<Tx>, s': Stage)
    requires Answered(t, s, p, tx, false, true, r, drop, s') && !Known(s.lookup, tx) && tx.from !in s.locals
    requires Validates(t, tx, false, true) && Missing(t.config, s.lookup, tx) <= 0
    requires tx.nonce !in Items(s.pending, tx.from) && tx.nonce !in Items(s.queue, tx.from)
    ensures r == AddResult.Added(false)
    ensures s' == s.(queue := Inserted(s.queue, tx), lookup := Entered(s.lookup, tx, false))
  {
    hide Inserted, Without, SlotSum, CheapestWent, NoBetter, LiveSlots;
    NothingOut(s, t.state.nonce);
  }

  lemma {:induction false} OneSlotEach(drop: seq<Tx>)
    requires forall tx :: tx in drop ==> tx.slots == 1
    ensures SlotSum(drop) == |drop|
  {
    if drop != [] {
      OneSlotEach(drop[..|drop| - 1]);
    }
  }

  /** Among transactions of one slot, the cheapest is dropped twice for two slots if it has
      two entries. */
  lemma DroppedTwice(c: Config, l: Lookup, tx: Tx, drop: seq<Tx>, u: seq<Tx>, f: seq<Tx>, d: Tx)
    requires MakesRoom(c, l, tx, false, drop) && Missing(c, l, tx) == 2 && Outranks(u, f, drop, l.remotes)
    requires (forall y :: y in l.remotes ==> y.slots == 1)
    requires (forall y :: y in l.remotes && y != d ==> PriceLess(None, d, y))
    requires d in l.remotes && Entries(u, f, d) == 2
    ensures drop == [d, d]
  {
    hide PriceLess, Entries;
    OneSlotEach(drop);
    if drop != [] {
      OneSlotEach(drop[..|drop| - 1]);
    }
    assert |drop| == 2 && drop == [drop[0], drop[1]];
    assert drop[0] in drop && drop[1] in drop;
  }

  /** Hands a remote transaction with a free nonce to a pool that has room for it. */
  method Submit(pool: TxPool, tx: Tx)
    requires pool.Valid() && !Known(pool.lookup, tx) && tx.from !in pool.locals
    requires Validates(pool.TermsNow(), tx, false, true) && Missing(pool.config, pool.lookup, tx) <= 0
    requires tx.nonce !in Items(pool.pending, tx.from) && tx.nonce !in Items(pool.queue, tx.from)
    modifies pool`pending, pool`queue, pool`lookup, pool`nonces, pool`locals,
             pool.priced`urgent, pool.priced`floating, pool.priced`stales
    ensures pool.Valid() && pool.Now() ==
      old(pool.Now()).(queue := Inserted(old(pool.queue), tx), lookup := Entered(old(pool.lookup), tx, false))
    ensures multiset(pool.priced.urgent) == multiset(old(pool.priced.urgent)) + multiset{tx}
    ensures pool.priced.floating == old(pool.priced.floating) && pool.priced.stales == old(pool.priced.stales)
  {
    hide PoolOk, Answered, AllGapless, AllFunded, Inserted, Single, CheapestWent, NoBetter, LiveSlots;
    ghost var s, p := pool.Now(), pool.PricesNow();
    var r, drop := pool.Add(tx, false, true);
    FitsIn(pool.TermsNow(), s, p, tx, r, drop, pool.Now());
  }

  /** The limit here is four slots. */
  const SMALL: Config := Config(10, 1, 2, 64, 2)

  /** The pool has queued the given remote transactions of different accounts; its price
      index has the given urgent entries and no others. */
  ghost predicate Queued(pool: TxPool, txs: set<Tx>, slots: nat, urgent: multiset<Tx>)
    reads pool, pool.priced
  {
    && pool.Valid() && pool.TermsNow() == Terms(SMALL, AtNonce(0), MAX_GAS, 1)
    && pool.locals == {} && pool.pending == map[] && pool.lookup == Lookup({}, txs, slots)
    && (forall a :: (forall tx :: tx in txs ==> tx.from != a) ==> Items(pool.queue, a) == map[])
    && multiset(pool.priced.urgent) == urgent && pool.priced.floating == [] && pool.priced.baseFee.None?
  }

  /** A transfer of a new account joins. */
  method Join(pool: TxPool, tx: Tx, ghost txs: set<Tx>, ghost slots: nat, ghost urgent: multiset<Tx>)
    requires Queued(pool, txs, slots, urgent) && slots < 4
    requires tx == Transfer(tx.id, tx.from, 0, tx.feeCap) && 1 <= tx.feeCap <= 10
    requires forall x :: x in txs ==> x.from != tx.from
    modifies pool`pending, pool`queue, pool`lookup, pool`nonces, pool`locals,
             pool.priced`urgent, pool.priced`floating, pool.priced`stales
    ensures Queued(pool, txs + {tx}, slots + 1, urgent + multiset{tx}) && pool.priced.stales == old(pool.priced.stales)
  {
    hide PoolOk, Heap.IsHeap, Tracks;
    Submit(pool, tx);
    forall a | forall x :: x in txs + {tx} ==> x.from != a ensures Items(pool.queue, a) == map[] {
      assert tx in txs + {tx};
      assert forall x :: x in txs ==> x in txs + {tx} && x.from != a;
      assert Items(old(pool.queue), a) == map[];
    }
  }

  /** One of four leaves, and the price index is not rebuilt. */
  method LeaveOne(pool: TxPool, tx: Tx, ghost txs: set<Tx>, ghost urgent: multiset<Tx>)
    requires Queued(pool, txs, 4, urgent) && |urgent| == 4 && pool.priced.stales == 0
    requires tx in txs && tx.slots == 1 && forall x :: x in txs && x.from == tx.from ==> x == tx
    modifies pool`pending, pool`queue, pool`lookup, pool`nonces, pool.priced`urgent, pool.priced`floating,
             pool.priced`stales
    ensures Queued(pool, txs - {tx}, 3, urgent)
  {
    hide PoolOk, Heap.IsHeap, Tracks, AllGapless, AllFunded, Single;
    ghost var q := pool.queue;
    Accounts(pool.pending, pool.queue, pool.lookup, tx);
    OnlyOne(pool.pending, q, pool.lookup, txs, tx);
    assert |pool.priced.urgent| == |multiset(pool.priced.urgent)|;
    pool.RemoveTx(tx, true);
    forall a | forall x :: x in txs - {tx} ==> x.from != a ensures Items(pool.queue, a) == map[] {
      if a != tx.from {
        assert forall x :: x in txs ==> x == tx || x in txs - {tx};
        assert Items(q, a) == map[];
      }
    }
  }

  /** The only transaction of an account is all its queue has. */
  lemma OnlyOne(pending: Book, queue: Book, l: Lookup, txs: set<Tx>, tx: Tx)
    requires PoolOk(pending, queue, l) && l.locals == {} && l.remotes == txs && pending == map[] && tx in txs
    requires forall x :: x in txs && x.from == tx.from ==> x == tx
    ensures Items(queue, tx.from) == map[tx.nonce := tx] && Items(queue, tx.from) - {tx.nonce} == map[]
  {
    var m := Items(queue, tx.from);
    AccountView(pending, queue, l, tx.from);
    Accounts(pending, queue, l, tx);
    forall n | n in m ensures n == tx.nonce {
      Accounts(pending, queue, l, m[n]);
    }
  }

  /** Four transfers fill the pool, the cheapest is removed and comes back: one stale entry
      among four does not have the price index rebuilt, so it has two entries now. */
  method StaleEntry() returns (pool: TxPool, d: Tx, ghost rest: set<Tx>)
    ensures fresh(pool) && fresh(pool.priced) && d == Transfer(1, 1, 0, 1)
    ensures rest == {Transfer(2, 2, 0, 5), Transfer(3, 3, 0, 5), Transfer(4, 4, 0, 5)}
    ensures Queued(pool, {d} + rest, 4, multiset({d} + rest) + multiset{d})
    ensures Entries(pool.priced.urgent, pool.priced.floating, d) == 2 && !pool.SingleEntries()
  {
    hide Queued, Single, Entries;
    pool := Empty();
    var b, c, e;
    d, b, c, e := Transfer(1, 1, 0, 1), Transfer(2, 2, 0, 5), Transfer(3, 3, 0, 5), Transfer(4, 4, 0, 5);
    rest := {b, c, e};
    ghost var txs: set<Tx>, u: multiset<Tx> := {}, multiset{};
    Join(pool, d, txs, 0, u);
    txs, u := txs + {d}, u + multiset{d};
    Join(pool, b, txs, 1, u);
    txs, u := txs + {b}, u + multiset{b};
    Join(pool, c, txs, 2, u);
    txs, u := txs + {c}, u + multiset{c};
    Join(pool, e, txs, 3, u);
    txs, u := txs + {e}, u + multiset{e};
    assert |u| == 4 && u == multiset({d} + rest);
    LeaveOne(pool, d, txs, u);
    assert txs - {d} == rest;
    Join(pool, d, rest, 3, u);
    assert rest + {d} == {d} + rest;
    SecondEntry(pool, {d} + rest, d);
  }

  method Empty() returns (pool: TxPool)
    ensures fresh(pool) && fresh(pool.priced) && Queued(pool, {}, 0, multiset{}) && pool.priced.stales == 0
  {
    hide AllGapless, AllFunded, Single;
    pool := new TxPool(SMALL, {}, AtNonce(0), MAX_GAS, 1);
  }

  lemma SecondEntry(pool: TxPool, txs: set<Tx>, d: Tx)
    requires Queued(pool, txs, 4, multiset(txs) + multiset{d}) && d in txs
    ensures Entries(pool.priced.urgent, pool.priced.floating, d) == 2 && !pool.SingleEntries()
  {
    assert multiset(pool.priced.urgent)[d] == 2;
  }

  /** A dearer transaction of two slots finds room among cheap ones. */
  lemma RoomForLarge(pool: TxPool, txs: set<Tx>, d: Tx, big: Tx)
    requires Queued(pool, txs, 4, multiset(txs) + multiset{d}) && d in txs && d.slots == 1 && d.feeCap < big.feeCap
    requires big.slots == 2
    ensures pool.Refused(big, false) == None
  {
    hide PoolOk, SlotSum;
    var u, f := pool.priced.urgent, pool.priced.floating;
    assert multiset(u)[d] == 2 && d in multiset(u);
    assert PriceCmp(None, d, big) < 0;
    var live := Live(u, txs) + Live(f, txs);
    assert multiset([d, d]) <= multiset(live);
    SlotSumPart([d, d], live);
    OneSlotEach([d, d]);
  }

  /** Two slots are counted for the transaction with two entries, but only one is freed. */
  lemma OneFreed(t: Terms, s: Stage, p: Prices, tx: Tx, r: AddResult, drop: seq<Tx>, s': Stage, d: Tx)
    requires Answered(t, s, p, tx, false, true, r, drop, s') && !Known(s.lookup, tx) && tx.from !in s.locals
    requires Validates(t, tx, false, true) && RoomError(t.config, s.lookup, p, tx, false).None?
    requires Missing(t.config, s.lookup, tx) == 2 && p.baseFee.None? && p.floating == []
    requires forall y :: y in s.lookup.remotes ==> y.slots == 1
    requires forall y :: y in s.lookup.remotes && y != d ==> PriceLess(None, d, y)
    requires d in s.lookup.remotes && Entries(p.urgent, p.floating, d) == 2 && d.from != tx.from
    requires tx.nonce !in Items(s.pending, tx.from) && tx.nonce !in Items(s.queue, tx.from)
    ensures r == AddResult.Added(false) && s'.lookup.slots == s.lookup.slots - 1 + tx.slots
  {
    hide MakesRoom, Outranks, PriceLess, Entries, Without, WithoutAll, Left, RoomError, DropsInOrder;
    DroppedTwice(t.config, s.lookup, tx, drop, p.urgent, p.floating, d);
    var room := WithoutAll(s, t.state.nonce, drop);
    GoneIsGone(s, t.state.nonce, d);
    OthersKept(s, t.state.nonce, d, tx.from);
    assert room.lookup == Left(s.lookup, d);
    assert Left(s.lookup, d).slots == s.lookup.slots - 1 by { LeftSlots(s.lookup, d); }
  }

  lemma LeftSlots(l: Lookup, tx: Tx)
    requires Known(l, tx)
    ensures Left(l, tx).slots == l.slots - tx.slots
  {
  }

  lemma OthersKept(s: Stage, stateNonce: Address -> nat, tx: Tx, a: Address)
    requires a != tx.from
    ensures var s' := Without(s, stateNonce, tx);
      Items(s'.pending, a) == Items(s.pending, a) && Items(s'.queue, a) == Items(s.queue, a)
  {
    hide Before, Above, SetIfLower, InBook;
  }

  /** Making room can count the slots of a transaction twice: after this run the pool has
      five slots under a limit of four. */
  method CountedTwice() returns (pool: TxPool)
    ensures pool.Valid() && pool.lookup.slots > pool.config.globalSlots + pool.config.globalQueue
  {
    hide PoolOk, Answered, CheapestWent, Entries, Single, NoBetter, LiveSlots, Heap.IsHeap, AllGapless, AllFunded;
    var d;
    ghost var rest;
    pool, d, rest := StaleEntry();
    var big := Large(5, 5, 0, 10);
    ghost var s, p := pool.Now(), pool.PricesNow();
    RoomForLarge(pool, {d} + rest, d, big);
    assert big !in {d} + rest && Items(pool.pending, 5) == Items(pool.queue, 5) == map[];
    assert forall y :: y in {d} + rest ==> y.slots == 1 && (y != d ==> PriceLess(None, d, y));
    var r, drop := pool.Add(big, false, true);
    OneFreed(pool.TermsNow(), s, p, big, r, drop, pool.Now(), d);
  }

  /** The default settings. */
  const USUAL: Config := Config(10, 16, 4096, 64, 1024)

  /** A single payable transaction at the state nonce is promoted. */
  lemma SingleRun(tx: Tx, balance: int, maxGas: nat, local: bool, accountQueue: nat)
    requires !Unpayable(tx, balance, maxGas)
    ensures var qm, n := map[tx.nonce := tx], tx.nonce;
      && Executable(qm, n, balance, maxGas) == qm && ReadyRun(qm, n, n, balance, maxGas) == qm
      && QueueLeft(qm, n, n, balance, maxGas, local, accountQueue) == map[]
  {
    var qm, n := map[tx.nonce := tx], tx.nonce;
    assert Executable(qm, n, balance, maxGas) == qm;
    assert n in qm && Gapless(qm, n);
    assert Run(qm, n) == qm;
    assert qm - qm.Keys == map[];
  }

  /** A short list is not cut by truncation. */
  lemma ShortStays(b: Book, b': Book, locals: set<Address>, slots: nat, limit: nat, c: nat, a: Address)
    requires TruncatedTo(b, b', locals, slots, limit, c) && |Items(b, a)| <= slots
    ensures Items(b', a) == Items(b, a)
  {
    hide TotalLen, Lowest;
    if a in b {
      AllLowest(b[a], c);
    }
  }

  /** Truncation leaves a short pending list and an empty queue alone. */
  lemma NotCut(pool: TxPool, mid: Stage, beats: Address -> int, a: Address)
    requires pool.CutTo(mid, beats) && StageOk(mid) && |Items(mid.pending, a)| <= pool.config.accountSlots
    ensures Items(pool.pending, a) == Items(mid.pending, a)
    ensures Items(mid.queue, a) == map[] ==> Items(pool.queue, a) == map[]
  {
    hide TotalLen, Lowest, ByBeat, QueueCut, BookOk, Apart, Accounted, LookupOk;
    var level :| TruncatedTo(mid.pending, pool.pending, pool.locals, pool.config.accountSlots, pool.config.globalSlots,
                             level);
    ShortStays(mid.pending, pool.pending, pool.locals, pool.config.accountSlots, pool.config.globalSlots, level, a);
    var accounts :| QueueCutTo(mid.queue, pool.queue, pool.locals, accounts, beats, pool.config.globalQueue);
    CutPrefixes(mid.queue, accounts, Sub(TotalLen(mid.queue), pool.config.globalQueue), a);
  }

  /** Promoting an account with nothing pending and one payable transaction queued. */
  lemma PromotedSingle(config: Config, state: ChainState, maxGas: nat, s: Stage, s': Stage, tx: Tx)
    requires PromotedStage(config, state, maxGas, {tx.from}, s, s')
    requires Items(s.pending, tx.from) == map[] && Items(s.queue, tx.from) == map[tx.nonce := tx]
    requires VirtualNonce(s.nonces, state.nonce, tx.from) == state.nonce(tx.from) == tx.nonce
    requires !Unpayable(tx, state.balance(tx.from), maxGas)
    ensures Items(s'.pending, tx.from) == map[tx.nonce := tx] && Items(s'.queue, tx.from) == map[]
    ensures Shrinks(s.lookup, s'.lookup) && s'.locals == s.locals
  {
    hide ReadyRun, QueueLeft, EndOf, VirtualNonce;
    var a := tx.from;
    assert PromotedAt(s.pending, s.queue, s.nonces, state.nonce, state.balance, maxGas, s.locals, config.accountQueue,
                      {a}, s'.pending, s'.queue, s'.nonces, a);
    SingleRun(tx, state.balance(a), maxGas, a in s.locals, config.accountQueue);
    assert map[] + map[tx.nonce := tx] == map[tx.nonce := tx];
  }

  /** What the lookup has if all there is is one pending transaction. */
  lemma LookupOne(s: Stage, tx: Tx)
    requires StageOk(s) && s.lookup.locals == {} && s.lookup.remotes <= {tx} && tx.slots == 1 && InBook(s.pending, tx)
    ensures s.lookup == Lookup({}, {tx}, 1)
  {
    assert Known(s.lookup, tx);
    assert s.lookup.locals + s.lookup.remotes == {tx};
    SlotsWithout({tx}, tx);
    assert {tx} - {tx} == {};
  }

  /** A pool with a transfer of account 1 queued, at nonce 5. */
  method OneQueued(config: Config) returns (pool: TxPool, tx: Tx)
    requires config.accountSlots >= 1 && config.globalSlots + config.globalQueue >= 1
    ensures fresh(pool) && fresh(pool.priced) && pool.Valid() && pool.Gapless() && pool.Funded()
    ensures pool.TermsNow() == Terms(config, AtNonce(5), MAX_GAS, 1) && tx == Transfer(5, 1, 5, 1)
    ensures pool.Now() == Stage(map[], map[1 := map[5 := tx]], Lookup({}, {tx}, 1), map[], {})
    ensures pool.priced.baseFee.None?
  {
    hide PoolOk, AllGapless, AllFunded, Single, Heap.IsHeap, Tracks;
    pool := new TxPool(config, {}, AtNonce(5), MAX_GAS, 1);
    tx := Transfer(5, 1, 5, 1);
    Submit(pool, tx);
    NonePending(pool);
  }

  lemma NonePending(pool: TxPool)
    requires pool.pending == map[] && pool.nonces == map[]
    ensures pool.Gapless() && pool.Funded()
  {
  }

  /** A run without a reset promotes it. */
  method OnePending(config: Config) returns (pool: TxPool, tx: Tx)
    requires config.accountSlots >= 1 && config.globalSlots + config.globalQueue >= 1
    ensures fresh(pool) && fresh(pool.priced) && pool.Valid() && pool.Gapless() && pool.Funded()
    ensures pool.TermsNow() == Terms(config, AtNonce(5), MAX_GAS, 1) && tx == Transfer(5, 1, 5, 1)
    ensures Items(pool.pending, 1) == map[5 := tx] && Items(pool.queue, 1) == map[]
    ensures pool.lookup == Lookup({}, {tx}, 1) && pool.locals == {} && pool.priced.baseFee.None?
  {
    hide AllGapless, AllFunded, Single, Heap.IsHeap, Tracks, ReadyTaken, Gained, PoolOk, Gaps, PromotedStage,
         QueueWithin, TotalLen, TruncatedTo, QueueCutTo, Raising, Sunk, Unharmed, Interval;
    pool, tx := OneQueued(config);
    ghost var s := pool.Now();
    assert Members([1]) == {tx.from};
    var promoted, start, up, mid, f := pool.RunReorg(None, [1], _ => 0);
    PromotedSingle(config, pool.state, MAX_GAS, s, up, tx);
    NotCut(pool, mid, _ => 0, 1);
    LookupOne(pool.Now(), tx);
  }

  /** Taking back one transaction that fits. */
  lemma OneBack(config: Config, gasPrice: int, s: Stage, p: Prices, r: Reset, f: Refill, start: Stage, tx: Tx)
    requires r.head.Some? && r.reinject == [Submitted(tx, false, true)]
    requires ResetFrom(config, gasPrice, s, p, r, f, start)
    requires Validates(Terms(config, r.head.value.state, r.head.value.maxGas, gasPrice), tx, false, true)
    requires !Known(s.lookup, tx) && tx.from !in s.locals && Missing(config, s.lookup, tx) <= 0
    requires tx.nonce !in Items(s.pending, tx.from) && tx.nonce !in Items(s.queue, tx.from)
    ensures start == s.(nonces := map[], queue := Inserted(s.queue, tx), lookup := Entered(s.lookup, tx, false))
  {
    hide Answered, Inserted, Entered;
    var t := Terms(config, r.head.value.state, r.head.value.maxGas, gasPrice);
    assert AddedAt(t, r.reinject, false, f, 0);
    FitsIn(t, f.trace[0], f.prices[0], tx, f.results[0], f.drops[0], f.trace[1]);
  }

  /** With a later transaction pending and an earlier one back, but not all in between, both
      are kept. */
  lemma BothKept(config: Config, state: ChainState, maxGas: nat, start: Stage, up: Stage, mid: Stage, ahead: Tx,
                 lost: Tx)
    requires PromotedStage(config, state, maxGas, start.queue.Keys, start, up) && DemotedStage(state, maxGas, up, mid)
    requires var a := lost.from;
      Items(start.pending, a) == map[ahead.nonce := ahead] && Items(start.queue, a) == map[lost.nonce := lost]
    requires VirtualNonce(start.nonces, state.nonce, lost.from) == state.nonce(lost.from) == lost.nonce
    requires lost.nonce + 1 < ahead.nonce
    requires !Unpayable(ahead, state.balance(lost.from), maxGas) && !Unpayable(lost, state.balance(lost.from), maxGas)
    ensures Items(mid.pending, lost.from).Keys == {lost.nonce, ahead.nonce}
  {
    hide *;
    var a := lost.from;
    OneKeyed(lost);
    PromotedFrom(config, state, maxGas, start, up, a);
    DemotedFrom(state, maxGas, up, mid, a);
    TwoStay(ahead, lost, state.balance(a), maxGas);
  }

  lemma OneKeyed(tx: Tx)
    ensures Keyed(map[tx.nonce := tx])
  {
  }

  lemma TwoStay(ahead: Tx, lost: Tx, balance: int, maxGas: nat)
    requires lost.nonce + 1 < ahead.nonce && !Unpayable(ahead, balance, maxGas) && !Unpayable(lost, balance, maxGas)
    ensures var n := lost.nonce;
      var pm := map[ahead.nonce := ahead] + ReadyRun(map[n := lost], n, n, balance, maxGas);
      StillPending(pm, n, balance, maxGas).Keys == {lost.nonce, ahead.nonce}
  {
    hide StillPending, Executable, Run;
    var pm, run := map[ahead.nonce := ahead], map[lost.nonce := lost];
    SingleRun(lost, balance, maxGas, false, 0);
    BothStay(pm, run, ahead.nonce, ahead.nonce + 1, lost.nonce, lost.nonce + 1, balance, maxGas);
    KeptPart(pm + run, lost.nonce, balance, maxGas);
  }

  lemma KeptPart(pm: map<nat, Tx>, n: nat, balance: int, maxGas: nat)
    ensures StillPending(pm, n, balance, maxGas).Keys <= pm.Keys
  {
  }

  /** A reset that brings back only some of the lost transactions can leave a gap: here
      nonce 4 is missing, and demotion only looks at the state nonce. */
  method PartialReinjectionGaps() returns (pool: TxPool)
    ensures pool.Valid() && pool.Funded() && Items(pool.pending, 1).Keys == {3, 5} && !pool.Gapless()
  {
    hide AllGapless, AllFunded, Single, Heap.IsHeap, Tracks, ReadyTaken, Gained, PoolOk, PromotedStage, DemotedStage,
         QueueWithin, TotalLen, TruncatedTo, QueueCutTo, ResetFrom, Raising, Sunk, Unharmed, Gaps, Interval, TopUp;
    var ahead;
    pool, ahead := OnePending(USUAL);
    var lost := Transfer(3, 1, 3, 1);
    var reset := Reset(Some(Head(AtNonce(3), MAX_GAS)), [Submitted(lost, false, true)], None);
    ghost var s, p := pool.Now(), pool.PricesNow();
    var promoted, start, up, mid, f := pool.RunReorg(Some(reset), [], _ => 0);
    OneBack(USUAL, 1, s, p, reset, f, start, lost);
    assert Items(start.queue, 1) == map[3 := lost];
    BothKept(USUAL, pool.state, MAX_GAS, start, up, mid, ahead, lost);
    TwoKeys(Items(mid.pending, 1), 3, 5);
    NotCut(pool, mid, _ => 0, 1);
    GapSeen(pool, 1, 3, 5);
  }

  lemma TwoKeys(m: map<nat, Tx>, x: nat, y: nat)
    requires m.Keys == {x, y}
    ensures |m| <= 2
  {
    assert |m| == |m.Keys|;
  }

  lemma GapSeen(pool: TxPool, a: Address, lost: nat, ahead: nat)
    requires Items(pool.pending, a).Keys == {lost, ahead} && lost + 1 < ahead
    ensures !pool.Gapless()
  {
    assert lost in Items(pool.pending, a) && ahead in Items(pool.pending, a) && lost + 1 !in Items(pool.pending, a);
    assert !GaplessAt(pool.pending, pool.nonces, pool.state.nonce, a);
  }

  /** Room for two slots. */
  const TINY: Config := Config(10, 1, 1, 64, 1)

  /** A dearer transaction finds room at the cost of the only one there is. */
  lemma OnlyOneGoes(c: Config, l: Lookup, p: Prices, tx: Tx, d: Tx, drop: seq<Tx>)
    requires l.remotes == {d} && Tracked(l, p) && p.baseFee.None? && Missing(c, l, tx) == 1
    requires d.slots == 1 && d.feeCap < tx.feeCap
    ensures RoomError(c, l, p, tx, false).None? && (MakesRoom(c, l, tx, false, drop) ==> drop == [d])
  {
    hide SlotSum;
    assert d in p.urgent || d in p.floating;
    assert PriceCmp(None, d, tx) < 0;
    var live := Live(p.urgent, l.remotes) + Live(p.floating, l.remotes);
    assert d in multiset(p.urgent) || d in multiset(p.floating);
    assert multiset([d]) <= multiset(live);
    SlotSumPart([d], live);
    OneSlotEach([d]);
    if MakesRoom(c, l, tx, false, drop) {
      OneSlotEach(drop);
      if drop != [] {
        OneSlotEach(drop[..|drop| - 1]);
      }
      assert |drop| == 1 && drop == [drop[0]] && drop[0] in drop;
    }
  }

  /** Taking back a transaction for which the only pending one goes. */
  lemma PendingSinks(config: Config, gasPrice: int, s: Stage, p: Prices, r: Reset, f: Refill, start: Stage, tx: Tx,
                     d: Tx)
    requires r.head.Some? && r.reinject == [Submitted(tx, false, true)]
    requires ResetFrom(config, gasPrice, s, p, r, f, start)
    requires Validates(Terms(config, r.head.value.state, r.head.value.maxGas, gasPrice), tx, false, true)
    requires !Known(s.lookup, tx) && tx.from !in s.locals && Missing(config, s.lookup, tx) == 1
    requires s.lookup.remotes == {d} && Tracked(s.lookup, p) && p.baseFee.None? && d.slots == 1 && d.feeCap < tx.feeCap
    requires InBook(s.pending, d) && d.nonce < r.head.value.state.nonce(d.from)
    ensures Sunk(r.head.value.state.nonce, f, d.from)
  {
    hide Tracked, RoomError, MakesRoom, CheapestWent, Without, Inserting, Verdict;
    var t := Terms(config, r.head.value.state, r.head.value.maxGas, gasPrice);
    assert AddedAt(t, r.reinject, false, f, 0);
    OnlyOneGoes(config, s.lookup, p, tx, d, f.drops[0]);
    assert f.drops[0] == [d];
    NothingOut(f.trace[0], t.state.nonce);
    assert f.drops[0][..0] == [];
    assert TakesAt(f.trace[0], t.state.nonce, f.drops[0], d.from, 0);
    assert TakesOne(f.trace[0], t.state.nonce, f.drops[0], d.from);
  }

  /** A reset can lower the virtual nonce of an account below its state nonce for good: the
      transaction at nonce 5 was mined on the new branch, but before it is demoted it makes
      room for one that comes back. */
  method EvictionSinks() returns (pool: TxPool)
    ensures pool.Valid() && pool.Funded() && Items(pool.pending, 1) == map[] && !pool.Gapless()
  {
    hide AllGapless, AllFunded, Single, Heap.IsHeap, Tracks, ReadyTaken, Gained, PoolOk, PromotedStage, DemotedStage,
         QueueWithin, TotalLen, TruncatedTo, QueueCutTo, ResetFrom, Raising, Sunk, Unharmed, Gaps, TopUp, Standing;
    var mined;
    pool, mined := OnePending(TINY);
    var big := Large(9, 2, 6, 10);
    var reset := Reset(Some(Head(AtNonce(6), MAX_GAS)), [Submitted(big, false, true)], None);
    ghost var s, p := pool.Now(), pool.PricesNow();
    var promoted, start, up, mid, f := pool.RunReorg(Some(reset), [], _ => 0);
    PendingSinks(TINY, 1, s, p, reset, f, start, big, mined);
    assert Interval(Items(s.pending, 1), 5, 6);
    ResetStands(TINY, 1, s, p, reset, f, start, 1, 5, 6);
    BasedSunk(TINY, pool.state, MAX_GAS, start, up, mid, 1, 5);
    NotCut(pool, mid, _ => 0, 1);
    SunkSeen(pool, start, mid, 1, 5);
  }

  lemma SunkSeen(pool: TxPool, start: Stage, mid: Stage, a: Address, lo: nat)
    requires Gaps(pool.pending, pool.nonces, pool.state, pool.maxGas, start, mid, a, lo, true)
    requires Items(pool.pending, a) == map[]
    ensures !pool.Gapless()
  {
    assert !GaplessAt(pool.pending, pool.nonces, pool.state.nonce, a);
  }

  /** Truncating the queue to one of two transactions drops the one of the account that was
      heard from last. */
  lemma NewestGoesFirst(early: Tx, late: Tx, accounts: seq<Address>, beats: Address -> int, q: Book, q': Book)
    requires q == map[1 := map[early.nonce := early], 2 := map[late.nonce := late]] && beats(1) < beats(2)
    requires QueueCutTo(q, q', {}, accounts, beats, 1)
    ensures q' == map[1 := map[early.nonce := early]]
  {
    hide TotalLen, QueueCut;
    TwoQueued(q, early, late);
    assert 1 in accounts && 2 in accounts;
    var last := accounts[|accounts| - 1];
    var j :| 0 <= j < |accounts| && accounts[j] == 2;
    assert last in accounts && beats(2) <= beats(last);
    QueueCutStep(q, accounts, 1);
    QueueCutEnds(CutOne(q, 2, 1), accounts[..|accounts| - 1], 0);
    assert Lowest(map[late.nonce := late], 0) == map[];
  }

  lemma TwoQueued(q: Book, early: Tx, late: Tx)
    requires q == map[1 := map[early.nonce := early], 2 := map[late.nonce := late]]
    ensures TotalLen(q) == 2
  {
    PoolTruncate.TotalWithout(q, 1);
    var rest := q - {1};
    assert rest == map[2 := map[late.nonce := late]];
    PoolTruncate.TotalWithout(rest, 2);
    assert rest - {2} == map[];
  }

  /** Books with the same lists are the same. */
  lemma SameBook(b: Book, b': Book)
    requires BookOk(b) && BookOk(b') && forall a :: Items(b, a) == Items(b', a)
    ensures b == b'
  {
    forall a ensures a in b <==> a in b' {
      assert Items(b, a) == Items(b', a);
      assert a in b ==> b[a] != map[];
      assert a in b' ==> b'[a] != map[];
    }
    forall a | a in b ensures b[a] == b'[a] {
      assert Items(b, a) == Items(b', a);
    }
  }

  /** Promoting nobody changes no list. */
  lemma NobodyPromoted(config: Config, state: ChainState, maxGas: nat, s: Stage, s': Stage)
    requires PromotedStage(config, state, maxGas, {}, s, s') && StageOk(s) && StageOk(s')
    ensures s'.queue == s.queue && s'.locals == s.locals
  {
    hide QueueLeft, ReadyRun, VirtualNonce, Apart, Accounted, LookupOk, BookOk;
    forall a ensures Items(s.queue, a) == Items(s'.queue, a) {
      assert PromotedAt(s.pending, s.queue, s.nonces, state.nonce, state.balance, maxGas, s.locals, config.accountQueue,
                        {}, s'.pending, s'.queue, s'.nonces, a);
    }
    SameBook(s.queue, s'.queue);
  }

  /** A pool with two queued transactions. */
  method BothQueued(early: Tx, late: Tx) returns (pool: TxPool)
    requires early == Transfer(1, 1, 3, 1) && late == Transfer(2, 2, 3, 1)
    ensures fresh(pool) && fresh(pool.priced) && pool.Valid() && pool.TermsNow() == Terms(TINY, AtNonce(0), MAX_GAS, 1)
    ensures pool.locals == {} && pool.queue == map[1 := map[3 := early], 2 := map[3 := late]]
  {
    hide PoolOk, AllGapless, AllFunded, Single, Heap.IsHeap, Tracks;
    pool := new TxPool(TINY, {}, AtNonce(0), MAX_GAS, 1);
    Submit(pool, early);
    Submit(pool, late);
  }

  /** Only one of them may stay: the account with the later heartbeat loses its transaction. */
  method QueueDropsNewest() returns (pool: TxPool)
    ensures pool.Valid() && 1 in pool.queue && 2 !in pool.queue
  {
    hide AllGapless, AllFunded, Single, Heap.IsHeap, Tracks, ReadyTaken, Gained, PoolOk, PromotedStage, DemotedStage,
         QueueWithin, TotalLen, TruncatedTo, QueueCutTo, ResetFrom, Raising, Sunk, Unharmed, Gaps, TopUp, Interval;
    var early, late := Transfer(1, 1, 3, 1), Transfer(2, 2, 3, 1);
    pool := BothQueued(early, late);
    ghost var s := pool.Now();
    StageNow(pool);
    assert Members([]) == {};
    var promoted, start, up, mid, f := pool.RunReorg(None, [], a => a);
    NobodyPromoted(TINY, pool.state, MAX_GAS, s, mid);
    NewestCut(pool, mid, early, late);
  }

  lemma StageNow(pool: TxPool)
    requires pool.Valid()
    ensures StageOk(pool.Now())
  {
  }

  lemma NewestCut(pool: TxPool, mid: Stage, early: Tx, late: Tx)
    requires pool.CutTo(mid, a => a) && mid.locals == {} && pool.config.globalQueue == 1
    requires mid.queue == map[1 := map[early.nonce := early], 2 := map[late.nonce := late]]
    ensures pool.queue == map[1 := map[early.nonce := early]]
  {
    hide TruncatedTo, QueueCutTo;
    var accounts :| QueueCutTo(mid.queue, pool.queue, pool.locals, accounts, a => a, pool.config.globalQueue);
    NewestGoesFirst(early, late, accounts, a => a, mid.queue, pool.queue);
  }
}
