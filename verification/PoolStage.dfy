/** What single operations make of the whole content of the transaction pool
    (core/tx_pool.go), as functions and relations on its stages.
 */
module PoolStages {
  import opened Options
  import opened Transactions
  import opened TxSortedMaps
  import opened TxLists
  import opened PoolContent
  import opened PoolNonces
  import opened PricedLists

  /** The settings after sanitising: every limit is at least one. */
  datatype Config = Config(priceBump: nat, accountSlots: nat, globalSlots: nat, accountQueue: nat, globalQueue: nat)

  /** The chain state the pool validates against. */
  datatype ChainState = ChainState(nonce: Address -> nat, balance: Address -> int)

  datatype AddError = AlreadyKnown | InvalidTx | Underpriced | TxPoolOverflow | ReplaceUnderpriced

  datatype AddResult = Added(replaced: bool) | Rejected(error: AddError)

  /** What does not change while transactions are added. */
  datatype Terms = Terms(config: Config, state: ChainState, maxGas: nat, gasPrice: int)

  /** What the pool holds between two steps. */
  datatype Stage = Stage(
    pending: Book, queue: Book, lookup: Lookup, nonces: map<Address, nat>, locals: set<Address>)

  ghost predicate StageOk(s: Stage) {
    PoolOk(s.pending, s.queue, s.lookup)
  }

  /** The checks of validateTx that depend on the pool; `wellFormed` stands for the others. */
  predicate Validates(t: Terms, tx: Tx, local: bool, wellFormed: bool) {
    && wellFormed && tx.gas <= t.maxGas && (local || tx.tipCap >= t.gasPrice)
    && t.state.nonce(tx.from) <= tx.nonce && tx.cost <= t.state.balance(tx.from)
  }

  /** The slots missing for tx. */
  function Missing(c: Config, l: Lookup, tx: Tx): int {
    l.slots + tx.slots - (c.globalSlots + c.globalQueue)
  }

  /** The list of tx's account with tx in it. */
  function Inserted(b: Book, tx: Tx): Book {
    WithItems(b, tx.from, Items(b, tx.from)[tx.nonce := tx])
  }

  /** The answer to a valid transaction there is room for: only a transaction with its
      nonce, first a pending then a queued one, can stand in its way. */
  function Verdict(pending: Book, queue: Book, tx: Tx, priceBump: nat): AddResult {
    var pm, qm := Items(pending, tx.from), Items(queue, tx.from);
    var m := if tx.nonce in pm then pm else qm;
    if tx.nonce in m && !Replaces(m[tx.nonce], tx, priceBump) then Rejected(ReplaceUnderpriced)
    else AddResult.Added(tx.nonce in m)
  }

  /** The transaction of a list that tx takes the place of. */
  function Older(m: map<nat, Tx>, tx: Tx): Option<Tx> {
    if tx.nonce in m then Some(m[tx.nonce]) else None
  }

  /** The pool after a valid transaction there is room for: it takes the place of a
      pending one with its nonce or else joins the queue, and the account of one that
      is submitted as local and queued becomes local with all it has. */
  function Inserting(s: Stage, tx: Tx, local: bool, priceBump: nat): Stage {
    var a := tx.from;
    var isLocal := local || a in s.locals;
    if Verdict(s.pending, s.queue, tx, priceBump).Rejected? then s
    else if tx.nonce in Items(s.pending, a) then
      s.(pending := Inserted(s.pending, tx), lookup := SwapOf(s.lookup, Older(Items(s.pending, a), tx), tx, isLocal))
    else
      var l := SwapOf(s.lookup, Older(Items(s.queue, a), tx), tx, isLocal);
      if local && a !in s.locals then
        s.(queue := Inserted(s.queue, tx), lookup := Localised(l, s.locals + {a}), locals := s.locals + {a})
      else s.(queue := Inserted(s.queue, tx), lookup := l)
  }

  /** The pool without tx: a pending transaction takes the later ones of its account back
      to the queue and the virtual nonce down to its own; a queued one just goes. */
  function Without(s: Stage, stateNonce: Address -> nat, tx: Tx): Stage {
    var a, l := tx.from, Left(s.lookup, tx);
    if !Known(s.lookup, tx) then s
    else if InBook(s.pending, tx) then
      var pm := Items(s.pending, a);
      s.(pending := WithItems(s.pending, a, Before(pm, tx.nonce)),
         queue := WithItems(s.queue, a, Items(s.queue, a) + Above(pm, tx.nonce)),
         nonces := SetIfLower(s.nonces, stateNonce, a, tx.nonce), lookup := l)
    else s.(queue := WithItems(s.queue, a, Items(s.queue, a) - {tx.nonce}), lookup := l)
  }

  /** The pool after some transactions were removed one by one. */
  function WithoutAll(s: Stage, stateNonce: Address -> nat, drop: seq<Tx>): Stage {
    if drop == [] then s
    else Without(WithoutAll(s, stateNonce, drop[..|drop| - 1]), stateNonce, drop[|drop| - 1])
  }

  lemma WithoutMore(s: Stage, stateNonce: Address -> nat, drop: seq<Tx>, tx: Tx)
    ensures WithoutAll(s, stateNonce, drop + [tx]) == Without(WithoutAll(s, stateNonce, drop), stateNonce, tx)
  {
    assert (drop + [tx])[..|drop|] == drop;
  }

  lemma NothingOut(s: Stage, stateNonce: Address -> nat)
    ensures WithoutAll(s, stateNonce, []) == s
  {
  }

  lemma RejectedSame(s: Stage, tx: Tx, local: bool, priceBump: nat)
    ensures Verdict(s.pending, s.queue, tx, priceBump).Rejected? ==> Inserting(s, tx, local, priceBump) == s
  {
  }

  lemma WithoutLookup(s: Stage, stateNonce: Address -> nat, tx: Tx)
    ensures Without(s, stateNonce, tx).lookup == Left(s.lookup, tx) && Without(s, stateNonce, tx).locals == s.locals
  {
    hide WithItems, Before, Above, SetIfLower, InBook;
  }

  /** Removing a transaction twice is removing it once. */
  lemma GoneIsGone(s: Stage, stateNonce: Address -> nat, tx: Tx)
    ensures WithoutAll(s, stateNonce, [tx, tx]) == Without(s, stateNonce, tx)
    ensures WithoutAll(s, stateNonce, [tx, tx]).lookup == Left(s.lookup, tx)
  {
    hide Without, Left;
    var one := Without(s, stateNonce, tx);
    WithoutMore(s, stateNonce, [], tx);
    WithoutMore(s, stateNonce, [tx], tx);
    assert [] + [tx] == [tx] && [tx] + [tx] == [tx, tx];
    WithoutLookup(s, stateNonce, tx);
    NotKnownLeft(s.lookup, tx);
    StaysGone(one, stateNonce, tx);
  }

  lemma NotKnownLeft(l: Lookup, tx: Tx)
    ensures !Known(Left(l, tx), tx)
  {
  }

  lemma StaysGone(s: Stage, stateNonce: Address -> nat, tx: Tx)
    requires !Known(s.lookup, tx)
    ensures Without(s, stateNonce, tx) == s
  {
  }

  /** What may go to make room for tx: nothing if it fits; otherwise remote transactions,
      none more than needed, and enough of them unless tx is local and no remote one is left. */
  ghost predicate MakesRoom(c: Config, l: Lookup, tx: Tx, isLocal: bool, drop: seq<Tx>) {
    var missing := Missing(c, l, tx);
    && (missing <= 0 ==> drop == []) && (forall t :: t in drop ==> t in l.remotes)
    && (drop != [] ==> SlotSum(drop[..|drop| - 1]) < missing)
    && (SlotSum(drop) < missing ==> isLocal && forall t :: t in l.remotes ==> t in drop)
  }

  /** The heaps of the price index. */
  datatype Prices = Prices(urgent: seq<Tx>, floating: seq<Tx>, baseFee: Option<int>)

  /** Why there is no room for a remote transaction: it is no better than any in the pool,
      or those do not account for enough slots. */
  ghost function RoomError(c: Config, l: Lookup, p: Prices, tx: Tx, isLocal: bool): Option<AddError> {
    if Missing(c, l, tx) <= 0 || isLocal then None
    else if NoBetter(p.urgent, p.floating, p.baseFee, tx, l.remotes) then Some(Underpriced)
    else if LiveSlots(p.urgent, p.floating, l.remotes) < Missing(c, l, tx) then Some(TxPoolOverflow)
    else None
  }

  /** What was dropped was the cheapest there was. */
  ghost predicate CheapestWent(l: Lookup, p: Prices, drop: seq<Tx>) {
    && DropsInOrder(p.floating, drop, l.remotes)
    && (p.baseFee.None? && Under(p.floating, p.urgent) ==> Outranks(p.urgent, p.floating, drop, l.remotes))
  }

  /** The heaps track every remote transaction. */
  ghost predicate Tracked(l: Lookup, p: Prices) {
    Tracks(p.urgent, p.floating, l.remotes)
  }

  /** The answer to a submitted transaction and the pool afterwards: one that is known,
      invalid, or does not get room changes nothing; otherwise some transactions make
      room and the verdict on the rest of the pool decides. */
  ghost predicate Answered(t: Terms, s: Stage, p: Prices, tx: Tx, local: bool, wellFormed: bool,
                           r: AddResult, drop: seq<Tx>, s': Stage)
  {
    var isLocal := local || tx.from in s.locals;
    var error := RoomError(t.config, s.lookup, p, tx, isLocal);
    if Known(s.lookup, tx) then r == Rejected(AlreadyKnown) && drop == [] && s' == s
    else if !Validates(t, tx, isLocal, wellFormed) then r == Rejected(InvalidTx) && drop == [] && s' == s
    else if error.Some? then r == Rejected(error.value) && drop == [] && s' == s
    else
      var room := WithoutAll(s, t.state.nonce, drop);
      && MakesRoom(t.config, s.lookup, tx, isLocal, drop) && CheapestWent(s.lookup, p, drop)
      && r == Verdict(room.pending, room.queue, tx, t.config.priceBump)
      && s' == Inserting(room, tx, local, t.config.priceBump)
  }

  /** Removing transactions adds none to the lookup. */
  lemma {:induction false} WithoutAllLookup(s: Stage, stateNonce: Address -> nat, drop: seq<Tx>, tx: Tx)
    ensures Known(WithoutAll(s, stateNonce, drop).lookup, tx) ==> Known(s.lookup, tx)
    ensures WithoutAll(s, stateNonce, drop).locals == s.locals
  {
    hide Without;
    if drop != [] {
      var init, last := drop[..|drop| - 1], drop[|drop| - 1];
      WithoutAllLookup(s, stateNonce, init, tx);
      WithoutLookup(WithoutAll(s, stateNonce, init), stateNonce, last);
    }
  }

  /** What an answer tells: an accepted transaction is in the pool, on the side it belongs
      to; a rejected one is not, unless it was before; and a rejection that is not about the
      price of a replacement changes nothing. */
  ghost predicate Told(s: Stage, tx: Tx, local: bool, r: AddResult, s': Stage) {
    && (r.Added? ==> Known(s'.lookup, tx) && (local || tx.from in s.locals ==> tx in s'.lookup.locals))
    && (r.Rejected? ==> (Known(s'.lookup, tx) <==> r.error == AlreadyKnown))
    && (r.Rejected? && r.error != ReplaceUnderpriced ==> s' == s)
    && (s'.locals != s.locals ==> local && r.Added? && s'.locals == s.locals + {tx.from})
  }

  lemma AnsweredTells(t: Terms, s: Stage, p: Prices, tx: Tx, local: bool, wellFormed: bool,
                      r: AddResult, drop: seq<Tx>, s': Stage)
    requires Answered(t, s, p, tx, local, wellFormed, r, drop, s')
    ensures Told(s, tx, local, r, s')
  {
    hide WithoutAll, Without, MakesRoom, Inserted, Validates, NoBetter, LiveSlots, CheapestWent;
    WithoutAllLookup(s, t.state.nonce, drop, tx);
  }

  lemma AnsweredKnown(t: Terms, s: Stage, p: Prices, tx: Tx, local: bool, wellFormed: bool)
    requires Known(s.lookup, tx)
    ensures Answered(t, s, p, tx, local, wellFormed, Rejected(AlreadyKnown), [], s)
  {
  }

  lemma AnsweredInvalid(t: Terms, s: Stage, p: Prices, tx: Tx, local: bool, wellFormed: bool)
    requires !Known(s.lookup, tx) && !Validates(t, tx, local || tx.from in s.locals, wellFormed)
    ensures Answered(t, s, p, tx, local, wellFormed, Rejected(InvalidTx), [], s)
  {
  }

  lemma AnsweredFull(t: Terms, s: Stage, p: Prices, tx: Tx, local: bool, wellFormed: bool, error: AddError)
    requires !Known(s.lookup, tx) && Validates(t, tx, local || tx.from in s.locals, wellFormed)
    requires RoomError(t.config, s.lookup, p, tx, local || tx.from in s.locals) == Some(error)
    ensures Answered(t, s, p, tx, local, wellFormed, Rejected(error), [], s)
  {
    hide NoBetter, LiveSlots;
  }

  lemma AnsweredRoom(t: Terms, s: Stage, p: Prices, tx: Tx, local: bool, wellFormed: bool,
                     r: AddResult, drop: seq<Tx>, s': Stage)
    requires !Known(s.lookup, tx) && Validates(t, tx, local || tx.from in s.locals, wellFormed)
    requires RoomError(t.config, s.lookup, p, tx, local || tx.from in s.locals).None?
    requires MakesRoom(t.config, s.lookup, tx, local || tx.from in s.locals, drop) && CheapestWent(s.lookup, p, drop)
    requires var room := WithoutAll(s, t.state.nonce, drop);
      r == Verdict(room.pending, room.queue, tx, t.config.priceBump)
        && s' == Inserting(room, tx, local, t.config.priceBump)
    ensures Answered(t, s, p, tx, local, wellFormed, r, drop, s')
  {
    hide WithoutAll, Inserting, MakesRoom, CheapestWent, RoomError;
  }

  /** A transaction handed to the pool; one of type 30 counts as local. */
  datatype Submitted = Submitted(tx: Tx, type30: bool, wellFormed: bool)

  /** How a batch is added: trace[i] is the pool and prices[i] its price index before the i-th
      transaction, results[i] the answer to it and drops[i] what made room for it. */
  datatype Refill = Refill(results: seq<AddResult>, drops: seq<seq<Tx>>, trace: seq<Stage>, prices: seq<Prices>)

  ghost predicate AddedAll(t: Terms, batch: seq<Submitted>, local: bool, f: Refill) {
    && |f.results| == |f.drops| == |batch| && |f.trace| == |f.prices| == |batch| + 1
    && forall i :: 0 <= i < |batch| ==> AddedAt(t, batch, local, f, i)
  }

  ghost predicate AddedAt(t: Terms, batch: seq<Submitted>, local: bool, f: Refill, i: nat)
    requires |f.results| == |f.drops| == |batch| && |f.trace| == |f.prices| == |batch| + 1 && i < |batch|
  {
    AddedOne(t, batch[i], local, f.results[i], f.drops[i], f.trace[i], f.prices[i], f.trace[i + 1], f.prices[i + 1])
  }

  /** One of them: the answer is that of adding it, and the price index still tracks every
      remote transaction under the same base fee. */
  ghost predicate AddedOne(t: Terms, b: Submitted, local: bool, r: AddResult, drop: seq<Tx>,
                           s: Stage, p: Prices, s': Stage, p': Prices)
  {
    && Answered(t, s, p, b.tx, local || b.type30, b.wellFormed, r, drop, s')
    && Tracked(s'.lookup, p') && p'.baseFee == p.baseFee
  }

  lemma AddedNone(t: Terms, batch: seq<Submitted>, local: bool, s: Stage, p: Prices)
    ensures AddedAll(t, batch[..0], local, Refill([], [], [s], [p]))
  {
  }

  lemma AddedTells(t: Terms, batch: seq<Submitted>, local: bool, f: Refill, i: nat)
    requires AddedAll(t, batch, local, f) && i < |batch|
    ensures |f.results| == |batch| && |f.trace| == |batch| + 1
    ensures Told(f.trace[i], batch[i].tx, local || batch[i].type30, f.results[i], f.trace[i + 1])
  {
    hide Answered, Told;
    assert AddedAt(t, batch, local, f, i);
    AnsweredTells(t, f.trace[i], f.prices[i], batch[i].tx, local || batch[i].type30, batch[i].wellFormed, f.results[i],
                  f.drops[i], f.trace[i + 1]);
  }

  /** One more transaction. */
  function Refilled(f: Refill, r: AddResult, drop: seq<Tx>, s: Stage, p: Prices): Refill {
    Refill(f.results + [r], f.drops + [drop], f.trace + [s], f.prices + [p])
  }

  lemma AddedMore(t: Terms, batch: seq<Submitted>, local: bool, f: Refill, i: nat,
                  r: AddResult, drop: seq<Tx>, s': Stage, p': Prices)
    requires i < |batch| && AddedAll(t, batch[..i], local, f)
    requires AddedOne(t, batch[i], local, r, drop, f.trace[i], f.prices[i], s', p')
    ensures AddedAll(t, batch[..i + 1], local, Refilled(f, r, drop, s', p'))
  {
    hide AddedOne;
    var b, f' := batch[..i + 1], Refilled(f, r, drop, s', p');
    forall j | 0 <= j < |b| ensures AddedAt(t, b, local, f', j) {
      if j < i {
        assert AddedAt(t, batch[..i], local, f, j);
      }
    }
  }

  lemma AddedLength(t: Terms, batch: seq<Submitted>, local: bool, f: Refill)
    requires AddedAll(t, batch, local, f)
    ensures |f.results| == |f.drops| == |batch| && |f.trace| == |f.prices| == |batch| + 1
  {
  }

  /** The head the pool resets to. */
  datatype Head = Head(state: ChainState, maxGas: nat)

  /** A reset: the new head, unless its blocks or state could not be loaded; the
      transactions of abandoned blocks; and the next base fee once there is one. */
  datatype Reset = Reset(head: Option<Head>, reinject: seq<Submitted>, baseFee: Option<int>)

  /** The reset stays on one branch: nothing comes back and no account's nonce drops. */
  ghost predicate Forward(before: ChainState, r: Reset) {
    r.head.Some? ==> r.reinject == [] && forall a :: before.nonce(a) <= r.head.value.state.nonce(a)
  }

  /** The pool after a reset: a failed one changes nothing, and one that succeeds forgets
      the virtual nonces and takes back the transactions of abandoned blocks. */
  ghost predicate ResetFrom(config: Config, gasPrice: int, s: Stage, p: Prices, r: Reset, f: Refill, start: Stage) {
    if r.head.None? then start == s
    else
      && AddedAll(Terms(config, r.head.value.state, r.head.value.maxGas, gasPrice), r.reinject, false, f)
      && f.trace[0] == s.(nonces := map[]) && f.prices[0] == p && f.trace[|r.reinject|] == start
  }

  /** Without transactions to take back a reset keeps everything but the virtual nonces. */
  lemma NothingBack(config: Config, gasPrice: int, s: Stage, p: Prices, r: Reset, f: Refill, start: Stage)
    requires ResetFrom(config, gasPrice, s, p, r, f, start) && r.reinject == [] && r.head.Some?
    ensures start == s.(nonces := map[])
  {
  }

  /** Nothing joined either side of the lookup. */
  ghost predicate Shrinks(l: Lookup, l': Lookup) {
    l'.locals <= l.locals && l'.remotes <= l.remotes
  }

  /** Promotion of some accounts, and of none but those, as a step between stages. */
  ghost predicate PromotedStage(config: Config, state: ChainState, maxGas: nat, accounts: set<Address>, s: Stage,
                                s': Stage)
  {
    && PromotedBut(s.pending, s.queue, s.nonces, state.nonce, state.balance, maxGas, s.locals, config.accountQueue,
                   accounts, s'.pending, s'.queue, s'.nonces)
    && Shrinks(s.lookup, s'.lookup) && s'.locals == s.locals
  }

  /** Demotion of all accounts as a step between stages. */
  ghost predicate DemotedStage(state: ChainState, maxGas: nat, s: Stage, s': Stage) {
    && DemotedBut(s.pending, s.queue, state.nonce, state.balance, maxGas, {}, s'.pending, s'.queue)
    && Shrinks(s.lookup, s'.lookup) && s'.nonces == s.nonces && s'.locals == s.locals
  }
}
