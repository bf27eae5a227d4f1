/** The transaction pool (core/tx_pool.go): adding, removing, promoting, demoting
    and truncating transactions under the pool lock.
 */
module TxPools {
  import opened Options
  import opened Transactions
  import opened TxSortedMaps
  import opened TxLists
  import opened PoolContent
  import opened PoolNonces
  import opened PoolTruncate
  import opened PoolQueue
  import opened PricedLists
  import opened PoolStages
  import opened PoolReinjects
  import opened PoolGaps
  import Heap

  /** None of the accounts has a queued transaction that could be promoted. */
  ghost predicate ReadyTaken(queue: Book, nonces: map<Address, nat>, state: ChainState, maxGas: nat,
                             all: bool, accounts: seq<Address>)
  {
    forall a :: all || a in accounts ==> NoneReady(queue, nonces, state.nonce, state.balance, maxGas, a)
  }

  class TxPool {
    const config: Config
    const priced: PricedList

    var pending: Book
    var queue: Book
    var lookup: Lookup
    var locals: set<Address>
    var nonces: map<Address, nat>   // pendingNonces
    var state: ChainState           // currentState
    var maxGas: nat                 // currentMaxGas
    var gasPrice: int

    /** Pending, queue and lookup agree; remote transactions are not from local accounts. */
    ghost predicate Consistent()
      reads this
    {
      && PoolOk(pending, queue, lookup)
      && (forall tx :: tx in lookup.remotes ==> tx.from !in locals)
    }

    ghost predicate Valid()
      reads this, priced
    {
      && Consistent() && priced.Valid() && priced.Covers(lookup.remotes)
      && config.accountSlots >= 1
    }

    ghost predicate Gapless()
      reads this
    {
      AllGapless(pending, nonces, state.nonce)
    }

    /** No pending transaction costs more than its sender has or takes more gas than a block. */
    ghost predicate Funded()
      reads this
    {
      AllFunded(pending, state.balance, maxGas)
    }

    ghost function Now(): Stage
      reads this
    {
      Stage(pending, queue, lookup, nonces, locals)
    }

    /** What submitted transactions are held against. */
    function TermsNow(): Terms
      reads this
    {
      Terms(config, state, maxGas, gasPrice)
    }

    /** Every remote transaction has one entry in the price index: none has a stale one
        left over from before it was removed and added again. */
    ghost predicate SingleEntries()
      reads this, priced
    {
      Single(priced.urgent, priced.floating, lookup.remotes)
    }

    /** Entries that were single still are. */
    twostate predicate Tidy()
      reads this, priced
    {
      old(SingleEntries()) ==> SingleEntries()
    }

    /** What was gapless and funded still is. */
    twostate predicate Undisturbed()
      reads this
    {
      (old(Gapless()) ==> Gapless()) && (old(Funded()) ==> Funded())
    }

    constructor (config: Config, locals: set<Address>, state: ChainState, maxGas: nat, gasPrice: int)
      requires config.accountSlots >= 1
      ensures Valid() && Gapless() && Funded() && fresh(priced) && SingleEntries()
      ensures Now() == Stage(map[], map[], Lookup({}, {}, 0), map[], locals)
      ensures this.config == config && TermsNow() == Terms(config, state, maxGas, gasPrice)
      ensures priced.urgent == priced.floating == [] && priced.stales == 0 && priced.baseFee == None
    {
      this.config, this.locals, this.state, this.maxGas, this.gasPrice := config, locals, state, maxGas, gasPrice;
      priced := new PricedList();
      pending, queue, lookup, nonces := map[], map[], Lookup({}, {}, 0), map[];
    }

    /** Tells the price index that transactions left the lookup. */
    method Unprice(count: nat, ghost before: set<Tx>)
      requires priced.Valid() && priced.Covers(before) && lookup.remotes <= before
      modifies priced`urgent, priced`floating, priced`stales
      ensures priced.Valid() && priced.Covers(lookup.remotes)
      ensures old(Single(priced.urgent, priced.floating, before)) ==> SingleEntries()
    {
      priced.Removed(count, lookup.remotes);
    }

    /** removeTx without the price index. */
    method Evict(tx: Tx)
      requires Consistent()
      modifies this`pending, this`queue, this`lookup, this`nonces
      ensures Consistent() && Undisturbed() && Now() == Without(old(Now()), state.nonce, tx)
      ensures lookup.locals == old(lookup.locals) - {tx} && lookup.remotes == old(lookup.remotes) - {tx}
    {
      hide AllGapless, AllFunded, WithItems, Before, Above, SetIfLower, LookupOk, BookOk, Apart;
      if !Known(lookup, tx) {
        assert lookup.locals - {tx} == lookup.locals && lookup.remotes - {tx} == lookup.remotes;
        return;
      }
      assert InBook(pending, tx) || InBook(queue, tx);
      NotTwice(pending, queue, lookup, tx);
      var l := LookupRemove(lookup, tx);
      var p, q, ns := RemoveFromLists(pending, queue, nonces, state.nonce, tx, config.priceBump);
      RemovalKeeps(pending, queue, lookup, nonces, state.nonce, tx, p, q, l, ns);
      FundedRemoval(pending, queue, state.balance, maxGas, tx, p);
      pending, queue, lookup, nonces := p, q, l, ns;
    }

    method RemoveTx(tx: Tx, outofbound: bool)
      requires Valid()
      modifies this`pending, this`queue, this`lookup, this`nonces, priced`urgent, priced`floating, priced`stales
      ensures Valid() && Undisturbed() && Tidy() && Now() == Without(old(Now()), state.nonce, tx)
      ensures lookup.locals == old(lookup.locals) - {tx} && lookup.remotes == old(lookup.remotes) - {tx}
      ensures !outofbound || old(priced.stales) + 1 <= (|old(priced.urgent)| + |old(priced.floating)|) / 4 ==>
                priced.urgent == old(priced.urgent) && priced.floating == old(priced.floating)
    {
      hide PoolOk, AllGapless, AllFunded, Without;
      if !Known(lookup, tx) {
        StaysGone(Now(), state.nonce, tx);
        assert lookup.locals - {tx} == lookup.locals && lookup.remotes - {tx} == lookup.remotes;
        return;
      }
      Evict(tx);
      if outofbound {
        priced.Removed(1, lookup.remotes);
      }
    }

    /** Evicts what the price index gave up. */
    method EvictAll(drop: seq<Tx>)
      requires Consistent()
      modifies this`pending, this`queue, this`lookup, this`nonces
      ensures Consistent() && Undisturbed() && Now() == WithoutAll(old(Now()), state.nonce, drop)
      ensures lookup.locals == old(lookup.locals) - (set t | t in drop)
      ensures lookup.remotes == old(lookup.remotes) - (set t | t in drop)
    {
      hide PoolOk, AllGapless, AllFunded, Without;
      for i := 0 to |drop|
        invariant Consistent() && Undisturbed() && Now() == WithoutAll(old(Now()), state.nonce, drop[..i])
        invariant lookup.locals == old(lookup.locals) - (set t | t in drop[..i])
        invariant lookup.remotes == old(lookup.remotes) - (set t | t in drop[..i])
      {
        assert drop[..i + 1] == drop[..i] + [drop[i]];
        WithoutMore(old(Now()), state.nonce, drop[..i], drop[i]);
        Evict(drop[i]);
      }
      assert drop[..|drop|] == drop;
    }

    /** The heaps of the price index. */
    ghost function PricesNow(): Prices
      reads this, priced
    {
      Prices(priced.urgent, priced.floating, priced.baseFee)
    }

    /** Why there is no room for a transaction. */
    ghost function Refused(tx: Tx, isLocal: bool): Option<AddError>
      reads this, priced
    {
      RoomError(config, lookup, PricesNow(), tx, isLocal)
    }

    /** Takes the cheapest remote transactions out of the price index to free some slots. */
    method PriceOut(tx: Tx, isLocal: bool) returns (error: Option<AddError>, drop: seq<Tx>)
      requires Valid() && Missing(config, lookup, tx) > 0
      modifies priced`urgent, priced`floating, priced`stales
      ensures priced.Valid() && priced.Covers(lookup.remotes - (set t | t in drop))
      ensures error == old(Refused(tx, isLocal)) && (error.Some? ==> drop == [])
      ensures error.None? ==> MakesRoom(config, lookup, tx, isLocal, drop)
      ensures Discards(old(priced.urgent), old(priced.floating), priced.urgent, priced.floating, drop, priced.baseFee,
                       lookup.remotes)
    {
      hide PoolOk, NoBetter, LiveSlots, Discards, SlotSum, SameLive, Heap.IsHeap;
      ghost var u0, f0, remotes := priced.urgent, priced.floating, lookup.remotes;
      if !isLocal {
        var under := priced.Underpriced(tx, lookup.remotes);
        if under {
          NoDiscard(priced.urgent, priced.floating, priced.baseFee, remotes);
          StaleFirst(u0, f0, priced.urgent, priced.floating, priced.urgent, priced.floating, [], priced.baseFee,
                     remotes);
          assert remotes - (set t: Tx | t in []) == remotes;
          return Some(Underpriced), [];
        }
        StaleFirstSlots(u0, f0, priced.urgent, priced.floating, remotes);
      }
      ghost var u, f := priced.urgent, priced.floating;
      var success;
      drop, success := priced.Discard(Missing(config, lookup, tx), isLocal, lookup.remotes);
      if !isLocal {
        StaleFirst(u0, f0, u, f, priced.urgent, priced.floating, drop, priced.baseFee, remotes);
      }
      AllOut(priced.urgent, priced.floating, drop, remotes);
      DropsLive(u0, f0, priced.urgent, priced.floating, drop, priced.baseFee, remotes);
      error := if success then None else Some(TxPoolOverflow);
    }

    /** Makes room for a transaction in a full pool by evicting `drop`, the cheapest remote
        transactions. That frees as many slots as counted if none was counted twice. */
    method MakeRoom(tx: Tx, isLocal: bool) returns (error: Option<AddError>, ghost drop: seq<Tx>)
      requires Valid() && !Known(lookup, tx)
      modifies this`pending, this`queue, this`lookup, this`nonces, priced`urgent, priced`floating, priced`stales
      ensures Valid() && !Known(lookup, tx) && Undisturbed() && Tidy() && lookup.locals == old(lookup.locals)
      ensures error == old(Refused(tx, isLocal)) && (error.Some? ==> drop == [])
      ensures Now() == WithoutAll(old(Now()), state.nonce, drop)
      ensures error.None? ==> MakesRoom(config, old(lookup), tx, isLocal, drop)
      ensures Discards(old(priced.urgent), old(priced.floating), priced.urgent, priced.floating, drop, priced.baseFee,
                       old(lookup.remotes))
      ensures error.None? && !isLocal && old(SingleEntries()) ==> Missing(config, lookup, tx) <= 0
      ensures old(Missing(config, lookup, tx)) <= 0 ==> unchanged(priced) && Now() == old(Now())
    {
      hide PoolOk, AllGapless, AllFunded, NoBetter, LiveSlots, Discards, Without, Single, SlotSum, Heap.IsHeap;
      error, drop := None, [];
      if Missing(config, lookup, tx) <= 0 {
        NoDiscard(priced.urgent, priced.floating, priced.baseFee, lookup.remotes);
        return;
      }
      var gone;
      error, gone := PriceOut(tx, isLocal);
      drop := gone;
      DropsLive(old(priced.urgent), old(priced.floating), priced.urgent, priced.floating, drop, priced.baseFee,
                lookup.remotes);
      if old(SingleEntries()) {
        DiscardsSingle(old(priced.urgent), old(priced.floating), priced.urgent, priced.floating, drop, lookup.remotes);
      }
      if error.Some? {
        assert lookup.remotes - (set t | t in drop) == lookup.remotes;
        return;
      }
      ghost var before := lookup;
      PoolLookup(pending, queue, lookup);
      LocalsApart(pending, queue, lookup);
      EvictAll(gone);
      assert lookup.locals == old(lookup.locals);
      PoolLookup(pending, queue, lookup);
      if !isLocal && old(SingleEntries()) {
        DropFrees(before, lookup, gone);
      }
    }

    /** Tells the price index that tx came, in the place of an older one if there was one.
        A remote one keeps the entries single exactly if it had no stale entry itself or
        the removal of the older one has the index rebuilt. */
    method PriceSwap(older: Option<Tx>, tx: Tx, isLocal: bool, before: set<Tx>, ghost after: set<Tx>)
      requires priced.Valid() && priced.Covers(before) && tx !in before
      requires after == (before - (if older.Some? then {older.value} else {})) + (if isLocal then {} else {tx})
      modifies priced`urgent, priced`floating, priced`stales
      ensures priced.Valid() && priced.Covers(after)
      ensures old(Single(priced.urgent, priced.floating, before)) ==>
                (Single(priced.urgent, priced.floating, after) <==> isLocal || old(FreshEntry(tx, older.Some?)))
      ensures older.None? ==>
                && multiset(priced.urgent) == multiset(old(priced.urgent))
                  + (if isLocal then multiset{} else multiset{tx})
                && priced.floating == old(priced.floating) && priced.stales == old(priced.stales)
    {
      hide Heap.IsHeap, Tracks, Single;
      var left := before;
      if older.Some? {
        left := before - {older.value};
        FewerCovered(priced.urgent, priced.floating, before, left);
        priced.Removed(1, left);
        if old(priced.stales) + 1 > (|old(priced.urgent)| + |old(priced.floating)|) / 4 {
          NotRebuilt(priced.urgent, priced.floating, left, tx);
        }
      }
      priced.Put(tx, isLocal, left);
      assert after == if isLocal then left else left + {tx};
    }

    /** Adding tx leaves it with one entry: it has none yet, or the one it replacing has the
        price index rebuilt. */
    ghost predicate FreshEntry(tx: Tx, replacing: bool)
      reads priced
    {
      || Entries(priced.urgent, priced.floating, tx) == 0
      || (replacing && priced.stales + 1 > (|priced.urgent| + |priced.floating|) / 4)
    }

    /** The price index after tx was added, in the place of an older one or not. */
    twostate predicate Priced(tx: Tx, isLocal: bool, replacing: bool)
      reads this, priced
    {
      && (old(SingleEntries()) ==> (SingleEntries() <==> isLocal || old(FreshEntry(tx, replacing))))
      && (!replacing ==>
            && multiset(priced.urgent) == multiset(old(priced.urgent)) + (if isLocal then multiset{} else multiset{tx})
            && priced.floating == old(priced.floating) && priced.stales == old(priced.stales))
    }

    /** Replaces a pending transaction that has tx's nonce. */
    method ReplacePending(tx: Tx, isLocal: bool) returns (r: AddResult)
      requires Valid() && !Known(lookup, tx) && tx.nonce in Items(pending, tx.from)
      requires (tx.from in locals ==> isLocal) && !Unpayable(tx, state.balance(tx.from), maxGas)
      modifies this`pending, this`lookup, priced`urgent, priced`floating, priced`stales
      ensures Valid() && Undisturbed()
      ensures r == if Replaces(Items(old(pending), tx.from)[tx.nonce], tx, config.priceBump)
                   then AddResult.Added(true) else Rejected(ReplaceUnderpriced)
      ensures r.Rejected? ==> pending == old(pending) && lookup == old(lookup) && unchanged(priced)
      ensures r.Added? ==>
                Known(lookup, tx) && (tx in lookup.remotes <==> !isLocal)
                  && lookup.slots <= old(lookup.slots) + tx.slots
      ensures r.Added? ==> pending == Inserted(old(pending), tx)
      ensures r.Added? ==> lookup == SwapOf(old(lookup), Older(Items(old(pending), tx.from), tx), tx, isLocal)
      ensures r.Added? ==> Priced(tx, isLocal, true)
    {
      hide PoolOk, AllGapless, AllFunded, LookupOk, Swapped, Single, Entries, Heap.IsHeap;
      PoolLookup(pending, queue, lookup);
      var inserted, older, m, l := SwapIn(Items(pending, tx.from), lookup, tx, isLocal, config.priceBump);
      if !inserted {
        return Rejected(ReplaceUnderpriced);
      }
      PendingReplaced(pending, queue, lookup, tx, l);
      SameNonces(pending, nonces, state.nonce, tx);
      FundedReplacement(pending, state.balance, maxGas, tx);
      PriceSwap(older, tx, isLocal, lookup.remotes, l.remotes);
      pending, lookup := WithItems(pending, tx.from, m), l;
      return AddResult.Added(true);
    }

    /** enqueueTx of a new transaction. */
    method EnqueueTx(tx: Tx, isLocal: bool) returns (r: AddResult)
      requires Valid() && !Known(lookup, tx) && tx.nonce !in Items(pending, tx.from)
      requires tx.from in locals ==> isLocal
      modifies this`queue, this`lookup, priced`urgent, priced`floating, priced`stales
      ensures Valid()
      ensures r == if tx.nonce in Items(old(queue), tx.from)
                      && !Replaces(Items(old(queue), tx.from)[tx.nonce], tx, config.priceBump)
                   then Rejected(ReplaceUnderpriced) else AddResult.Added(tx.nonce in Items(old(queue), tx.from))
      ensures r.Rejected? ==> queue == old(queue) && lookup == old(lookup) && unchanged(priced)
      ensures r.Added? ==>
                Known(lookup, tx) && (tx in lookup.remotes <==> !isLocal)
                  && lookup.slots <= old(lookup.slots) + tx.slots
      ensures r.Added? ==> queue == Inserted(old(queue), tx)
      ensures r.Added? ==> lookup == SwapOf(old(lookup), Older(Items(old(queue), tx.from), tx), tx, isLocal)
      ensures r.Added? ==> Priced(tx, isLocal, r.replaced)
    {
      hide PoolOk, LookupOk, Swapped, Single, Entries, Heap.IsHeap;
      PoolLookup(pending, queue, lookup);
      var inserted, older, m, l := SwapIn(Items(queue, tx.from), lookup, tx, isLocal, config.priceBump);
      if !inserted {
        return Rejected(ReplaceUnderpriced);
      }
      QueuedInserted(pending, queue, lookup, tx, l);
      PriceSwap(older, tx, isLocal, lookup.remotes, l.remotes);
      queue, lookup := WithItems(queue, tx.from, m), l;
      return AddResult.Added(older.Some?);
    }

    /** Makes an account local and moves its transactions to the locals. */
    method MarkLocal(a: Address)
      requires Valid()
      modifies this`lookup, this`locals, priced`urgent, priced`floating, priced`stales
      ensures Valid() && locals == old(locals) + {a} && lookup.slots == old(lookup.slots) && Tidy()
      ensures lookup == Localised(old(lookup), locals)
      ensures lookup.locals + lookup.remotes == old(lookup.locals + lookup.remotes)
      ensures lookup.remotes == set tx | tx in old(lookup.remotes) && tx.from != a
    {
      hide PoolOk, LookupOk, Heap.IsHeap, Tracks, Single, Localised;
      PoolLookup(pending, queue, lookup);
      OneMoreLocal(lookup, locals, a);
      locals := locals + {a};
      var l, migrated := RemoteToLocals(lookup, locals);
      SameKnown(pending, queue, lookup, l);
      FewerCovered(priced.urgent, priced.floating, lookup.remotes, l.remotes);
      lookup := l;
      priced.Removed(migrated, lookup.remotes);
    }

    /** The second half of add. */
    method Insert(tx: Tx, local: bool) returns (r: AddResult)
      requires Valid() && !Known(lookup, tx) && !Unpayable(tx, state.balance(tx.from), maxGas)
      modifies this`pending, this`queue, this`lookup, this`locals, priced`urgent, priced`floating, priced`stales
      ensures Valid() && Undisturbed()
      ensures r == Verdict(old(pending), old(queue), tx, config.priceBump)
      ensures Now() == Inserting(old(Now()), tx, local, config.priceBump)
      ensures r.Rejected? ==> unchanged(priced)
      ensures r.Added? ==> Known(lookup, tx) && (tx in lookup.remotes <==> !local && tx.from !in locals)
      ensures r.Added? ==> lookup.slots <= old(lookup.slots) + tx.slots
      ensures !local ==> locals == old(locals)
      ensures r.Added? && !local ==> Priced(tx, tx.from in locals, r.replaced)
      ensures local || r.Rejected? ==> Tidy()
    {
      hide PoolOk, AllGapless, AllFunded, SwapOf, Localised, Inserted, Single, Entries, Heap.IsHeap;
      var isLocal := local || tx.from in locals;
      if tx.nonce in Items(pending, tx.from) {
        r := ReplacePending(tx, isLocal);
        return;
      }
      r := EnqueueTx(tx, isLocal);
      if r.Added? && local && tx.from !in locals {
        MarkLocal(tx.from);
      }
    }

    predicate Admits(tx: Tx, local: bool, wellFormed: bool)
      reads this
    {
      Validates(TermsNow(), tx, local || tx.from in locals, wellFormed)
    }

    /** What adding tx does to the capacity of the pool and to the entries of its price
        index: a remote one fits within the slots if the entries were single; they stay single
        if it had no entry left over, and where there was room exactly as `Priced` says. */
    twostate predicate CapacityKept(tx: Tx, local: bool, r: AddResult)
      reads this, priced
    {
      && (old(SingleEntries()) && r.Added? && !local && tx.from !in locals ==>
            lookup.slots <= config.globalSlots + config.globalQueue)
      && (old(SingleEntries())
          && (r.Added? && tx in lookup.remotes ==> old(Entries(priced.urgent, priced.floating, tx)) == 0) ==>
            SingleEntries())
      && (old(Missing(config, lookup, tx)) <= 0 && r.Added? && !local ==> Priced(tx, tx.from in locals, r.replaced))
    }

    /** add of a valid transaction. */
    method Admit(tx: Tx, local: bool) returns (r: AddResult, ghost drop: seq<Tx>)
      requires Valid() && !Known(lookup, tx) && !Unpayable(tx, state.balance(tx.from), maxGas)
      modifies this`pending, this`queue, this`lookup, this`nonces, this`locals, priced`urgent, priced`floating,
               priced`stales
      ensures Valid() && Undisturbed() && CheapestWent(old(lookup), old(PricesNow()), drop)
      ensures CapacityKept(tx, local, r)
      ensures var error := old(Refused(tx, local || tx.from in locals));
              if error.Some? then r == Rejected(error.value) && Now() == old(Now()) && drop == []
              else
                var room := WithoutAll(old(Now()), state.nonce, drop);
                && MakesRoom(config, old(lookup), tx, local || tx.from in old(locals), drop)
                && r == Verdict(room.pending, room.queue, tx, config.priceBump)
                && Now() == Inserting(room, tx, local, config.priceBump)
      ensures r.Added? ==> Known(lookup, tx) && (tx in lookup.remotes ==> !local && tx.from !in locals)
      ensures r.Rejected? ==> !Known(lookup, tx)
    {
      hide PoolOk, AllGapless, AllFunded, Inserting, Without, WithoutAll, Single, Entries, RoomError, Heap.IsHeap,
           Discards, DropsInOrder, Outranks, Under, MakesRoom, Tracks;
      ghost var s := Now();
      var error;
      error, drop := MakeRoom(tx, local || tx.from in locals);
      DiscardsSay(old(priced.urgent), old(priced.floating), priced.urgent, priced.floating, drop, priced.baseFee,
                  s.lookup.remotes, tx);
      if error.Some? {
        NothingOut(s, state.nonce);
        return Rejected(error.value), [];
      }
      NothingOut(s, state.nonce);
      RejectedSame(Now(), tx, local, config.priceBump);
      r := Insert(tx, local);
    }

    /** add: validates a transaction, makes room for it, and puts it in the place of a
        pending one with its nonce or else into the queue. */
    method Add(tx: Tx, local: bool, wellFormed: bool) returns (r: AddResult, ghost drop: seq<Tx>)
      requires Valid()
      modifies this`pending, this`queue, this`lookup, this`nonces, this`locals, priced`urgent, priced`floating,
               priced`stales
      ensures Valid() && Undisturbed() && CheapestWent(old(lookup), old(PricesNow()), drop)
      ensures CapacityKept(tx, local, r)
      ensures Answered(TermsNow(), old(Now()), old(PricesNow()), tx, local, wellFormed, r, drop, Now())
      ensures r == Rejected(AlreadyKnown) <==> old(Known(lookup, tx))
      ensures r == Rejected(InvalidTx) <==> !old(Known(lookup, tx)) && !old(Admits(tx, local, wellFormed))
      ensures !old(Known(lookup, tx)) && old(Admits(tx, local, wellFormed)) ==>
                var error := old(Refused(tx, local || tx.from in locals));
                if error.Some? then r == Rejected(error.value) else r.Rejected? ==> r.error == ReplaceUnderpriced
      ensures r.Rejected? ==> !Known(lookup, tx) || r.error == AlreadyKnown
      ensures r.Added? ==> Known(lookup, tx) && (InBook(pending, tx) || InBook(queue, tx))
      ensures r.Added? && tx in lookup.remotes ==> !local && tx.from !in locals
    {
      hide PoolOk, AllGapless, AllFunded, Answered, Inserting, Without, WithoutAll, Single, Entries, NoBetter,
           LiveSlots, Heap.IsHeap,
           DropsInOrder, Outranks, Under, MakesRoom, Tracks;
      ghost var s, p, t := Now(), PricesNow(), TermsNow();
      drop := [];
      NoDiscard(priced.urgent, priced.floating, priced.baseFee, lookup.remotes);
      DiscardsSay(priced.urgent, priced.floating, priced.urgent, priced.floating, [], priced.baseFee, lookup.remotes,
                  tx);
      if Known(lookup, tx) {
        AnsweredKnown(t, s, p, tx, local, wellFormed);
        return Rejected(AlreadyKnown), [];
      }
      if !Admits(tx, local, wellFormed) {
        AnsweredInvalid(t, s, p, tx, local, wellFormed);
        return Rejected(InvalidTx), [];
      }
      r, drop := Admit(tx, local);
      if old(Refused(tx, local || tx.from in locals)).Some? {
        AnsweredFull(t, s, p, tx, local, wellFormed, r.error);
      } else {
        AnsweredRoom(t, s, p, tx, local, wellFormed, r, drop, Now());
      }
      Accounts(pending, queue, lookup, tx);
    }

    /** SetGasPrice: a higher price drops every remote transaction with a lower tip. */
    method SetGasPrice(price: int)
      requires Valid()
      modifies this`gasPrice, this`pending, this`queue, this`lookup, this`nonces, priced`urgent, priced`floating,
               priced`stales
      ensures Valid() && Undisturbed() && Tidy() && gasPrice == price && lookup.locals == old(lookup.locals)
      ensures lookup.remotes == set tx | tx in old(lookup.remotes) && (price <= old(gasPrice) || tx.tipCap >= price)
    {
      hide PoolOk, AllGapless, AllFunded, Entries, WithoutAll, Single;
      var before := gasPrice;
      gasPrice := price;
      if price <= before {
        return;
      }
      ghost var remotes := lookup.remotes;
      var drop := ListAll(set tx | tx in lookup.remotes && tx.tipCap < price);
      ListedSet(drop, set tx | tx in lookup.remotes && tx.tipCap < price);
      LocalsApart(pending, queue, lookup);
      EvictAll(drop);
      Unprice(|drop|, remotes);
    }

    ghost predicate Settling()
      reads this
    {
      AllSettling(pending, nonces, state.nonce, state.balance, maxGas)
    }

    /** Nothing queued for the account could be promoted. */
    ghost predicate Exhausted(a: Address)
      reads this
    {
      NoneReady(queue, nonces, state.nonce, state.balance, maxGas, a)
    }

    /** promoteExecutables for one account: what is too old or unpayable goes, the run
        that continues pending is promoted, and the rest is capped. */
    method PromoteOne(a: Address) returns (promoted: seq<Tx>)
      requires Valid()
      modifies this`pending, this`queue, this`lookup, this`nonces, priced`urgent, priced`floating, priced`stales
      ensures Valid() && Undisturbed() && Tidy() && (old(Settling()) ==> Settling()) && Shrinks(old(lookup), lookup)
      ensures a !in old(queue) ==> Now() == old(Now()) && promoted == []
      ensures a in old(queue) ==>
        PromotedTo(old(pending), old(queue), old(nonces), state.nonce, state.balance(a), maxGas,
                   a in locals, config.accountQueue, a, pending, queue, nonces, promoted)
      ensures Gained(old(pending), pending, promoted) && Exhausted(a)
      ensures forall x :: x != a && old(Exhausted(x)) ==> Exhausted(x)
    {
      hide PromotedTo, PoolOk, AllGapless, AllSettling, AllFunded, NoneReady, Gained, Single, Heap.IsHeap;
      QueueFacts(pending, queue, lookup, a);
      if a !in queue {
        NothingQueued(pending, queue, nonces, state.nonce, state.balance, maxGas, a);
        return [];
      }
      ghost var before := lookup.remotes;
      var p, q, l, ns, gone;
      p, q, l, ns, promoted, gone :=
        PromoteAccount(pending, queue, lookup, nonces, state.nonce, state.balance(a), maxGas,
                       a in locals, config.accountQueue, config.priceBump, a);
      PromotedNonces(pending, queue, lookup, nonces, state.nonce, state.balance, maxGas, a in locals,
                     config.accountQueue, a,
                     p, q, ns, promoted);
      if Funded() {
        FundedPromotion(pending, queue, nonces, state.nonce, state.balance, maxGas, a in locals, config.accountQueue, a,
                        p, q, ns, promoted);
      }
      PromotionExhausts(pending, queue, nonces, state.nonce, state.balance, maxGas, a in locals, config.accountQueue, a,
                        p, q, ns, promoted);
      PromotionGains(pending, queue, nonces, state.nonce, state.balance(a), maxGas, a in locals, config.accountQueue, a,
                     p, q, ns, promoted);
      pending, queue, lookup, nonces := p, q, l, ns;
      Unprice(gone, before);
    }

    /** promoteExecutables: every listed account has its ready run pending and the rest of
        its queue queued, the other accounts are as before, pending gains the promoted
        transactions, and none of the accounts has a ready run left. */
    method PromoteExecutables(accounts: seq<Address>) returns (promoted: seq<Tx>)
      requires Valid()
      modifies this`pending, this`queue, this`lookup, this`nonces, priced`urgent, priced`floating, priced`stales
      ensures Valid() && Undisturbed() && Tidy() && (old(Settling()) ==> Settling())
      ensures PromotedStage(config, state, maxGas, Members(accounts), old(Now()), Now())
      ensures Gained(old(pending), pending, promoted) && forall a :: a in accounts || old(Exhausted(a)) ==> Exhausted(a)
    {
      hide PromotedTo, PromotedBut, PoolOk, AllGapless, AllSettling, AllFunded, NoneReady, Single, Heap.IsHeap;
      promoted := [];
      PromotedNone(pending, queue, nonces, state.nonce, state.balance, maxGas, locals, config.accountQueue);
      assert Members(accounts[..0]) == {};
      for i := 0 to |accounts|
        invariant Valid() && Undisturbed() && Tidy() && (old(Settling()) ==> Settling())
        invariant PromotedStage(config, state, maxGas, Members(accounts[..i]), old(Now()), Now())
        invariant Gained(old(pending), pending, promoted)
        invariant forall a :: a in accounts[..i] || old(Exhausted(a)) ==> Exhausted(a)
      {
        var a := accounts[i];
        ghost var s := Now();
        QueueFacts(old(pending), old(queue), old(lookup), a);
        QueueFacts(pending, queue, lookup, a);
        var more := PromoteOne(a);
        promoted := promoted + more;
        assert accounts[..i + 1] == accounts[..i] + [a];
        assert Members(accounts[..i + 1]) == Members(accounts[..i]) + {a};
        PromotedNext(config, state, maxGas, Members(accounts[..i]), old(Now()), s, a, Now(), more);
      }
      assert accounts[..|accounts|] == accounts;
    }

    /** Every pending list starts at the state nonce without a gap. */
    ghost predicate Based()
      reads this
    {
      AllBased(pending, nonces, state.nonce)
    }

    /** demoteUnexecutables for one account. */
    method DemoteOne(a: Address)
      requires Valid() && a in pending
      modifies this`pending, this`queue, this`lookup
      ensures Valid() && Tidy() && Shrinks(old(lookup), lookup)
      ensures DemotedTo(old(pending), old(queue), state.nonce(a), state.balance(a), maxGas, a, pending, queue)
      ensures forall x :: x != a ==> (x in pending <==> x in old(pending))
    {
      hide PoolOk, StillPending, Demoted, Entries, Heap.IsHeap;
      pending, queue, lookup :=
        DemoteAccount(pending, queue, lookup, state.nonce(a), state.balance(a), maxGas, config.priceBump, a);
    }

    /** demoteUnexecutables: afterwards all pending transactions are funded, and lists
        that were settling start at the state nonce without a gap. */
    method DemoteUnexecutables()
      requires Valid()
      modifies this`pending, this`queue, this`lookup
      ensures Valid() && Tidy() && Funded() && (old(Settling()) ==> Based())
      ensures DemotedStage(state, maxGas, old(Now()), Now())
    {
      hide Single, Heap.IsHeap, PoolOk, DemotedBut, Demoting, FundedBut, DemotedTo, AllSettling, AllBased, AllFunded;
      var todo := pending.Keys;
      FundingStarts(pending, state.balance, maxGas);
      DemotedNone(pending, queue, state.nonce, state.balance, maxGas);
      if Settling() {
        DemotionStarts(pending, nonces, state.nonce, state.balance, maxGas);
      }
      while todo != {}
        invariant Valid() && FundedBut(pending, state.balance, maxGas, todo) && todo <= pending.Keys
        invariant Tidy() && Shrinks(old(lookup), lookup)
        invariant old(Settling()) ==> Demoting(pending, nonces, state.nonce, state.balance, maxGas, todo)
        invariant DemotedBut(old(pending), old(queue), state.nonce, state.balance, maxGas, todo, pending, queue)
        decreases |todo|
      {
        var a :| a in todo;
        ghost var p, q := pending, queue;
        DemoteOne(a);
        FundingStep(p, q, state.nonce(a), state.balance, maxGas, todo, a, pending, queue);
        DemotedMore(old(pending), old(queue), state.nonce, state.balance, maxGas, todo, p, q, a, pending, queue);
        if old(Settling()) {
          DemotionStep(p, q, nonces, state.nonce, state.balance, maxGas, todo, a, pending, queue);
        }
        todo := todo - {a};
      }
      FundingEnds(pending, state.balance, maxGas);
      if old(Settling()) {
        DemotionEnds(pending, nonces, state.nonce, state.balance, maxGas);
      }
    }

    /** Nothing joined the lookup, and single entries are still single. */
    twostate predicate Thinned()
      reads this, priced
    {
      Shrinks(old(lookup), lookup) && Tidy()
    }

    /** Drops the last pending transaction of an account that has more than one. */
    method DropLast(a: Address)
      requires Valid() && a in pending && |pending[a]| >= 2
      modifies this`pending, this`lookup, this`nonces, priced`urgent, priced`floating, priced`stales
      ensures Valid() && Thinned() && pending == old(pending)[a := AllButLast(old(pending)[a])]
      ensures LastDropped(old(pending)[a], old(nonces), state.nonce, a, nonces)
      ensures forall x :: x != a ==> VirtualNonce(nonces, state.nonce, x) == VirtualNonce(old(nonces), state.nonce, x)
    {
      hide PoolOk, Lowest, Single, Heap.IsHeap;
      ghost var before := lookup.remotes;
      var keep := AllButLast(pending[a]);
      ListKept(pending, queue, lookup, a);
      var last := LastOf(pending[a]);
      assert last.nonce in pending[a];
      pending, lookup := TrimAccount(pending, queue, lookup, a, keep);
      nonces := SetIfLower(nonces, state.nonce, a, last.nonce);
      Unprice(1, before);
    }

    /** Drops the last transaction of each of some accounts. */
    method CapRound(accounts: seq<Address>, count: nat) returns (count': nat)
      requires Valid() && count == TotalLen(pending)
      requires AllDistinct(accounts)
      requires forall a :: a in accounts ==> a in pending && |pending[a]| >= 2
      modifies this`pending, this`lookup, this`nonces, priced`urgent, priced`floating, priced`stales
      ensures Valid() && Thinned() && pending == Lowered(old(pending), Members(accounts)) && count' == TotalLen(pending)
      ensures forall x :: x !in accounts ==>
                VirtualNonce(nonces, state.nonce, x) == VirtualNonce(old(nonces), state.nonce, x)
    {
      hide PoolOk, AllButLast, TotalLen, Lowered, VirtualNonce, LastDropped, Single, Heap.IsHeap;
      ghost var b, cut := pending, {};
      PendingKeyed(pending, queue, lookup);
      LoweredNone(b);
      count' := count;
      for i := 0 to |accounts|
        invariant Valid() && Thinned() && count' == TotalLen(pending)
        invariant cut == Members(accounts[..i]) && pending == Lowered(b, cut)
        invariant forall x :: x !in accounts ==>
                  VirtualNonce(nonces, state.nonce, x) == VirtualNonce(old(nonces), state.nonce, x)
      {
        var a := accounts[i];
        LoweredStep(b, cut, a);
        TotalUpdate(pending, a, AllButLast(pending[a]));
        DropLast(a);
        count', cut := count' - 1, cut + {a};
      }
      assert accounts[..|accounts|] == accounts;
    }

    /** Where truncation stands: the lists are cut to level c; accounts in `cut` reach
        the level and the others that are not local do not pass t; rounds were needed. */
    ghost predicate AtWater(b: Book, c: nat, cut: set<Address>, t: nat, count: nat)
      reads this, priced
    {
      && Valid() && BookOk(b) && pending == Levelled(b, locals, c) && count == TotalLen(pending)
      && (count > config.globalSlots ==> Parted(b, locals, cut, c, t))
      && (pending != b ==> TotalLen(Levelled(b, locals, c + 1)) > config.globalSlots)
    }

    /** One round over the accounts at the level. */
    method Round(accounts: seq<Address>, count: nat, ghost b: Book, ghost c: nat, ghost t: nat) returns (count': nat)
      requires AtWater(b, c, Members(accounts), t, count) && count > config.globalSlots && 1 <= t < c
      requires AllDistinct(accounts)
      modifies this`pending, this`lookup, this`nonces, priced`urgent, priced`floating, priced`stales
      ensures AtWater(b, c - 1, Members(accounts), t, count') && Thinned()
      ensures forall x :: x !in b ==> VirtualNonce(nonces, state.nonce, x) == VirtualNonce(old(nonces), state.nonce, x)
    {
      hide PoolOk, AllButLast, TotalLen, Lowered, Levelled, BookOk, Single, Heap.IsHeap;
      ghost var cut := Members(accounts);
      PartedRound(b, locals, cut, c, t);
      forall a | a in accounts ensures a in pending && |pending[a]| >= 2 && a in b {
        assert a in cut;
        CutLength(b, locals, cut, c, t, a);
      }
      count' := CapRound(accounts, count);
    }

    /** Rounds over some accounts until the limit or the floor is reached. */
    method CutDown(accounts: seq<Address>, floor: nat, count: nat, ghost b: Book, ghost c: nat)
      returns (count': nat, ghost c': nat)
      requires AtWater(b, c, Members(accounts), floor, count) && 1 <= floor <= c
      requires AllDistinct(accounts) && accounts != []
      modifies this`pending, this`lookup, this`nonces, priced`urgent, priced`floating, priced`stales
      ensures AtWater(b, c', Members(accounts), floor, count') && Thinned() && floor <= c' <= c
      ensures count' <= config.globalSlots || c' == floor
      ensures forall x :: x !in b ==> VirtualNonce(nonces, state.nonce, x) == VirtualNonce(old(nonces), state.nonce, x)
    {
      hide PoolOk, TotalLen, Levelled, BookOk, Valid, Parted, Single;
      ghost var cut := Members(accounts);
      count', c' := count, c;
      var last := accounts[|accounts| - 1];
      assert last in cut;
      while count' > config.globalSlots
        invariant AtWater(b, c', cut, floor, count') && Thinned() && floor <= c' <= c
        invariant forall x :: x !in b ==>
                  VirtualNonce(nonces, state.nonce, x) == VirtualNonce(old(nonces), state.nonce, x)
        decreases c'
      {
        CutLength(b, locals, cut, c', floor, last);
        if |pending[last]| <= floor {
          break;
        }
        count' := Round(accounts, count', b, c', floor);
        c' := c' - 1;
      }
    }

    /** The state between two offenders: those cut so far are at the level, and the rest
        of the accounts above the guaranteed slots is still to come. */
    ghost predicate Truncating(b: Book, c: nat, offenders: seq<Address>, spammers: set<Address>, count: nat)
      reads this, priced
    {
      && AtWater(b, c, Members(offenders), c, count) && c > config.accountSlots && AllDistinct(offenders)
      && Spam(b, locals, config.accountSlots, Members(offenders), spammers) && (offenders == [] ==> pending == b)
    }

    /** Takes the longest list still to come and cuts the earlier ones down to its length. */
    method NextOffender(offenders: seq<Address>, spammers: set<Address>, count: nat, ghost b: Book, ghost c: nat)
      returns (offenders': seq<Address>, spammers': set<Address>, count': nat, ghost c': nat)
      requires Truncating(b, c, offenders, spammers, count) && count > config.globalSlots && spammers != {}
      modifies this`pending, this`lookup, this`nonces, priced`urgent, priced`floating, priced`stales
      ensures Truncating(b, c', offenders', spammers', count') && Thinned() && spammers' < spammers && offenders' != []
      ensures forall x :: x !in b ==> VirtualNonce(nonces, state.nonce, x) == VirtualNonce(old(nonces), state.nonce, x)
    {
      hide PoolOk, TotalLen, Levelled, Parted, BookOk, Valid, VirtualNonce, Spam, Members, AllDistinct, Single;
      var offender, threshold := PickOffender(pending, offenders, spammers, b, locals, config.accountSlots, c);
      spammers', offenders' := spammers - {offender}, offenders + [offender];
      assert offenders'[..|offenders'| - 1] == offenders;
      if |offenders'| > 1 {
        count', c' := CutDown(offenders'[..|offenders'| - 1], threshold, count, b, c);
      } else {
        count', c' := count, threshold;
      }
    }

    /** truncatePending: while there are too many pending transactions, the longest lists
        of accounts that are not local are cut evenly from their ends. */
    method TruncatePending() returns (ghost level: nat)
      requires Valid()
      modifies this`pending, this`lookup, this`nonces, priced`urgent, priced`floating, priced`stales
      ensures Valid() && Thinned()
      ensures TruncatedTo(old(pending), pending, locals, config.accountSlots, config.globalSlots, level)
      ensures forall x :: x !in old(pending) ==>
                VirtualNonce(nonces, state.nonce, x) == VirtualNonce(old(nonces), state.nonce, x)
    {
      hide PoolOk, TotalLen, Levelled, Parted, BookOk, VirtualNonce, Single, Heap.IsHeap, Tracks, AllDistinct, Spam,
           Members;
      var slots, limit := config.accountSlots, config.globalSlots;
      ghost var b := pending;
      var count := CountAll(pending);
      level := slots + count + 1;
      LevelAbove(b, locals, level);
      if count <= limit {
        return;
      }
      PendingOk(pending, queue, lookup);
      var spammers := set a | a in pending && a !in locals && |pending[a]| > slots;
      var offenders: seq<Address> := [];
      SpamStarts(b, locals, slots);
      while count > limit && spammers != {}
        invariant Truncating(b, level, offenders, spammers, count) && Thinned()
        invariant forall x :: x !in b ==>
                  VirtualNonce(nonces, state.nonce, x) == VirtualNonce(old(nonces), state.nonce, x)
        decreases spammers
      {
        offenders, spammers, count, level := NextOffender(offenders, spammers, count, b, level);
      }
      if count > limit {
        SpamDone(b, locals, slots, Members(offenders), level);
        if |offenders| > 0 {
          count, level := CutDown(offenders, slots, count, b, level);
        } else {
          PartedUncut(b, locals, Members(offenders), level, slots);
          level := slots;
        }
      }
    }

    /** Removes queued transactions of one account. */
    method RemoveListed(a: Address, txs: seq<Tx>)
      requires Valid() && forall tx :: tx in txs ==> tx.from == a && InBook(queue, tx)
      requires forall i, j :: 0 <= i < j < |txs| ==> txs[i].nonce != txs[j].nonce
      modifies this`pending, this`queue, this`lookup, this`nonces, priced`urgent, priced`floating, priced`stales
      ensures Valid() && Thinned() && pending == old(pending) && nonces == old(nonces)
      ensures queue == WithItems(old(queue), a, Items(old(queue), a) - NoncesOf(txs))
    {
      hide PoolOk, NoncesOf, AllGapless, AllFunded, Without, Single, Heap.IsHeap;
      ghost var q := queue;
      QueueOk(pending, queue, lookup, a);
      assert Items(q, a) - NoncesOf(txs[..0]) == Items(q, a) by { NoNonces(txs); }
      for i := 0 to |txs|
        invariant Valid() && Thinned() && pending == old(pending) && nonces == old(nonces)
        invariant queue == WithItems(q, a, Items(q, a) - NoncesOf(txs[..i]))
      {
        StillListed(q, a, txs, i);
        OneLess(q, a, NoncesOf(txs[..i]), txs[i].nonce);
        NoncesGrow(txs, i);
        QueuedGone(pending, queue, lookup, nonces, locals, state.nonce, txs[i]);
        RemoveTx(txs[i], true);
      }
      assert txs[..|txs|] == txs;
    }

    /** Drops up to `drop` queued transactions of one account, highest nonces first. */
    method CutQueue(a: Address, drop: nat)
      requires Valid()
      modifies this`pending, this`queue, this`lookup, this`nonces, priced`urgent, priced`floating, priced`stales
      ensures Valid() && Thinned() && pending == old(pending) && nonces == old(nonces)
      ensures queue == CutOne(old(queue), a, drop)
    {
      hide PoolOk, NoncesOf, Lowest, WithItems, Single, Heap.IsHeap;
      QueueOk(pending, queue, lookup, a);
      var txs := Doomed(queue, a, drop);
      RemoveListed(a, txs);
    }

    /** truncateQueue: among the accounts that are not local, those with the latest
        heartbeat are cut first. */
    method TruncateQueue(beats: Address -> int) returns (ghost accounts: seq<Address>)
      requires Valid()
      modifies this`pending, this`queue, this`lookup, this`nonces, priced`urgent, priced`floating, priced`stales
      ensures Valid() && Thinned() && pending == old(pending) && nonces == old(nonces)
      ensures QueueCutTo(old(queue), queue, locals, accounts, beats, config.globalQueue)
      ensures QueueWithin(queue, locals, config.globalQueue)
      ensures forall a :: a in locals ==> Items(queue, a) == Items(old(queue), a)
    {
      hide PoolOk, TotalLen, CutOne, ByBeat, QueueCut, Items, QueueWithin, Single, Heap.IsHeap;
      var queued := CountAll(queue);
      var left := ListByBeat(queue.Keys - locals, beats);
      accounts := left;
      if queued <= config.globalQueue {
        QueueCutEnds(queue, left, 0);
        QueueFits(queue, locals, config.globalQueue);
        return;
      }
      var drop: nat := queued - config.globalQueue;
      ghost var q := queue;
      while drop > 0 && |left| > 0
        invariant Valid() && Thinned() && pending == old(pending) && nonces == old(nonces)
        invariant QueueCut(queue, left, drop) == QueueCut(q, accounts, Sub(TotalLen(q), config.globalQueue))
        decreases |left|
      {
        QueueCutStep(queue, left, drop);
        var a := left[|left| - 1];
        var size := |Items(queue, a)|;
        CutQueue(a, drop);
        left, drop := left[..|left| - 1], Sub(drop, size);
      }
      QueueCutEnds(queue, left, drop);
      QueueOk(old(pending), q, old(lookup), 0);
      QueueBound(q, accounts, locals, config.globalQueue);
    }

    /** The end of a run: the virtual nonce of every pending account becomes the nonce
        after its last transaction. */
    method SetNonces()
      requires Valid()
      modifies this`nonces
      ensures Valid() && Raising(pending, old(nonces), state.nonce, {}, nonces)
      ensures old(Based()) ==> Gapless()
    {
      hide PoolOk, AllBased, AllGapless, EndOf, Raising, VirtualNonce;
      NoneRaised(pending, nonces, state.nonce);
      PendingKeyed(pending, queue, lookup);
      var todo := pending.Keys;
      while todo != {}
        invariant Valid() && todo <= pending.Keys && Raising(pending, old(nonces), state.nonce, todo, nonces)
        decreases |todo|
      {
        var a :| a in todo;
        PendingNonEmpty(pending, queue, lookup, a);
        var last := LastOf(pending[a]);
        RaiseOne(pending, old(nonces), state.nonce, todo, nonces, a, last.nonce + 1);
        nonces := nonces[a := last.nonce + 1];
        todo := todo - {a};
      }
      if old(Based()) {
        NoncesSet(pending, old(nonces), state.nonce, nonces);
      }
    }

    /** addTxsLocked: every transaction gets its answer in turn, and the accounts of those
        that replaced none become dirty. */
    method AddTxsLocked(batch: seq<Submitted>, local: bool)
      returns (results: seq<AddResult>, dirty: set<Address>, ghost f: Refill)
      requires Valid()
      modifies this`pending, this`queue, this`lookup, this`nonces, this`locals, priced`urgent, priced`floating,
               priced`stales
      ensures Valid() && Undisturbed()
      ensures AddedAll(TermsNow(), batch, local, f) && f.results == results
      ensures f.trace[0] == old(Now()) && f.prices[0] == old(PricesNow())
      ensures f.trace[|batch|] == Now() && f.prices[|batch|] == PricesNow()
      ensures forall i :: 0 <= i < |batch| ==>
                Told(f.trace[i], batch[i].tx, local || batch[i].type30, results[i], f.trace[i + 1])
      ensures dirty == set i | 0 <= i < |batch| && results[i] == AddResult.Added(false) :: batch[i].tx.from
      ensures batch == [] ==> unchanged(priced)
    {
      hide PoolOk, AllGapless, AllFunded, AddedAll, Answered, Single, Heap.IsHeap, CheapestWent, NoBetter, LiveSlots,
           Tracks, Told;
      results, dirty, f := [], {}, Refill([], [], [Now()], [PricesNow()]);
      AddedNone(TermsNow(), batch, local, Now(), PricesNow());
      for i := 0 to |batch|
        invariant Valid() && Undisturbed() && |results| == i && |f.trace| == |f.prices| == i + 1
        invariant AddedAll(TermsNow(), batch[..i], local, f) && f.results == results
        invariant f.trace[0] == old(Now()) && f.prices[0] == old(PricesNow())
        invariant f.trace[i] == Now() && f.prices[i] == PricesNow()
        invariant dirty == set j | 0 <= j < i && results[j] == AddResult.Added(false) :: batch[j].tx.from
        invariant i == 0 ==> unchanged(priced)
      {
        var r, drop := Add(batch[i].tx, local || batch[i].type30, batch[i].wellFormed);
        AddedMore(TermsNow(), batch, local, f, i, r, drop, Now(), PricesNow());
        results, f := results + [r], Refilled(f, r, drop, Now(), PricesNow());
        if r == AddResult.Added(false) {
          dirty := dirty + {batch[i].tx.from};
        }
      }
      assert batch[..|batch|] == batch;
      AddedLength(TermsNow(), batch, local, f);
      forall i | 0 <= i < |batch|
        ensures Told(f.trace[i], batch[i].tx, local || batch[i].type30, results[i], f.trace[i + 1])
      {
        AddedTells(TermsNow(), batch, local, f, i);
      }
    }

    /** reset: adopts the state of the new head, forgets the virtual nonces, and takes
        back the transactions of abandoned blocks. A failed reset changes nothing. */
    method ResetTo(r: Reset) returns (results: seq<AddResult>, ghost f: Refill)
      requires Valid()
      modifies this`pending, this`queue, this`lookup, this`nonces, this`locals, this`state, this`maxGas,
               priced`urgent, priced`floating, priced`stales
      ensures Valid() && ResetFrom(config, gasPrice, old(Now()), old(PricesNow()), r, f, Now())
      ensures if r.head.Some? then state == r.head.value.state && maxGas == r.head.value.maxGas
              else state == old(state) && maxGas == old(maxGas)
      ensures |results| == if r.head.Some? then |r.reinject| else 0
      ensures r.head.None? || r.reinject == [] ==> unchanged(priced)
      ensures r.head.None? ==> Now() == old(Now())
      ensures r.head.Some? && r.reinject == [] ==> Now() == old(Now()).(nonces := map[])
      ensures old(Gapless()) && old(Funded()) && Forward(old(state), r) ==> Settling()
    {
      hide PoolOk, AllGapless, AllFunded, AllSettling, AddedAt, Single, Heap.IsHeap;
      f := Refill([], [], [], []);
      if r.head.None? {
        if Gapless() && Funded() {
          GaplessIsSettling(pending, nonces, state.nonce, state.balance, maxGas);
        }
        return [], f;
      }
      if Gapless() && Forward(state, r) {
        ForwardReset(pending, nonces, state.nonce, r.head.value.state.nonce, r.head.value.state.balance,
                     r.head.value.maxGas);
      }
      ghost var s := Now();
      state, nonces, maxGas := r.head.value.state, map[], r.head.value.maxGas;
      ghost var p := PricesNow();
      var dirty;
      results, dirty, f := AddTxsLocked(r.reinject, false);
      if r.reinject == [] {
        NothingBack(config, gasPrice, s, p, r, f, Now());
      }
    }

    /** The limits on pending and queued transactions are met as far as the guarantees allow. */
    ghost predicate WithinLimits()
      reads this
    {
      && (|| TotalLen(pending) <= config.globalSlots
          || forall a :: a in pending && a !in locals ==> |pending[a]| <= config.accountSlots)
      && QueueWithin(queue, locals, config.globalQueue)
    }

    /** Pending and queue are what truncation makes of those of a stage. */
    ghost predicate CutTo(mid: Stage, beats: Address -> int)
      reads this
    {
      && (exists level :: TruncatedTo(mid.pending, pending, locals, config.accountSlots, config.globalSlots, level))
      && (exists accounts :: QueueCutTo(mid.queue, queue, locals, accounts, beats, config.globalQueue))
      && Shrinks(mid.lookup, lookup) && locals == mid.locals
    }

    /** The first half of a run: an optional reset, then promotion of all queued accounts
        after a reset and of the dirty ones otherwise. */
    method ResetAndPromote(reset: Option<Reset>, dirty: seq<Address>)
      returns (promoted: seq<Tx>, ghost start: Stage, ghost f: Refill)
      requires Valid()
      modifies this`pending, this`queue, this`lookup, this`nonces, this`locals, this`state, this`maxGas,
               priced`urgent, priced`floating, priced`stales
      ensures Valid()
      ensures if reset.Some? then ResetFrom(config, gasPrice, old(Now()), old(PricesNow()), reset.value, f, start)
              else start == old(Now())
      ensures reset.Some? && reset.value.head.Some? && reset.value.reinject == [] ==>
                start == old(Now()).(nonces := map[])
      ensures StageOk(start)
      ensures PromotedStage(config, state, maxGas,
                            if reset.Some? then start.queue.Keys else Members(dirty), start, Now())
      ensures reset.Some? && reset.value.head.Some? ==>
                state == reset.value.head.value.state && maxGas == reset.value.head.value.maxGas
      ensures reset.None? || reset.value.head.None? ==> state == old(state) && maxGas == old(maxGas)
      ensures Gained(start.pending, pending, promoted)
      ensures reset.None? ==> Undisturbed()
      ensures Quiet(reset) ==> Tidy()
      ensures ReadyTaken(queue, nonces, state, maxGas, reset.Some?, dirty)
      ensures reset.Some? && old(Gapless()) && old(Funded()) && Forward(old(state), reset.value) ==> Settling()
    {
      hide PoolOk, AllGapless, AllFunded, AllSettling, NoneReady, Gained, ResetFrom, PromotedBut, Single, Heap.IsHeap;
      var accounts := dirty;
      f := Refill([], [], [], []);
      if reset.Some? {
        var results;
        results, f := ResetTo(reset.value);
        accounts := ListAccounts(queue.Keys);
        OnlyQueuedReady(queue, nonces, state.nonce, state.balance, maxGas);
        assert forall a :: a in accounts || Exhausted(a);
        assert Members(accounts) == queue.Keys;
      }
      start := Now();
      label before:
      promoted := PromoteExecutables(accounts);
      forall a | reset.Some? || a in dirty ensures NoneReady(queue, nonces, state.nonce, state.balance, maxGas, a) {
        assert a in accounts || old@before(Exhausted(a));
        assert Exhausted(a);
      }
    }

    /** runReorg: an optional reset, promotion, demotion after a reset, and truncation.
        `start` is the stage after the reset, `up` the one after promotion and `mid` the one
        before truncation, and each is tied to the one before. Afterwards the pool is within
        its limits; after a reset all pending transactions are funded; and gapless funded
        lists stay so if the reset goes forward. */
    method RunReorg(reset: Option<Reset>, dirty: seq<Address>, beats: Address -> int)
      returns (promoted: seq<Tx>, ghost start: Stage, ghost up: Stage, ghost mid: Stage, ghost f: Refill)
      requires Valid()
      modifies this`pending, this`queue, this`lookup, this`nonces, this`locals, this`state, this`maxGas, priced
      ensures Valid() && WithinLimits()
      ensures reset.Some? && reset.value.head.Some? ==>
                state == reset.value.head.value.state && maxGas == reset.value.head.value.maxGas
      ensures reset.None? || reset.value.head.None? ==> state == old(state) && maxGas == old(maxGas)
      ensures priced.baseFee ==
              if reset.Some? && reset.value.baseFee.Some? then reset.value.baseFee else old(priced.baseFee)
      ensures if reset.Some? then ResetFrom(config, gasPrice, old(Now()), old(PricesNow()), reset.value, f, start)
              else start == old(Now())
      ensures reset.Some? && reset.value.head.Some? && reset.value.reinject == [] ==>
                start == old(Now()).(nonces := map[])
      ensures PromotedStage(config, state, maxGas, if reset.Some? then start.queue.Keys else Members(dirty), start, up)
      ensures if reset.Some? then DemotedStage(state, maxGas, up, mid) else mid == up
      ensures CutTo(mid, beats) && StageOk(start) && StageOk(up) && StageOk(mid)
      ensures Gained(start.pending, up.pending, promoted)
      ensures ReadyTaken(up.queue, up.nonces, state, maxGas, reset.Some?, dirty)
      ensures Raising(pending, mid.nonces, state.nonce, {}, nonces)
      ensures reset.Some? || old(Funded()) ==> Funded()
      ensures old(Gapless()) && old(Funded()) && (reset.Some? ==> Forward(old(state), reset.value)) ==> Gapless()
      // Which accounts a reset leaves with a gap, whatever it takes back and drops for that.
      ensures Succeeds(reset) ==>
                forall a, lo, hi :: Interval(Items(old(pending), a), lo, hi) ==>
                  Gaps(pending, nonces, state, maxGas, start, mid, a, lo, Sunk(state.nonce, f, a))
      ensures Succeeds(reset) && old(Gapless()) ==>
                (AllBased(mid.pending, mid.nonces, state.nonce) <==>
                   forall a :: Unharmed(state, maxGas, start, f, a, old(state).nonce(a)))
      ensures Succeeds(reset) && old(Gapless())
              && (forall a :: Unharmed(state, maxGas, start, f, a, old(state).nonce(a))) ==>
                Gapless()
      // With room for all that comes back, this is known from the pool before.
      ensures Succeeds(reset)
              && old(lookup.slots) + BatchSlots(reset.value.reinject) <= config.globalSlots + config.globalQueue ==>
                && start == TopUp(TermsNow(), old(Now()).(nonces := map[]), reset.value.reinject, false)
                && forall a :: !Sunk(state.nonce, f, a)
      // A new base fee makes the entries of the price index single again.
      ensures (reset.Some? && reset.value.baseFee.Some?) || (Quiet(reset) && old(SingleEntries())) ==> SingleEntries()
    {
      hide PoolOk, AllGapless, AllFunded, AllSettling, AllBased, Gained, ReadyTaken, Forward, ResetFrom, PromotedStage,
           DemotedStage, Raising, Gaps, Single, Heap.IsHeap, Keeps, Sunk, Interval, Unharmed, TopUp, BatchSlots, Tracks,
           CutTo, WithinLimits;
      ghost var before, s, p := state, Now(), PricesNow();
      promoted, start, f := ResetAndPromote(reset, dirty);
      up := Now();
      ghost var ns;
      mid, ns := DemoteAndCut(reset, beats);
      if Succeeds(reset) {
        ResetGaps(config, gasPrice, before, s, p, reset.value, f, start, up, mid, pending, ns, nonces);
        ResetFits(config, gasPrice, s, p, reset.value, f, start);
      }
    }

    /** The second half of a run: demotion and the new base fee after a reset, truncation,
        and the virtual nonces; `ns` are those before the last step. */
    method DemoteAndCut(reset: Option<Reset>, beats: Address -> int)
      returns (ghost mid: Stage, ghost ns: map<Address, nat>)
      requires Valid()
      modifies this`pending, this`queue, this`lookup, this`nonces, priced
      ensures Valid() && WithinLimits() && CutTo(mid, beats) && StageOk(mid)
      ensures priced.baseFee ==
              if reset.Some? && reset.value.baseFee.Some? then reset.value.baseFee else old(priced.baseFee)
      ensures if reset.Some? then DemotedStage(state, maxGas, old(Now()), mid) else mid == old(Now())
      ensures Keeps(mid.pending, mid.nonces, state.nonce, pending, ns) && Raising(pending, ns, state.nonce, {}, nonces)
      ensures Raising(pending, mid.nonces, state.nonce, {}, nonces)
      ensures reset.Some? || old(Funded()) ==> Funded()
      ensures (if reset.Some? then old(Settling()) else old(Gapless())) ==> Gapless()
      ensures (reset.Some? && reset.value.baseFee.Some?) || old(SingleEntries()) ==> SingleEntries()
    {
      hide PoolOk, AllGapless, AllFunded, AllSettling, AllBased, DemotedStage, Raising, Single, Heap.IsHeap, Keeps,
           Tracks, TotalLen, TruncatedTo, QueueCutTo, QueueWithin;
      if reset.Some? {
        DemoteUnexecutables();
        if reset.value.baseFee.Some? {
          priced.SetBaseFee(reset.value.baseFee.value, lookup.remotes);
        }
      } else if Gapless() {
        GaplessIsBased(pending, nonces, state.nonce);
      }
      mid := Now();
      Truncate(beats);
      ns := nonces;
      SetNonces();
      RaisedFrom(mid.pending, mid.nonces, state.nonce, pending, ns, nonces);
    }

    /** Both truncations. */
    method Truncate(beats: Address -> int)
      requires Valid()
      modifies this`pending, this`queue, this`lookup, this`nonces, priced`urgent, priced`floating, priced`stales
      ensures Valid() && WithinLimits() && Tidy() && (old(Funded()) ==> Funded()) && (old(Based()) ==> Based())
      ensures CutTo(old(Now()), beats)
      ensures Keeps(old(pending), old(nonces), state.nonce, pending, nonces)
    {
      hide PoolOk, AllFunded, AllBased, TotalLen, Levelled, QueueCut, ByBeat, Single, Heap.IsHeap, Keeps;
      ghost var b, ns := pending, nonces;
      PendingOk(pending, queue, lookup);
      var level := TruncatePending();
      LevelBound(b, locals, config.accountSlots);
      if old(Funded()) {
        LevelledFunded(b, locals, level, state.balance, maxGas);
      }
      if old(Based()) {
        LevelledBased(b, locals, level, state.nonce, ns, nonces);
      }
      LevelledKeeps(b, locals, level, state.nonce, ns, nonces);
      var accounts := TruncateQueue(beats);
    }
  }

  /** There is a reset, and its head could be loaded. */
  predicate Succeeds(reset: Option<Reset>) {
    reset.Some? && reset.value.head.Some?
  }

  /** The run adds nothing to the price index: there is no reset, or it fails or takes no
      transactions back. */
  predicate Quiet(reset: Option<Reset>) {
    reset.Some? && reset.value.head.Some? ==> reset.value.reinject == []
  }

  lemma NoneRaised(pending: Book, nonces: map<Address, nat>, stateNonce: Address -> nat)
    ensures Raising(pending, nonces, stateNonce, pending.Keys, nonces)
  {
  }

  lemma OnlyQueuedReady(queue: Book, nonces: map<Address, nat>, stateNonce: Address -> nat, balance: Address -> int,
                        maxGas: nat)
    ensures forall a :: a !in queue ==> NoneReady(queue, nonces, stateNonce, balance, maxGas, a)
  {
  }

  lemma NothingQueued(pending: Book, queue: Book, nonces: map<Address, nat>, stateNonce: Address -> nat,
                      balance: Address -> int, maxGas: nat, a: Address)
    requires a !in queue
    ensures NoneReady(queue, nonces, stateNonce, balance, maxGas, a) && Gained(pending, pending, [])
  {
  }

  lemma PromotedNext(config: Config, state: ChainState, maxGas: nat, done: set<Address>, s0: Stage, s: Stage,
                     a: Address, s': Stage, promoted: seq<Tx>)
    requires PromotedStage(config, state, maxGas, done, s0, s) && Shrinks(s.lookup, s'.lookup) && s'.locals == s.locals
    requires a !in s.queue ==> s' == s
    requires a in s.queue ==>
      PromotedTo(s.pending, s.queue, s.nonces, state.nonce, state.balance(a), maxGas, a in s.locals,
                 config.accountQueue, a,
                 s'.pending, s'.queue, s'.nonces, promoted)
    requires Keyed(Items(s0.queue, a)) && Keyed(Items(s.queue, a))
    ensures PromotedStage(config, state, maxGas, done + {a}, s0, s')
  {
    hide PromotedBut, PromotedTo, Items, Keyed;
    if a in s.queue {
      PromotedMore(s0.pending, s0.queue, s0.nonces, state.nonce, state.balance, maxGas, s0.locals, config.accountQueue,
                   done,
                   s.pending, s.queue, s.nonces, a, s'.pending, s'.queue, s'.nonces, promoted);
    } else {
      PromotedIdle(s0.pending, s0.queue, s0.nonces, state.nonce, state.balance, maxGas, s0.locals, config.accountQueue,
                   done,
                   s.pending, s.queue, s.nonces, a);
    }
  }

  /** Removing a queued transaction touches nothing else. */
  lemma QueuedGone(pending: Book, queue: Book, l: Lookup, nonces: map<Address, nat>, locals: set<Address>,
                   stateNonce: Address -> nat, tx: Tx)
    requires PoolOk(pending, queue, l) && InBook(queue, tx)
    ensures var s := Without(Stage(pending, queue, l, nonces, locals), stateNonce, tx);
      && s.pending == pending && s.nonces == nonces
      && s.queue == WithItems(queue, tx.from, Items(queue, tx.from) - {tx.nonce})
  {
    NotTwice(pending, queue, l, tx);
    Accounts(pending, queue, l, tx);
  }

  lemma Accounts(pending: Book, queue: Book, l: Lookup, tx: Tx)
    requires PoolOk(pending, queue, l)
    ensures Known(l, tx) <==> InBook(pending, tx) || InBook(queue, tx)
  {
  }

  /** Replacing a pending transaction keeps the nonces gapless. */
  lemma SameNonces(pending: Book, nonces: map<Address, nat>, stateNonce: Address -> nat, tx: Tx)
    requires tx.nonce in Items(pending, tx.from)
    ensures AllGapless(pending, nonces, stateNonce) ==>
      AllGapless(WithItems(pending, tx.from, Items(pending, tx.from)[tx.nonce := tx]), nonces, stateNonce)
  {
    var p := WithItems(pending, tx.from, Items(pending, tx.from)[tx.nonce := tx]);
    if AllGapless(pending, nonces, stateNonce) {
      forall x ensures GaplessAt(p, nonces, stateNonce, x) {
        assert GaplessAt(pending, nonces, stateNonce, x);
      }
    }
  }

  lemma FundedReplacement(pending: Book, balance: Address -> int, maxGas: nat, tx: Tx)
    requires !Unpayable(tx, balance(tx.from), maxGas)
    ensures AllFunded(pending, balance, maxGas) ==>
      AllFunded(WithItems(pending, tx.from, Items(pending, tx.from)[tx.nonce := tx]), balance, maxGas)
  {
    if AllFunded(pending, balance, maxGas) {
      assert FundedAt(pending, balance, maxGas, tx.from);
      FundedChange(pending, balance, maxGas, tx.from, Items(pending, tx.from)[tx.nonce := tx]);
    }
  }

  lemma FundedRemoval(pending: Book, queue: Book, balance: Address -> int, maxGas: nat, tx: Tx, pending': Book)
    requires pending' == pending || pending' == WithItems(pending, tx.from, Before(Items(pending, tx.from), tx.nonce))
    ensures AllFunded(pending, balance, maxGas) ==> AllFunded(pending', balance, maxGas)
  {
    if AllFunded(pending, balance, maxGas) {
      FundedPart(pending, balance, maxGas, tx.from, Before(Items(pending, tx.from), tx.nonce));
    }
  }

  lemma NotTwice(pending: Book, queue: Book, l: Lookup, tx: Tx)
    requires PoolOk(pending, queue, l)
    ensures !(InBook(pending, tx) && InBook(queue, tx))
  {
    AccountView(pending, queue, l, tx.from);
  }

  lemma ListedSet(s: seq<Tx>, all: set<Tx>)
    requires multiset(s) == multiset(all)
    ensures (set t | t in s) == all
  {
    forall t ensures t in s <==> t in all {
      assert t in s <==> t in multiset(s);
    }
  }

  lemma LocalsApart(pending: Book, queue: Book, l: Lookup)
    requires PoolOk(pending, queue, l)
    ensures l.locals !! l.remotes
  {
  }

  /** Dropping transactions listed once frees the sum of their slots. */
  lemma DropFrees(l: Lookup, l': Lookup, drop: seq<Tx>)
    requires LookupOk(l) && LookupOk(l') && l'.locals == l.locals - (set t | t in drop)
    requires l'.remotes == l.remotes - (set t | t in drop)
    requires (forall t :: t in drop ==> t in l.remotes) && forall t :: multiset(drop)[t] <= 1
    ensures l'.slots == l.slots - SlotSum(drop)
  {
    SlotsFreed(l.locals + l.remotes, drop);
    assert l'.locals + l'.remotes == l.locals + l.remotes - (set t | t in drop);
  }

  lemma {:induction false} SlotsFreed(s: set<Tx>, drop: seq<Tx>)
    requires (forall t :: t in drop ==> t in s) && forall t :: multiset(drop)[t] <= 1
    ensures SlotsOf(s - (set t | t in drop)) == SlotsOf(s) - SlotSum(drop)
  {
    if drop == [] {
      assert s - (set t | t in drop) == s;
    } else {
      var init, last := drop[..|drop| - 1], drop[|drop| - 1];
      assert drop == init + [last];
      assert forall t :: multiset(init)[t] <= multiset(drop)[t];
      assert multiset(drop)[last] == multiset(init)[last] + 1;
      SlotsFreed(s, init);
      var left := s - (set t | t in init);
      assert last in left;
      SlotsWithout(left, last);
      assert left - {last} == s - (set t | t in drop);
    }
  }

  lemma OneMoreLocal(l: Lookup, locals: set<Address>, a: Address)
    requires forall tx :: tx in l.remotes ==> tx.from !in locals
    ensures Localised(l, locals + {a}).remotes == set tx | tx in l.remotes && tx.from != a
    ensures Localised(l, locals + {a}).slots == l.slots
  {
  }

  /** Moving transactions between locals and remotes does not change what is pooled. */
  lemma SameKnown(pending: Book, queue: Book, l: Lookup, l': Lookup)
    requires PoolOk(pending, queue, l) && LookupOk(l') && l'.locals + l'.remotes == l.locals + l.remotes
    ensures PoolOk(pending, queue, l')
  {
    forall tx ensures Known(l', tx) <==> InBook(pending, tx) || InBook(queue, tx) {
      assert Known(l', tx) <==> tx in l'.locals + l'.remotes;
      assert Known(l, tx) <==> tx in l.locals + l.remotes;
    }
  }
}
