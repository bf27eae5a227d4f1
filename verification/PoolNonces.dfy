/** The nonces of pending transactions (core/tx_pool.go, core/tx_noncer.go): through
    promotion, demotion and truncation each account's pending nonces stay the interval
    from the state nonce to the virtual nonce.
 */
module PoolNonces {
  import opened Transactions
  import opened TxSortedMaps
  import opened TxLists
  import opened PoolContent
  import Heap

  lemma {:induction false} IntervalSize(m: map<nat, Tx>, lo: nat, hi: nat)
    requires Interval(m, lo, hi)
    ensures |m| == hi - lo
    decreases hi - lo
  {
    if lo < hi {
      var rest := m - {lo};
      assert rest.Keys == m.Keys - {lo};
      IntervalSize(rest, lo + 1, hi);
    } else {
      assert m == map[];
    }
  }

  /** The nonce after the last of a list. */
  ghost function EndOf(m: map<nat, Tx>): nat
    requires Keyed(m) && |m| > 0
  {
    Flat(m)[|m| - 1].nonce + 1
  }

  /** What a promoted run is to a list whose executable part ends at h. */
  ghost predicate Continues(run: map<nat, Tx>, h: nat, start: nat) {
    Keyed(run) && (|run| > 0 ==> start == h && Interval(run, h, EndOf(run)))
  }

  /** A run taken from nonces at or above h is empty or starts at h and has no gap. */
  lemma RunIsInterval(ready: map<nat, Tx>, h: nat, start: nat)
    requires Keyed(ready) && start <= h && forall n :: n in ready ==> n >= h
    ensures Continues(Run(ready, start), h, start) && SubMap(Run(ready, start), ready)
  {
    var run := Run(ready, start);
    if |run| > 0 {
      var last := Flat(run)[|run| - 1].nonce;
      FlatNonces(run, |run| - 1);
      assert h in ready && Gapless(ready, last);
      forall n ensures n in run <==> h <= n <= last {
        if n in run {
          InOrder(run, |run| - 1, PlaceOf(run, n));
        }
        if h <= n <= last {
          assert n in ready && Gapless(ready, n);
        }
      }
    }
  }

  /** The part of a pending list at or above the state nonce n is gapless, and the
      virtual nonce is either n or the end of that part, which then is all payable.
      This holds between a reset and the end of the run that follows it. */
  ghost predicate Settling(pm: map<nat, Tx>, n: nat, virtualNonce: nat, balance: int, maxGas: nat) {
    var m := From(pm, n);
    && Interval(m, n, n + |m|)
    && (virtualNonce == n || (virtualNonce == n + |m| && forall k :: k in m ==> !Unpayable(m[k], balance, maxGas)))
  }

  /** A forward reset sends gapless lists into settling. */
  lemma ResetSettles(pm: map<nat, Tx>, lo: nat, hi: nat, n: nat, balance: int, maxGas: nat)
    requires Interval(pm, lo, hi) && lo <= n
    ensures Settling(pm, n, n, balance, maxGas)
  {
    IntervalSize(From(pm, n), n, if hi > n then hi else n);
  }

  /** The run promoted from a queue continues the executable part of pending. */
  lemma RunContinues(pm: map<nat, Tx>, qm: map<nat, Tx>, n: nat, h: nat, virtualNonce: nat, balance: int, maxGas: nat)
    requires Interval(From(pm, n), n, h) && virtualNonce <= h && pm.Keys !! qm.Keys && Keyed(qm)
    ensures var run := ReadyRun(qm, n, virtualNonce, balance, maxGas);
      Continues(run, h, virtualNonce) && forall k :: k in run ==> !Unpayable(run[k], balance, maxGas)
  {
    var ready := Executable(qm, n, balance, maxGas);
    forall k | k in ready ensures k >= h {
      assert k !in From(pm, n);
    }
    RunIsInterval(ready, h, virtualNonce);
  }

  /** Promotion keeps a list settling. */
  lemma RunSettles(pm: map<nat, Tx>, n: nat, virtualNonce: nat, balance: int, maxGas: nat, run: map<nat, Tx>)
    requires Settling(pm, n, virtualNonce, balance, maxGas) && Continues(run, n + |From(pm, n)|, virtualNonce)
    requires forall k :: k in run ==> !Unpayable(run[k], balance, maxGas)
    ensures Settling(pm + run, n, if |run| > 0 then EndOf(run) else virtualNonce, balance, maxGas)
  {
    if |run| > 0 {
      var m := From(pm + run, n);
      assert forall k :: k in m <==> k in From(pm, n) || k in run;
      IntervalSize(m, n, EndOf(run));
    } else {
      assert pm + run == pm;
    }
  }

  /** Outside a reset, promotion keeps a gapless list gapless. */
  lemma RunExtends(pm: map<nat, Tx>, n: nat, virtualNonce: nat, run: map<nat, Tx>)
    requires Interval(pm, n, virtualNonce) && Continues(run, virtualNonce, virtualNonce)
    ensures Interval(pm + run, n, if |run| > 0 then EndOf(run) else virtualNonce)
  {
    if |run| == 0 {
      assert pm + run == pm;
    }
  }

  /** Demotion leaves a settling list gapless from the state nonce, and an empty one
      with the state nonce as virtual nonce. */
  lemma DemotionSettled(pm: map<nat, Tx>, n: nat, virtualNonce: nat, balance: int, maxGas: nat)
    requires Settling(pm, n, virtualNonce, balance, maxGas)
    ensures var pm' := StillPending(pm, n, balance, maxGas);
      && Interval(pm', n, n + |pm'|) && (pm' == map[] ==> virtualNonce == n)
  {
    var m := From(pm, n);
    var cut := FilterLeavesPrefix(m, n, n + |m|, balance, maxGas);
    IntervalSize(Payable(true, m, balance, maxGas), n, cut);
  }

  /** Every account is settling: the state between a reset and the end of its run. */
  ghost predicate AllSettling(pending: Book, nonces: map<Address, nat>, stateNonce: Address -> nat,
                              balance: Address -> int, maxGas: nat)
  {
    forall a :: SettlingAt(pending, nonces, stateNonce, balance, maxGas, a)
  }

  ghost predicate SettlingAt(pending: Book, nonces: map<Address, nat>, stateNonce: Address -> nat,
                             balance: Address -> int, maxGas: nat, a: Address)
  {
    Settling(Items(pending, a), stateNonce(a), VirtualNonce(nonces, stateNonce, a), balance(a), maxGas)
  }

  /** The pool-wide effect of promoting a run of one account. */
  ghost predicate Promotes(pending: Book, nonces: map<Address, nat>, stateNonce: Address -> nat, a: Address,
                           run: map<nat, Tx>,
                           pending': Book, nonces': map<Address, nat>) {
    && Keyed(run) && pending' == WithItems(pending, a, Items(pending, a) + run)
    && VirtualNonce(nonces', stateNonce, a) == (if |run| > 0 then EndOf(run) else VirtualNonce(nonces, stateNonce, a))
    && forall x :: x != a ==> VirtualNonce(nonces', stateNonce, x) == VirtualNonce(nonces, stateNonce, x)
  }

  /** Promoting a run that continues pending keeps all accounts gapless. */
  lemma GaplessPromotion(pending: Book, nonces: map<Address, nat>, stateNonce: Address -> nat, a: Address,
                         run: map<nat, Tx>,
                         pending': Book, nonces': map<Address, nat>)
    requires AllGapless(pending, nonces, stateNonce) && Promotes(pending, nonces, stateNonce, a, run, pending', nonces')
    requires var v := VirtualNonce(nonces, stateNonce, a); Continues(run, v, v)
    ensures AllGapless(pending', nonces', stateNonce)
  {
    assert GaplessAt(pending, nonces, stateNonce, a);
    RunExtends(Items(pending, a), stateNonce(a), VirtualNonce(nonces, stateNonce, a), run);
    forall x ensures GaplessAt(pending', nonces', stateNonce, x) {
      assert GaplessAt(pending, nonces, stateNonce, x);
    }
  }

  /** Promoting a payable run that continues the executable part of pending keeps all
      accounts settling. */
  lemma SettlingPromotion(pending: Book, nonces: map<Address, nat>, stateNonce: Address -> nat,
                          balance: Address -> int, maxGas: nat,
                          a: Address, run: map<nat, Tx>, pending': Book, nonces': map<Address, nat>)
    requires AllSettling(pending, nonces, stateNonce, balance, maxGas)
    requires Promotes(pending, nonces, stateNonce, a, run, pending', nonces')
    requires Continues(run, stateNonce(a) + |From(Items(pending, a), stateNonce(a))|,
                       VirtualNonce(nonces, stateNonce, a))
    requires forall k :: k in run ==> !Unpayable(run[k], balance(a), maxGas)
    ensures AllSettling(pending', nonces', stateNonce, balance, maxGas)
  {
    hide Settling, Continues, WithItems;
    assert SettlingAt(pending, nonces, stateNonce, balance, maxGas, a);
    RunSettles(Items(pending, a), stateNonce(a), VirtualNonce(nonces, stateNonce, a), balance(a), maxGas, run);
    forall x ensures SettlingAt(pending', nonces', stateNonce, balance, maxGas, x) {
      assert SettlingAt(pending, nonces, stateNonce, balance, maxGas, x);
    }
  }

  /** The run promoteExecutables takes does continue pending. */
  lemma PromotionNonces(pending: Book, qm: map<nat, Tx>, nonces: map<Address, nat>, stateNonce: Address -> nat,
                        balance: Address -> int, maxGas: nat, a: Address, run: map<nat, Tx>,
                        pending': Book, nonces': map<Address, nat>)
    requires Items(pending, a).Keys !! qm.Keys && Keyed(qm)
    requires run == ReadyRun(qm, stateNonce(a), VirtualNonce(nonces, stateNonce, a), balance(a), maxGas)
    requires Promotes(pending, nonces, stateNonce, a, run, pending', nonces')
    ensures AllGapless(pending, nonces, stateNonce) ==> AllGapless(pending', nonces', stateNonce)
    ensures AllSettling(pending, nonces, stateNonce, balance, maxGas) ==>
              AllSettling(pending', nonces', stateNonce, balance, maxGas)
  {
    hide ReadyRun, Promotes, Continues, Run, Executable;
    var pm, n, v := Items(pending, a), stateNonce(a), VirtualNonce(nonces, stateNonce, a);
    if AllGapless(pending, nonces, stateNonce) {
      assert GaplessAt(pending, nonces, stateNonce, a);
      assert From(pm, n) == pm;
      RunContinues(pm, qm, n, v, v, balance(a), maxGas);
      GaplessPromotion(pending, nonces, stateNonce, a, run, pending', nonces');
    }
    if AllSettling(pending, nonces, stateNonce, balance, maxGas) {
      assert SettlingAt(pending, nonces, stateNonce, balance, maxGas, a);
      RunContinues(pm, qm, n, n + |From(pm, n)|, v, balance(a), maxGas);
      SettlingPromotion(pending, nonces, stateNonce, balance, maxGas, a, run, pending', nonces');
    }
  }

  lemma QueueFacts(pending: Book, queue: Book, l: Lookup, a: Address)
    requires PoolOk(pending, queue, l)
    ensures Items(pending, a).Keys !! Items(queue, a).Keys && Keyed(Items(queue, a)) && OwnedBy(Items(queue, a), a)
  {
    AccountView(pending, queue, l, a);
  }

  lemma ReadyRunKeyed(qm: map<nat, Tx>, stateNonce: nat, virtualNonce: nat, balance: int, maxGas: nat)
    requires Keyed(qm)
    ensures Keyed(ReadyRun(qm, stateNonce, virtualNonce, balance, maxGas))
  {
  }

  lemma PromotesGiven(pending: Book, nonces: map<Address, nat>, stateNonce: Address -> nat, a: Address,
                      run: map<nat, Tx>,
                      pending': Book, nonces': map<Address, nat>, promoted: seq<Tx>)
    requires Keyed(run) && promoted == Flat(run) && pending' == WithItems(pending, a, Items(pending, a) + run)
    requires nonces' == PromotedNonce(nonces, stateNonce, a, promoted)
    ensures Promotes(pending, nonces, stateNonce, a, run, pending', nonces')
  {
    hide WithItems, Flat, Items;
  }

  lemma PromotesRun(pending: Book, queue: Book, nonces: map<Address, nat>, stateNonce: Address -> nat,
                    balance: int, maxGas: nat, local: bool, accountQueue: nat, a: Address,
                    pending': Book, queue': Book, nonces': map<Address, nat>, promoted: seq<Tx>)
    requires PromotedTo(pending, queue, nonces, stateNonce, balance, maxGas, local, accountQueue, a, pending', queue',
                        nonces', promoted)
    requires Keyed(Items(queue, a))
    ensures Promotes(pending, nonces, stateNonce, a,
                     ReadyRun(Items(queue, a), stateNonce(a), VirtualNonce(nonces, stateNonce, a), balance,
                              maxGas), pending', nonces')
  {
    hide ReadyRun, QueueLeft, WithItems, Flat, Promotes, PromotedNonce, VirtualNonce, Items, Keyed;
    var run := ReadyRun(Items(queue, a), stateNonce(a), VirtualNonce(nonces, stateNonce, a), balance, maxGas);
    ReadyRunKeyed(Items(queue, a), stateNonce(a), VirtualNonce(nonces, stateNonce, a), balance, maxGas);
    PromotesGiven(pending, nonces, stateNonce, a, run, pending', nonces', promoted);
  }

  /** Promotion of one account with what it means for the nonces of all. */
  lemma PromotedNonces(pending: Book, queue: Book, l: Lookup, nonces: map<Address, nat>, stateNonce: Address -> nat,
                       balance: Address -> int, maxGas: nat, local: bool, accountQueue: nat, a: Address,
                       pending': Book, queue': Book, nonces': map<Address, nat>, promoted: seq<Tx>)
    requires PoolOk(pending, queue, l) && a in queue
    requires PromotedTo(pending, queue, nonces, stateNonce, balance(a), maxGas, local, accountQueue, a, pending',
                        queue', nonces', promoted)
    ensures AllGapless(pending, nonces, stateNonce) ==> AllGapless(pending', nonces', stateNonce)
    ensures AllSettling(pending, nonces, stateNonce, balance, maxGas) ==>
              AllSettling(pending', nonces', stateNonce, balance, maxGas)
  {
    hide *;
    QueueFacts(pending, queue, l, a);
    PromotesRun(pending, queue, nonces, stateNonce, balance(a), maxGas, local, accountQueue, a, pending', queue',
                nonces', promoted);
    PromotionNonces(pending, Items(queue, a), nonces, stateNonce, balance, maxGas, a,
                    ReadyRun(Items(queue, a), stateNonce(a), VirtualNonce(nonces, stateNonce, a), balance(a),
                             maxGas), pending', nonces');
  }

  /** Every transaction of the list is within the balance and the gas limit. */
  ghost predicate Affordable(m: map<nat, Tx>, balance: int, maxGas: nat) {
    forall n :: n in m ==> !Unpayable(m[n], balance, maxGas)
  }

  ghost predicate FundedAt(pending: Book, balance: Address -> int, maxGas: nat, a: Address) {
    Affordable(Items(pending, a), balance(a), maxGas)
  }

  ghost predicate AllFunded(pending: Book, balance: Address -> int, maxGas: nat) {
    forall a :: FundedAt(pending, balance, maxGas, a)
  }

  /** Changing one list to an affordable one keeps all funded. */
  lemma FundedChange(pending: Book, balance: Address -> int, maxGas: nat, a: Address, m: map<nat, Tx>)
    requires AllFunded(pending, balance, maxGas) && Affordable(m, balance(a), maxGas)
    ensures AllFunded(WithItems(pending, a, m), balance, maxGas)
  {
    forall x ensures FundedAt(WithItems(pending, a, m), balance, maxGas, x) {
      assert FundedAt(pending, balance, maxGas, x);
    }
  }

  /** Taking transactions away keeps all funded. */
  lemma FundedPart(pending: Book, balance: Address -> int, maxGas: nat, a: Address, m: map<nat, Tx>)
    requires AllFunded(pending, balance, maxGas) && SubMap(m, Items(pending, a))
    ensures AllFunded(WithItems(pending, a, m), balance, maxGas)
  {
    assert FundedAt(pending, balance, maxGas, a);
    FundedChange(pending, balance, maxGas, a, m);
  }

  /** Promotion adds only affordable transactions. */
  lemma FundedPromotion(pending: Book, queue: Book, nonces: map<Address, nat>, stateNonce: Address -> nat,
                        balance: Address -> int, maxGas: nat, local: bool, accountQueue: nat, a: Address,
                        pending': Book, queue': Book, nonces': map<Address, nat>, promoted: seq<Tx>)
    requires PromotedTo(pending, queue, nonces, stateNonce, balance(a), maxGas, local, accountQueue, a, pending',
                        queue', nonces', promoted)
    requires AllFunded(pending, balance, maxGas)
    ensures AllFunded(pending', balance, maxGas)
  {
    hide QueueLeft, WithItems, ReadyRun, Flat, PromotedNonce, VirtualNonce;
    assert FundedAt(pending, balance, maxGas, a);
    var n, v := stateNonce(a), VirtualNonce(nonces, stateNonce, a);
    RunAffordable(Items(queue, a), n, v, balance(a), maxGas);
    FundedChange(pending, balance, maxGas, a, Items(pending, a) + ReadyRun(Items(queue, a), n, v, balance(a), maxGas));
  }

  lemma RunAffordable(qm: map<nat, Tx>, n: nat, virtualNonce: nat, balance: int, maxGas: nat)
    ensures Affordable(ReadyRun(qm, n, virtualNonce, balance, maxGas), balance, maxGas)
  {
  }

  /** A pending list starts at the state nonce and has no gap; without pending
      transactions the virtual nonce is the state nonce. */
  ghost predicate BasedAt(pending: Book, nonces: map<Address, nat>, stateNonce: Address -> nat, a: Address) {
    var pm, n := Items(pending, a), stateNonce(a);
    Interval(pm, n, n + |pm|) && (pm == map[] ==> VirtualNonce(nonces, stateNonce, a) == n)
  }

  ghost predicate AllBased(pending: Book, nonces: map<Address, nat>, stateNonce: Address -> nat) {
    forall a :: BasedAt(pending, nonces, stateNonce, a)
  }

  lemma GaplessIsBased(pending: Book, nonces: map<Address, nat>, stateNonce: Address -> nat)
    requires AllGapless(pending, nonces, stateNonce)
    ensures AllBased(pending, nonces, stateNonce)
  {
    forall a ensures BasedAt(pending, nonces, stateNonce, a) {
      assert GaplessAt(pending, nonces, stateNonce, a);
      IntervalSize(Items(pending, a), stateNonce(a), VirtualNonce(nonces, stateNonce, a));
    }
  }

  /** With funds unchanged, gapless lists are settling ones. */
  lemma GaplessIsSettling(pending: Book, nonces: map<Address, nat>, stateNonce: Address -> nat,
                          balance: Address -> int, maxGas: nat)
    requires AllGapless(pending, nonces, stateNonce) && AllFunded(pending, balance, maxGas)
    ensures AllSettling(pending, nonces, stateNonce, balance, maxGas)
  {
    forall a ensures SettlingAt(pending, nonces, stateNonce, balance, maxGas, a) {
      assert GaplessAt(pending, nonces, stateNonce, a) && FundedAt(pending, balance, maxGas, a);
      IntervalSize(Items(pending, a), stateNonce(a), VirtualNonce(nonces, stateNonce, a));
      assert From(Items(pending, a), stateNonce(a)) == Items(pending, a);
    }
  }

  /** A forward reset clears the virtual nonces and lets every account settle. */
  lemma ForwardReset(pending: Book, nonces: map<Address, nat>, before: Address -> nat, stateNonce: Address -> nat,
                     balance: Address -> int, maxGas: nat)
    requires AllGapless(pending, nonces, before) && forall a :: before(a) <= stateNonce(a)
    ensures AllSettling(pending, map[], stateNonce, balance, maxGas)
  {
    forall a ensures SettlingAt(pending, map[], stateNonce, balance, maxGas, a) {
      assert GaplessAt(pending, nonces, before, a);
      ResetSettles(Items(pending, a), before(a), VirtualNonce(nonces, before, a), stateNonce(a), balance(a), maxGas);
    }
  }

  /** Part way through demotion: accounts still to do are settling, the others based. */
  ghost predicate Demoting(pending: Book, nonces: map<Address, nat>, stateNonce: Address -> nat,
                           balance: Address -> int, maxGas: nat, todo: set<Address>)
  {
    forall a :: DemotingAt(pending, nonces, stateNonce, balance, maxGas, todo, a)
  }

  ghost predicate DemotingAt(pending: Book, nonces: map<Address, nat>, stateNonce: Address -> nat,
                             balance: Address -> int, maxGas: nat, todo: set<Address>, a: Address)
  {
    if a in todo then SettlingAt(pending, nonces, stateNonce, balance, maxGas, a)
    else BasedAt(pending, nonces, stateNonce, a)
  }

  lemma DemotionStarts(pending: Book, nonces: map<Address, nat>, stateNonce: Address -> nat, balance: Address -> int,
                       maxGas: nat)
    requires AllSettling(pending, nonces, stateNonce, balance, maxGas)
    ensures Demoting(pending, nonces, stateNonce, balance, maxGas, pending.Keys)
  {
    forall a ensures DemotingAt(pending, nonces, stateNonce, balance, maxGas, pending.Keys, a) {
      assert SettlingAt(pending, nonces, stateNonce, balance, maxGas, a);
      if a !in pending {
        assert From(map[], stateNonce(a)) == map[];
      }
    }
  }

  lemma DemotionStep(pending: Book, queue: Book, nonces: map<Address, nat>, stateNonce: Address -> nat,
                     balance: Address -> int, maxGas: nat,
                     todo: set<Address>, a: Address, pending': Book, queue': Book)
    requires a in todo && Demoting(pending, nonces, stateNonce, balance, maxGas, todo)
    requires DemotedTo(pending, queue, stateNonce(a), balance(a), maxGas, a, pending', queue')
    ensures Demoting(pending', nonces, stateNonce, balance, maxGas, todo - {a})
  {
    hide Demoted, StillPending, WithItems, SettlingAt, BasedAt;
    assert DemotingAt(pending, nonces, stateNonce, balance, maxGas, todo, a);
    BasedByDemotion(pending, nonces, stateNonce, balance, maxGas, a, pending');
    forall x ensures DemotingAt(pending', nonces, stateNonce, balance, maxGas, todo - {a}, x) {
      if x != a {
        assert DemotingAt(pending, nonces, stateNonce, balance, maxGas, todo, x);
        SameStanding(pending, nonces, stateNonce, balance, maxGas, x, pending');
      }
    }
  }

  lemma BasedByDemotion(pending: Book, nonces: map<Address, nat>, stateNonce: Address -> nat, balance: Address -> int,
                        maxGas: nat,
                        a: Address, pending': Book)
    requires SettlingAt(pending, nonces, stateNonce, balance, maxGas, a)
    requires Items(pending', a) == StillPending(Items(pending, a), stateNonce(a), balance(a), maxGas)
    ensures BasedAt(pending', nonces, stateNonce, a)
  {
    DemotionSettled(Items(pending, a), stateNonce(a), VirtualNonce(nonces, stateNonce, a), balance(a), maxGas);
  }

  lemma SameStanding(pending: Book, nonces: map<Address, nat>, stateNonce: Address -> nat, balance: Address -> int,
                     maxGas: nat,
                     a: Address, pending': Book)
    requires Items(pending', a) == Items(pending, a)
    ensures SettlingAt(pending, nonces, stateNonce, balance, maxGas, a) ==>
              SettlingAt(pending', nonces, stateNonce, balance, maxGas, a)
    ensures BasedAt(pending, nonces, stateNonce, a) ==> BasedAt(pending', nonces, stateNonce, a)
  {
  }

  lemma DemotionEnds(pending: Book, nonces: map<Address, nat>, stateNonce: Address -> nat, balance: Address -> int,
                     maxGas: nat)
    requires Demoting(pending, nonces, stateNonce, balance, maxGas, {})
    ensures AllBased(pending, nonces, stateNonce)
  {
    forall a ensures BasedAt(pending, nonces, stateNonce, a) {
      assert DemotingAt(pending, nonces, stateNonce, balance, maxGas, {}, a);
    }
  }

  /** Part way through demotion: the accounts done are funded. */
  ghost predicate FundedBut(pending: Book, balance: Address -> int, maxGas: nat, todo: set<Address>) {
    forall a :: a in todo || FundedAt(pending, balance, maxGas, a)
  }

  lemma FundingStarts(pending: Book, balance: Address -> int, maxGas: nat)
    ensures FundedBut(pending, balance, maxGas, pending.Keys)
  {
  }

  lemma FundingEnds(pending: Book, balance: Address -> int, maxGas: nat)
    requires FundedBut(pending, balance, maxGas, {})
    ensures AllFunded(pending, balance, maxGas)
  {
  }

  lemma FundingStep(pending: Book, queue: Book, stateNonce: nat, balance: Address -> int, maxGas: nat,
                    todo: set<Address>, a: Address, pending': Book, queue': Book)
    requires FundedBut(pending, balance, maxGas, todo)
    requires DemotedTo(pending, queue, stateNonce, balance(a), maxGas, a, pending', queue')
    ensures FundedBut(pending', balance, maxGas, todo - {a})
  {
    hide Demoted, StillPending, WithItems;
    PendingAffordable(Items(pending, a), stateNonce, balance(a), maxGas);
    forall x ensures x in todo - {a} || FundedAt(pending', balance, maxGas, x) {
      assert x in todo || FundedAt(pending, balance, maxGas, x);
    }
  }

  lemma PendingAffordable(pm: map<nat, Tx>, n: nat, balance: int, maxGas: nat)
    ensures Affordable(StillPending(pm, n, balance, maxGas), balance, maxGas)
  {
  }

  lemma EndOfInterval(m: map<nat, Tx>, n: nat)
    requires Keyed(m) && |m| > 0 && Interval(m, n, n + |m|)
    ensures EndOf(m) == n + |m|
  {
    FlatNonces(m, |m| - 1);
    var top: nat := n + |m| - 1;
    InOrder(m, |m| - 1, PlaceOf(m, top));
  }

  /** Part way through raising the virtual nonces: the accounts done are at the end of
      their lists, those without pending transactions are untouched. */
  ghost predicate Raising(pending: Book, nonces: map<Address, nat>, stateNonce: Address -> nat, todo: set<Address>,
                          nonces': map<Address, nat>)
  {
    && (forall a :: a in pending && a !in todo ==> a in nonces' && RaisedTo(pending[a], nonces'[a]))
    && (forall a :: a !in pending ==> VirtualNonce(nonces', stateNonce, a) == VirtualNonce(nonces, stateNonce, a))
  }

  ghost predicate RaisedTo(m: map<nat, Tx>, n: nat) {
    Keyed(m) && |m| > 0 && n == EndOf(m)
  }

  lemma RaiseOne(pending: Book, nonces: map<Address, nat>, stateNonce: Address -> nat, todo: set<Address>,
                 nonces': map<Address, nat>, a: Address, n: nat)
    requires Raising(pending, nonces, stateNonce, todo, nonces') && a in pending && RaisedTo(pending[a], n)
    ensures Raising(pending, nonces, stateNonce, todo - {a}, nonces'[a := n])
  {
    hide RaisedTo;
  }

  /** Raising the virtual nonce of every pending account to the end of its list closes the run. */
  lemma NoncesSet(pending: Book, nonces: map<Address, nat>, stateNonce: Address -> nat, nonces': map<Address, nat>)
    requires AllBased(pending, nonces, stateNonce) && Raising(pending, nonces, stateNonce, {}, nonces')
    ensures AllGapless(pending, nonces', stateNonce)
  {
    hide EndOf, VirtualNonce;
    forall a ensures GaplessAt(pending, nonces', stateNonce, a) {
      assert BasedAt(pending, nonces, stateNonce, a);
      if a in pending {
        RaisedVirtual(nonces', stateNonce, a);
        EndOfInterval(pending[a], stateNonce(a));
      }
    }
  }

  lemma RaisedVirtual(nonces: map<Address, nat>, stateNonce: Address -> nat, a: Address)
    requires a in nonces
    ensures VirtualNonce(nonces, stateNonce, a) == nonces[a]
  {
  }

  lemma GaplessNext(m: map<nat, Tx>, last: nat, n: nat)
    requires Gapless(m, last) && n in m
    ensures n <= last + 1 ==> Gapless(m, n)
  {
  }

  /** After the ready run is taken every nonce left is beyond the next one. */
  lemma RunExhausts(m: map<nat, Tx>, start: nat, n: nat)
    requires Keyed(m) && n in m && n !in Run(m, start)
    ensures var run := Run(m, start); n > if |run| > 0 then EndOf(run) else start
  {
    var run := Run(m, start);
    if |run| > 0 {
      var last := Flat(run)[|run| - 1].nonce;
      FlatNonces(run, |run| - 1);
      GaplessNext(m, last, n);
    } else {
      var k := Least(m.Keys);
      assert Gapless(m, k);
      assert n <= start ==> k in run;
    }
  }

  /** Account a has nothing queued that could be promoted. */
  ghost predicate NoneReady(queue: Book, nonces: map<Address, nat>, stateNonce: Address -> nat,
                            balance: Address -> int, maxGas: nat, a: Address)
  {
    ReadyRun(Items(queue, a), stateNonce(a), VirtualNonce(nonces, stateNonce, a), balance(a), maxGas) == map[]
  }

  /** What is left of a queue has no ready run. */
  lemma LeftNotReady(qm: map<nat, Tx>, n: nat, v: nat, balance: int, maxGas: nat, local: bool, accountQueue: nat)
    requires Keyed(qm)
    ensures var run := ReadyRun(qm, n, v, balance, maxGas);
      ReadyRun(QueueLeft(qm, n, v, balance, maxGas, local, accountQueue), n,
               if |run| > 0 then EndOf(run) else v, balance, maxGas) == map[]
  {
    var ready := Executable(qm, n, balance, maxGas);
    var run := Run(ready, v);
    var left := QueueLeft(qm, n, v, balance, maxGas, local, accountQueue);
    forall k | k in Executable(left, n, balance, maxGas) ensures k > if |run| > 0 then EndOf(run) else v {
      assert k in left && k in ready && k !in run;
      RunExhausts(ready, v, k);
    }
  }

  /** Promotion leaves the account without a ready run. */
  lemma PromotionExhausts(pending: Book, queue: Book, nonces: map<Address, nat>, stateNonce: Address -> nat,
                          balance: Address -> int, maxGas: nat, local: bool, accountQueue: nat, a: Address,
                          pending': Book, queue': Book, nonces': map<Address, nat>, promoted: seq<Tx>)
    requires PromotedTo(pending, queue, nonces, stateNonce, balance(a), maxGas, local, accountQueue, a, pending',
                        queue', nonces', promoted)
    requires Keyed(Items(queue, a))
    ensures NoneReady(queue', nonces', stateNonce, balance, maxGas, a)
    ensures forall x :: x != a && NoneReady(queue, nonces, stateNonce, balance, maxGas, x) ==>
              NoneReady(queue', nonces', stateNonce, balance, maxGas, x)
  {
    hide ReadyRun, QueueLeft, WithItems, Flat, PromotedNonce, VirtualNonce, EndOf, Items;
    var n, v := stateNonce(a), VirtualNonce(nonces, stateNonce, a);
    PromotesRun(pending, queue, nonces, stateNonce, balance(a), maxGas, local, accountQueue, a, pending', queue',
                nonces', promoted);
    LeftNotReady(Items(queue, a), n, v, balance(a), maxGas, local, accountQueue);
  }

  /** Pending gained exactly the promoted transactions, none of which it had. */
  ghost predicate Gained(pending: Book, pending': Book, promoted: seq<Tx>) {
    && (forall tx :: InBook(pending', tx) <==> InBook(pending, tx) || tx in promoted)
    && (forall tx :: tx in promoted ==> !InBook(pending, tx))
  }

  lemma PromotionGains(pending: Book, queue: Book, nonces: map<Address, nat>, stateNonce: Address -> nat,
                       balance: int, maxGas: nat, local: bool, accountQueue: nat, a: Address,
                       pending': Book, queue': Book, nonces': map<Address, nat>, promoted: seq<Tx>)
    requires PromotedTo(pending, queue, nonces, stateNonce, balance, maxGas, local, accountQueue, a, pending', queue',
                        nonces', promoted)
    requires Items(pending, a).Keys !! Items(queue, a).Keys && OwnedBy(Items(queue, a), a)
    ensures Gained(pending, pending', promoted)
  {
    hide QueueLeft, WithItems, PromotedNonce, Flat, VirtualNonce;
    var run := ReadyRun(Items(queue, a), stateNonce(a), VirtualNonce(nonces, stateNonce, a), balance, maxGas);
    ReadyRunPart(Items(queue, a), stateNonce(a), VirtualNonce(nonces, stateNonce, a), balance, maxGas);
    RunGained(pending, a, run, pending');
  }

  lemma ReadyRunPart(qm: map<nat, Tx>, n: nat, v: nat, balance: int, maxGas: nat)
    ensures SubMap(ReadyRun(qm, n, v, balance, maxGas), qm)
  {
  }

  lemma RunGained(pending: Book, a: Address, run: map<nat, Tx>, pending': Book)
    requires OwnedBy(run, a) && Items(pending, a).Keys !! run.Keys
    requires pending' == WithItems(pending, a, Items(pending, a) + run)
    ensures Gained(pending, pending', Flat(run))
  {
    forall tx
      ensures InBook(pending', tx) <==> InBook(pending, tx) || tx in Flat(run)
      ensures tx in Flat(run) ==> !InBook(pending, tx)
    {
      assert tx in Flat(run) <==> Holds(run, tx);
    }
  }

  /** Part way through promotion, exactly: the accounts done hold what promotion gives
      them, the others are as before. */
  ghost predicate PromotedBut(pending: Book, queue: Book, nonces: map<Address, nat>, stateNonce: Address -> nat,
                              balance: Address -> int, maxGas: nat, locals: set<Address>, accountQueue: nat,
                              done: set<Address>, pending': Book, queue': Book, nonces': map<Address, nat>) {
    forall a :: PromotedAt(pending, queue, nonces, stateNonce, balance, maxGas, locals, accountQueue, done, pending',
                           queue', nonces', a)
  }

  ghost predicate PromotedAt(pending: Book, queue: Book, nonces: map<Address, nat>, stateNonce: Address -> nat,
                             balance: Address -> int, maxGas: nat, locals: set<Address>, accountQueue: nat,
                             done: set<Address>, pending': Book, queue': Book, nonces': map<Address, nat>, a: Address) {
    PromotedList(Items(pending, a), Items(queue, a), stateNonce(a), VirtualNonce(nonces, stateNonce, a), balance(a),
                 maxGas,
                 a in locals, accountQueue, a in done,
                 Items(pending', a), Items(queue', a), VirtualNonce(nonces', stateNonce, a))
  }

  /** An account done has the ready run pending, the rest of its queue queued and the
      virtual nonce after the run; one not done has kept all three. */
  ghost predicate PromotedList(pm: map<nat, Tx>, qm: map<nat, Tx>, n: nat, v: nat, balance: int, maxGas: nat,
                               local: bool, accountQueue: nat, done: bool,
                               pm': map<nat, Tx>, qm': map<nat, Tx>, v': nat)
  {
    if done then
      var run := ReadyRun(qm, n, v, balance, maxGas);
      && Keyed(run) && pm' == pm + run && qm' == QueueLeft(qm, n, v, balance, maxGas, local, accountQueue)
      && v' == if |run| > 0 then EndOf(run) else v
    else pm' == pm && qm' == qm && v' == v
  }

  /** Promoting twice is promoting once. */
  lemma PromotedTwice(pm: map<nat, Tx>, qm: map<nat, Tx>, n: nat, v: nat, balance: int, maxGas: nat,
                      local: bool, accountQueue: nat, done: bool, pm1: map<nat, Tx>, qm1: map<nat, Tx>, v1: nat,
                      pm2: map<nat, Tx>, qm2: map<nat, Tx>, v2: nat)
    requires Keyed(qm) && PromotedList(pm, qm, n, v, balance, maxGas, local, accountQueue, done, pm1, qm1, v1)
    requires PromotedList(pm1, qm1, n, v1, balance, maxGas, local, accountQueue, true, pm2, qm2, v2)
    ensures PromotedList(pm, qm, n, v, balance, maxGas, local, accountQueue, true, pm2, qm2, v2)
  {
    hide ReadyRun, QueueLeft, EndOf;
    if done {
      LeftNotReady(qm, n, v, balance, maxGas, local, accountQueue);
      LeftStays(qm, n, v, balance, maxGas, local, accountQueue, v1);
      assert pm1 + map[] == pm1;
    }
  }

  lemma PromotedNone(pending: Book, queue: Book, nonces: map<Address, nat>, stateNonce: Address -> nat,
                     balance: Address -> int, maxGas: nat, locals: set<Address>, accountQueue: nat)
    ensures PromotedBut(pending, queue, nonces, stateNonce, balance, maxGas, locals, accountQueue, {}, pending, queue,
                        nonces)
  {
    hide QueueLeft, ReadyRun, VirtualNonce, Items;
  }

  /** What promotion left queued it would leave again. */
  lemma LeftStays(qm: map<nat, Tx>, n: nat, v: nat, balance: int, maxGas: nat, local: bool, accountQueue: nat, v': nat)
    requires Keyed(qm)
    requires ReadyRun(QueueLeft(qm, n, v, balance, maxGas, local, accountQueue), n, v', balance, maxGas) == map[]
    ensures var left := QueueLeft(qm, n, v, balance, maxGas, local, accountQueue);
      QueueLeft(left, n, v', balance, maxGas, local, accountQueue) == left
  {
    var ready := Executable(qm, n, balance, maxGas);
    var left := QueueLeft(qm, n, v, balance, maxGas, local, accountQueue);
    assert Executable(left, n, balance, maxGas) == left;
    var none: map<nat, Tx> := map[];
    assert left - none.Keys == left;
    if !local {
      SmallLeft(ready - Run(ready, v).Keys, accountQueue);
    }
  }

  lemma SmallLeft(m: map<nat, Tx>, k: nat)
    ensures Lowest(Lowest(m, k), k) == Lowest(m, k)
  {
    var low := Lowest(m, k);
    forall x | x in low ensures |Below(low, x)| < k {
      Heap.SubsetSize(Below(low, x), Below(m, x));
    }
  }

  /** One more account promoted; one that was promoted already does not change. */
  lemma PromotedMore(pending: Book, queue: Book, nonces: map<Address, nat>, stateNonce: Address -> nat,
                     balance: Address -> int, maxGas: nat, locals: set<Address>, accountQueue: nat, done: set<Address>,
                     p: Book, q: Book, ns: map<Address, nat>, a: Address,
                     p': Book, q': Book, ns': map<Address, nat>, promoted: seq<Tx>)
    requires PromotedBut(pending, queue, nonces, stateNonce, balance, maxGas, locals, accountQueue, done, p, q, ns)
    requires PromotedTo(p, q, ns, stateNonce, balance(a), maxGas, a in locals, accountQueue, a, p', q', ns', promoted)
    requires Keyed(Items(queue, a)) && Keyed(Items(q, a))
    ensures PromotedBut(pending, queue, nonces, stateNonce, balance, maxGas, locals, accountQueue, done + {a}, p', q',
                        ns')
  {
    hide PromotedTo, Promotes, PromotedAt;
    PromotesRun(p, q, ns, stateNonce, balance(a), maxGas, a in locals, accountQueue, a, p', q', ns', promoted);
    QueueTo(p, q, ns, stateNonce, balance(a), maxGas, a in locals, accountQueue, a, p', q', ns', promoted);
    forall x
      ensures PromotedAt(pending, queue, nonces, stateNonce, balance, maxGas, locals, accountQueue, done + {a},
                         p', q', ns', x)
    {
      assert PromotedAt(pending, queue, nonces, stateNonce, balance, maxGas, locals, accountQueue, done, p, q, ns, x);
      if x == a {
        PromotedHere(pending, queue, nonces, stateNonce, balance, maxGas, locals, accountQueue, done, p, q, ns, a, p',
                     q', ns');
      } else {
        PromotedElsewhere(pending, queue, nonces, stateNonce, balance, maxGas, locals, accountQueue, done,
                          p, q, ns, a, p', q', ns', x);
      }
    }
  }

  lemma QueueTo(p: Book, q: Book, ns: map<Address, nat>, stateNonce: Address -> nat,
                balance: int, maxGas: nat, local: bool, accountQueue: nat, a: Address,
                p': Book, q': Book, ns': map<Address, nat>, promoted: seq<Tx>)
    requires PromotedTo(p, q, ns, stateNonce, balance, maxGas, local, accountQueue, a, p', q', ns', promoted)
    ensures q' == WithItems(q, a,
                            QueueLeft(Items(q, a), stateNonce(a), VirtualNonce(ns, stateNonce, a), balance, maxGas,
                                      local, accountQueue))
  {
    hide ReadyRun, QueueLeft, WithItems, Flat, PromotedNonce, VirtualNonce, Items;
  }

  lemma PromotedHere(pending: Book, queue: Book, nonces: map<Address, nat>, stateNonce: Address -> nat,
                     balance: Address -> int, maxGas: nat, locals: set<Address>, accountQueue: nat, done: set<Address>,
                     p: Book, q: Book, ns: map<Address, nat>, a: Address, p': Book, q': Book, ns': map<Address, nat>)
    requires PromotedAt(pending, queue, nonces, stateNonce, balance, maxGas, locals, accountQueue, done, p, q, ns, a)
    requires Keyed(Items(queue, a)) && Keyed(Items(q, a))
    requires Promotes(p, ns, stateNonce, a,
                      ReadyRun(Items(q, a), stateNonce(a), VirtualNonce(ns, stateNonce, a), balance(a),
                               maxGas), p', ns')
    requires q' == WithItems(q, a,
                             QueueLeft(Items(q, a), stateNonce(a), VirtualNonce(ns, stateNonce, a), balance(a), maxGas,
                                       a in locals, accountQueue))
    ensures PromotedAt(pending, queue, nonces, stateNonce, balance, maxGas, locals, accountQueue, done + {a}, p', q',
                       ns', a)
  {
    hide ReadyRun, QueueLeft, WithItems, VirtualNonce, EndOf, Items;
    var n, v, v' := stateNonce(a), VirtualNonce(nonces, stateNonce, a), VirtualNonce(ns, stateNonce, a);
    PromotedTwice(Items(pending, a), Items(queue, a), n, v, balance(a), maxGas, a in locals, accountQueue, a in done,
                  Items(p, a), Items(q, a), v', Items(p', a), Items(q', a), VirtualNonce(ns', stateNonce, a));
  }

  lemma PromotedElsewhere(pending: Book, queue: Book, nonces: map<Address, nat>, stateNonce: Address -> nat,
                          balance: Address -> int, maxGas: nat, locals: set<Address>, accountQueue: nat,
                          done: set<Address>,
                          p: Book, q: Book, ns: map<Address, nat>, a: Address,
                          p': Book, q': Book, ns': map<Address, nat>, x: Address)
    requires PromotedAt(pending, queue, nonces, stateNonce, balance, maxGas, locals, accountQueue, done, p, q, ns, x)
    requires x != a
    requires Promotes(p, ns, stateNonce, a,
                      ReadyRun(Items(q, a), stateNonce(a), VirtualNonce(ns, stateNonce, a), balance(a),
                               maxGas), p', ns')
    requires q' == WithItems(q, a,
                             QueueLeft(Items(q, a), stateNonce(a), VirtualNonce(ns, stateNonce, a), balance(a), maxGas,
                                       a in locals, accountQueue))
    ensures PromotedAt(pending, queue, nonces, stateNonce, balance, maxGas, locals, accountQueue, done + {a}, p', q',
                       ns', x)
  {
    hide ReadyRun, QueueLeft, WithItems, VirtualNonce, EndOf, Items, PromotedList;
  }

  /** An account without queued transactions is promoted by doing nothing. */
  lemma PromotedIdle(pending: Book, queue: Book, nonces: map<Address, nat>, stateNonce: Address -> nat,
                     balance: Address -> int, maxGas: nat, locals: set<Address>, accountQueue: nat, done: set<Address>,
                     p: Book, q: Book, ns: map<Address, nat>, a: Address)
    requires PromotedBut(pending, queue, nonces, stateNonce, balance, maxGas, locals, accountQueue, done, p, q, ns)
    requires a !in q && Keyed(Items(queue, a))
    ensures PromotedBut(pending, queue, nonces, stateNonce, balance, maxGas, locals, accountQueue, done + {a}, p, q, ns)
  {
    hide VirtualNonce, PromotedList;
    forall x
      ensures PromotedAt(pending, queue, nonces, stateNonce, balance, maxGas, locals, accountQueue, done + {a},
                         p, q, ns, x)
    {
      assert PromotedAt(pending, queue, nonces, stateNonce, balance, maxGas, locals, accountQueue, done, p, q, ns, x);
      if x == a {
        var n, v, v' := stateNonce(a), VirtualNonce(nonces, stateNonce, a), VirtualNonce(ns, stateNonce, a);
        EmptyQueue(Items(p, a), n, v', balance(a), maxGas, a in locals, accountQueue);
        PromotedTwice(Items(pending, a), Items(queue, a), n, v, balance(a), maxGas, a in locals, accountQueue,
                      a in done,
                      Items(p, a), Items(q, a), v', Items(p, a), Items(q, a), v');
      }
    }
  }

  lemma EmptyQueue(pm: map<nat, Tx>, n: nat, v: nat, balance: int, maxGas: nat, local: bool, accountQueue: nat)
    ensures PromotedList(pm, map[], n, v, balance, maxGas, local, accountQueue, true, pm, map[], v)
  {
    assert ReadyRun(map[], n, v, balance, maxGas) == map[];
    assert QueueLeft(map[], n, v, balance, maxGas, local, accountQueue) == map[];
    assert pm + map[] == pm;
  }

  /** Part way through demotion, exactly: accounts still to do are as before, the
      others hold what demotion keeps and queues. */
  ghost predicate DemotedBut(pending: Book, queue: Book, stateNonce: Address -> nat, balance: Address -> int,
                             maxGas: nat,
                             todo: set<Address>, pending': Book, queue': Book) {
    forall a :: DemotedButAt(pending, queue, stateNonce, balance, maxGas, todo, pending', queue', a)
  }

  ghost predicate DemotedButAt(pending: Book, queue: Book, stateNonce: Address -> nat, balance: Address -> int,
                               maxGas: nat,
                               todo: set<Address>, pending': Book, queue': Book, a: Address) {
    && Items(pending', a) == (if a in todo then Items(pending, a)
                              else StillPending(Items(pending, a), stateNonce(a), balance(a), maxGas))
    && Items(queue', a) == (if a in todo then Items(queue, a)
                            else Items(queue, a) + Demoted(Items(pending, a), stateNonce(a), balance(a), maxGas))
  }

  lemma DemotedNone(pending: Book, queue: Book, stateNonce: Address -> nat, balance: Address -> int, maxGas: nat)
    ensures DemotedBut(pending, queue, stateNonce, balance, maxGas, pending.Keys, pending, queue)
  {
    forall a ensures DemotedButAt(pending, queue, stateNonce, balance, maxGas, pending.Keys, pending, queue, a) {
      if a !in pending {
        assert StillPending(map[], stateNonce(a), balance(a), maxGas) == map[];
        assert Demoted(map[], stateNonce(a), balance(a), maxGas) == map[];
        assert Items(queue, a) + map[] == Items(queue, a);
      }
    }
  }

  lemma DemotedMore(pending: Book, queue: Book, stateNonce: Address -> nat, balance: Address -> int, maxGas: nat,
                    todo: set<Address>, p: Book, q: Book, a: Address, p': Book, q': Book)
    requires a in todo && DemotedBut(pending, queue, stateNonce, balance, maxGas, todo, p, q)
    requires DemotedTo(p, q, stateNonce(a), balance(a), maxGas, a, p', q')
    ensures DemotedBut(pending, queue, stateNonce, balance, maxGas, todo - {a}, p', q')
  {
    hide StillPending, Demoted, WithItems;
    forall x ensures DemotedButAt(pending, queue, stateNonce, balance, maxGas, todo - {a}, p', q', x) {
      assert DemotedButAt(pending, queue, stateNonce, balance, maxGas, todo, p, q, a);
      assert DemotedButAt(pending, queue, stateNonce, balance, maxGas, todo, p, q, x);
    }
  }
}
