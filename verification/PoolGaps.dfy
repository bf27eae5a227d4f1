/** Which accounts a reset of the transaction pool (core/tx_pool.go) leaves with a gap
    among their pending nonces.
 */
module PoolGaps {
  import opened Transactions
  import opened TxSortedMaps
  import opened TxLists
  import opened PoolContent
  import opened PoolNonces
  import opened PoolTruncate
  import opened PoolStages
  import opened PoolReinjects
  import Heap

  /** A reset to state nonce n leaves no gap in a list that started at lo: n is not below
      lo, or the list is empty or cut off at its start for lack of funds, or nothing queued
      is executable at n, or what is queued closes the whole distance. */
  ghost predicate GapFree(pm: map<nat, Tx>, qm: map<nat, Tx>, lo: nat, n: nat, balance: int, maxGas: nat) {
    var ready := Executable(qm, n, balance, maxGas);
    n >= lo || lo !in pm || Unpayable(pm[lo], balance, maxGas) || n !in ready || forall k :: n <= k < lo ==> k in ready
  }

  /** The list is an interval from n, and if it is empty the virtual nonce is n. */
  ghost predicate Based(pm: map<nat, Tx>, n: nat, v: nat) {
    Interval(pm, n, n + |pm|) && (pm == map[] ==> v == n)
  }

  /** The virtual nonce after a run was promoted from n on. */
  ghost function After(run: map<nat, Tx>, n: nat): nat
    requires Keyed(run)
  {
    if |run| > 0 then EndOf(run) else n
  }

  /** A run from n on starts at n if anything does, and goes on as long as it can. */
  lemma RunFrom(ready: map<nat, Tx>, n: nat, lo: nat)
    requires Keyed(ready) && forall k :: k in ready ==> k >= n
    ensures Run(ready, n) != map[] <==> n in ready
    ensures n in ready && (forall k :: n <= k < lo ==> k in ready) ==> forall k :: n <= k < lo ==> k in Run(ready, n)
  {
    if n in ready {
      assert Gapless(ready, n);
      assert n in Run(ready, n);
    }
  }

  /** A list that does not start above n is settled by promotion and demotion. */
  lemma ForwardList(pm: map<nat, Tx>, qm: map<nat, Tx>, lo: nat, hi: nat, n: nat, balance: int, maxGas: nat)
    requires Interval(pm, lo, hi) && lo <= n && pm.Keys !! qm.Keys && Keyed(qm)
    ensures var run := ReadyRun(qm, n, n, balance, maxGas);
      Keyed(run) && Based(StillPending(pm + run, n, balance, maxGas), n, After(run, n))
  {
    hide ReadyRun, StillPending, Settling, Continues, EndOf, From;
    ReadyRunKeyed(qm, n, n, balance, maxGas);
    var run := ReadyRun(qm, n, n, balance, maxGas);
    ResetSettles(pm, lo, hi, n, balance, maxGas);
    SettlingInterval(pm, n, n, balance, maxGas);
    RunContinues(pm, qm, n, n + |From(pm, n)|, n, balance, maxGas);
    RunSettles(pm, n, n, balance, maxGas, run);
    DemotionSettled(pm + run, n, After(run, n), balance, maxGas);
  }

  lemma SettlingInterval(pm: map<nat, Tx>, n: nat, v: nat, balance: int, maxGas: nat)
    requires Settling(pm, n, v, balance, maxGas)
    ensures Interval(From(pm, n), n, n + |From(pm, n)|)
  {
  }

  /** A list that starts above n where nothing was promoted is given up. */
  lemma GivenUp(pm: map<nat, Tx>, lo: nat, hi: nat, n: nat, balance: int, maxGas: nat)
    requires Interval(pm, lo, hi) && n < lo
    ensures StillPending(pm, n, balance, maxGas) == map[]
  {
    assert n !in pm;
  }

  /** A promoted run in front of a list whose first transaction is unpayable is all that
      is left. */
  lemma CutAtStart(pm: map<nat, Tx>, run: map<nat, Tx>, lo: nat, hi: nat, n: nat, e: nat, balance: int, maxGas: nat)
    requires Interval(pm, lo, hi) && lo < hi && Unpayable(pm[lo], balance, maxGas)
    requires Interval(run, n, e) && n < e <= lo && Affordable(run, balance, maxGas)
    ensures StillPending(pm + run, n, balance, maxGas) == run
  {
    var m := pm + run;
    assert From(m, n) == m;
    forall k | k in m ensures k in Payable(true, m, balance, maxGas) <==> k in run {
      if k in run {
        assert k < lo;
        assert PayableUpTo(m, k, balance, maxGas);
      } else {
        assert lo in m && m[lo] == pm[lo] && lo <= k;
        assert !PayableUpTo(m, k, balance, maxGas);
      }
    }
    assert Payable(true, m, balance, maxGas) == run;
    assert n in run;
  }

  /** A promoted run in front of a list whose first transaction is payable stays with that
      transaction. */
  lemma BothStay(pm: map<nat, Tx>, run: map<nat, Tx>, lo: nat, hi: nat, n: nat, e: nat, balance: int, maxGas: nat)
    requires Interval(pm, lo, hi) && lo < hi && !Unpayable(pm[lo], balance, maxGas)
    requires Interval(run, n, e) && n < e <= lo && Affordable(run, balance, maxGas)
    ensures var kept := StillPending(pm + run, n, balance, maxGas);
      && n in kept && lo in kept && (forall k :: k < lo ==> (k in kept <==> k in run))
      && (e == lo ==> Interval(kept, n, n + |kept|))
  {
    var m := pm + run;
    assert From(m, n) == m;
    assert n in run && PayableUpTo(m, n, balance, maxGas);
    assert PayableUpTo(m, lo, balance, maxGas);
    var kept := Payable(true, m, balance, maxGas);
    forall k | k in run ensures k in kept {
      assert PayableUpTo(m, k, balance, maxGas);
    }
    assert n in kept && lo in kept;
    if e == lo {
      assert Interval(m, n, hi);
      var cut := FilterLeavesPrefix(m, n, hi, balance, maxGas);
      IntervalSize(kept, n, cut);
    }
  }

  /** The lists of an account after a reset backwards that promoted something. */
  lemma BackwardList(pm: map<nat, Tx>, run: map<nat, Tx>, lo: nat, hi: nat, n: nat, e: nat, balance: int, maxGas: nat)
    requires Interval(pm, lo, hi) && lo < hi && Interval(run, n, e) && n < e <= lo && Affordable(run, balance, maxGas)
    ensures var kept := StillPending(pm + run, n, balance, maxGas);
      && kept != map[]
      && (Interval(kept, n, n + |kept|) <==> Unpayable(pm[lo], balance, maxGas) || e == lo)
  {
    hide StillPending;
    var kept := StillPending(pm + run, n, balance, maxGas);
    if Unpayable(pm[lo], balance, maxGas) {
      CutAtStart(pm, run, lo, hi, n, e, balance, maxGas);
      IntervalSize(run, n, e);
      assert n in run;
    } else {
      BothStay(pm, run, lo, hi, n, e, balance, maxGas);
      if e < lo {
        assert e !in run;
      }
    }
  }

  /** After a reset to n, promotion and demotion leave a list based exactly if it is free
      of gaps in the sense above, whatever the queue holds. */
  lemma GapFreeExactly(pm: map<nat, Tx>, qm: map<nat, Tx>, lo: nat, hi: nat, n: nat, balance: int, maxGas: nat)
    requires Interval(pm, lo, hi) && pm.Keys !! qm.Keys && Keyed(qm)
    ensures var run := ReadyRun(qm, n, n, balance, maxGas);
      && Keyed(run)
      && (Based(StillPending(pm + run, n, balance, maxGas), n, After(run, n)) <==>
            GapFree(pm, qm, lo, n, balance, maxGas))
  {
    hide StillPending, Executable, Run, EndOf, Keyed;
    ReadyRunKeyed(qm, n, n, balance, maxGas);
    var run, ready := ReadyRun(qm, n, n, balance, maxGas), Executable(qm, n, balance, maxGas);
    if n >= lo || lo == hi {
      ForwardList(pm, qm, if n >= lo then lo else n, if n >= lo then hi else n, n, balance, maxGas);
    } else {
      ReadyFrom(qm, n, balance, maxGas);
      RunFrom(ready, n, lo);
      if n !in ready {
        assert pm + map[] == pm;
        GivenUp(pm, lo, hi, n, balance, maxGas);
      } else {
        var e := RunBelow(pm, qm, lo, hi, n, balance, maxGas);
        BackwardList(pm, run, lo, hi, n, e, balance, maxGas);
        RunCloses(ready, run, n, e, lo);
      }
    }
  }

  lemma ReadyFrom(qm: map<nat, Tx>, n: nat, balance: int, maxGas: nat)
    requires Keyed(qm)
    ensures Keyed(Executable(qm, n, balance, maxGas)) && forall k :: k in Executable(qm, n, balance, maxGas) ==> k >= n
  {
  }

  /** The run that is promoted below a list ends at or before its start. */
  lemma RunBelow(pm: map<nat, Tx>, qm: map<nat, Tx>, lo: nat, hi: nat, n: nat, balance: int, maxGas: nat)
    returns (e: nat)
    requires Interval(pm, lo, hi) && n < lo < hi && pm.Keys !! qm.Keys && Keyed(qm)
    requires n in Executable(qm, n, balance, maxGas)
    ensures var run := ReadyRun(qm, n, n, balance, maxGas);
      Interval(run, n, e) && n < e <= lo && Affordable(run, balance, maxGas)
  {
    var run := ReadyRun(qm, n, n, balance, maxGas);
    ReadyFrom(qm, n, balance, maxGas);
    RunFrom(Executable(qm, n, balance, maxGas), n, lo);
    RunIsInterval(Executable(qm, n, balance, maxGas), n, n);
    e := EndOf(run);
    assert n < e;
    assert lo in pm && lo !in qm && lo !in run;
  }

  /** It reaches that start exactly if the queue closes the whole distance. */
  lemma RunCloses(ready: map<nat, Tx>, run: map<nat, Tx>, n: nat, e: nat, lo: nat)
    requires run == Run(ready, n) && Interval(run, n, e) && n < e <= lo
    requires (forall k :: n <= k < lo ==> k in ready) ==> forall k :: n <= k < lo ==> k in run
    ensures e == lo <==> forall k :: n <= k < lo ==> k in ready
  {
    if e < lo {
      assert e !in run;
    } else {
      forall k | n <= k < lo ensures k in ready {
        assert k in run;
      }
    }
  }

  /** A list whose virtual nonce was lowered below the state nonce is given up, and nothing is
      promoted. */
  lemma SunkList(pm: map<nat, Tx>, qm: map<nat, Tx>, lo: nat, n: nat, v: nat, balance: int, maxGas: nat)
    requires Interval(pm, lo, v) && v < n && Keyed(qm)
    ensures ReadyRun(qm, n, v, balance, maxGas) == map[] && StillPending(pm, n, balance, maxGas) == map[]
  {
    assert From(pm, n) == map[];
  }

  /** What is left of a list with a gap after cutting it is an interval from n exactly if
      the cut goes down to the part in front of the gap. */
  lemma GapCut(kept: map<nat, Tx>, run: map<nat, Tx>, lo: nat, n: nat, e: nat, final: map<nat, Tx>)
    requires Interval(run, n, e) && e < lo && lo in kept && forall k :: k < lo ==> (k in kept <==> k in run)
    requires final == Lowest(kept, |final|) && final != map[]
    ensures Interval(final, n, n + |final|) <==> |final| <= |run|
  {
    IntervalSize(run, n, e);
    forall x | x in kept
      ensures x < lo ==> |Below(kept, x)| == x - n
      ensures x >= lo ==> |Below(kept, x)| >= e - n
    {
      if x < lo {
        IntervalSize(Before(run, x), n, x);
        assert Before(run, x).Keys == Below(kept, x);
      } else {
        assert run.Keys <= Below(kept, x);
        Heap.SubsetSize(run.Keys, Below(kept, x));
      }
    }
    var j := |final|;
    if j <= e - n {
      forall x ensures x in final <==> n <= x < n + j {
        if n <= x < n + j {
          assert x in run;
        }
      }
    } else {
      assert e !in kept && e !in final;
    }
  }

  /** Truncation cut the list down to what was promoted. */
  ghost predicate CutShort(final: map<nat, Tx>, qm: map<nat, Tx>, n: nat, balance: int, maxGas: nat) {
    final != map[] && |final| <= |ReadyRun(qm, n, n, balance, maxGas)|
  }

  /** A list that a reset leaves with a gap has none after truncation exactly if that cut it
      short. */
  lemma GapStays(pm: map<nat, Tx>, qm: map<nat, Tx>, lo: nat, hi: nat, n: nat, balance: int, maxGas: nat,
                 final: map<nat, Tx>)
    requires Interval(pm, lo, hi) && pm.Keys !! qm.Keys && Keyed(qm) && !GapFree(pm, qm, lo, n, balance, maxGas)
    requires final == Lowest(StillPending(pm + ReadyRun(qm, n, n, balance, maxGas), n, balance, maxGas), |final|)
    requires final != map[]
    ensures Interval(final, n, n + |final|) <==> CutShort(final, qm, n, balance, maxGas)
  {
    hide StillPending, Executable, Run, Lowest;
    var run, ready := ReadyRun(qm, n, n, balance, maxGas), Executable(qm, n, balance, maxGas);
    ReadyFrom(qm, n, balance, maxGas);
    RunFrom(ready, n, lo);
    var e := RunBelow(pm, qm, lo, hi, n, balance, maxGas);
    RunCloses(ready, run, n, e, lo);
    BothStay(pm, run, lo, hi, n, e, balance, maxGas);
    GapCut(StillPending(pm + run, n, balance, maxGas), run, lo, n, e, final);
  }

  /** After a reset the account has no gap before truncation exactly if its virtual nonce was
      not lowered below the state nonce and the lists leave none; and none after truncation
      exactly if it had none before, or truncation cut its list short. */
  ghost predicate Gaps(pending: Book, nonces: map<Address, nat>, state: ChainState, maxGas: nat,
                       start: Stage, mid: Stage, a: Address, lo: nat, low: bool)
  {
    var qm, n, balance := Items(start.queue, a), state.nonce(a), state.balance(a);
    var free := !low && GapFree(Items(start.pending, a), qm, lo, n, balance, maxGas);
    && (BasedAt(mid.pending, mid.nonces, state.nonce, a) <==> free)
    && (GaplessAt(pending, nonces, state.nonce, a) <==> free || CutShort(Items(pending, a), qm, n, balance, maxGas))
  }

  /** A reset does the account no harm: nothing pending below the new state nonce was dropped
      to make room, and the lists leave no gap. */
  ghost predicate Unharmed(state: ChainState, maxGas: nat, start: Stage, f: Refill, a: Address, lo: nat) {
    && !Sunk(state.nonce, f, a)
    && GapFree(Items(start.pending, a), Items(start.queue, a), lo, state.nonce(a), state.balance(a), maxGas)
  }

  /** What truncation keeps of an account: its lowest nonces, at least one if there is one; a
      based list stays based; and the virtual nonce of one without a list does not change. */
  ghost predicate KeepsAt(pending: Book, nonces: map<Address, nat>, stateNonce: Address -> nat,
                          pending': Book, nonces': map<Address, nat>, a: Address) {
    && (BasedAt(pending, nonces, stateNonce, a) ==> BasedAt(pending', nonces', stateNonce, a))
    && (a in pending' <==> a in pending)
    && Items(pending', a) == Lowest(Items(pending, a), |Items(pending', a)|)
    && (a !in pending ==> VirtualNonce(nonces', stateNonce, a) == VirtualNonce(nonces, stateNonce, a))
  }

  ghost predicate Keeps(pending: Book, nonces: map<Address, nat>, stateNonce: Address -> nat,
                        pending': Book, nonces': map<Address, nat>) {
    forall a :: KeepsAt(pending, nonces, stateNonce, pending', nonces', a)
  }

  lemma LevelledKeeps(b: Book, locals: set<Address>, c: nat, stateNonce: Address -> nat,
                      nonces: map<Address, nat>, nonces': map<Address, nat>)
    requires BookOk(b) && c >= 1
    requires forall a :: a !in b ==> VirtualNonce(nonces', stateNonce, a) == VirtualNonce(nonces, stateNonce, a)
    ensures Keeps(b, nonces, stateNonce, Levelled(b, locals, c), nonces')
  {
    hide BasedAt, Lowest, VirtualNonce;
    forall a ensures KeepsAt(b, nonces, stateNonce, Levelled(b, locals, c), nonces', a) {
      if BasedAt(b, nonces, stateNonce, a) {
        LevelledBasedAt(b, locals, c, stateNonce, nonces, nonces', a);
      }
      if a in b && a !in locals {
        assert OwnedBy(b[a], a);
        LowestAgain(b[a], c);
      } else {
        AllLowest(Items(b, a), |Items(b, a)|);
      }
    }
  }

  lemma LowestAgain(m: map<nat, Tx>, c: nat)
    requires Keyed(m)
    ensures Lowest(m, c) == Lowest(m, |Lowest(m, c)|)
  {
    LowestFacts(m, c);
    if |m| <= c {
      AllLowest(m, |m|);
    }
  }

  /** Truncation in between does not matter for the virtual nonces after a run. */
  lemma RaisedFrom(pending: Book, nonces: map<Address, nat>, stateNonce: Address -> nat,
                   pending': Book, nonces': map<Address, nat>, raised: map<Address, nat>)
    requires Keeps(pending, nonces, stateNonce, pending', nonces') && Raising(pending', nonces', stateNonce, {}, raised)
    ensures Raising(pending', nonces, stateNonce, {}, raised)
  {
    hide RaisedTo, VirtualNonce, BasedAt;
    forall a | a !in pending' ensures VirtualNonce(raised, stateNonce, a) == VirtualNonce(nonces, stateNonce, a) {
      assert KeepsAt(pending, nonces, stateNonce, pending', nonces', a);
    }
  }

  /** Raising the virtual nonce closes the run of a single account. */
  lemma NonceSet(pending: Book, nonces: map<Address, nat>, stateNonce: Address -> nat, nonces': map<Address, nat>,
                 a: Address)
    requires Raising(pending, nonces, stateNonce, {}, nonces')
    ensures BasedAt(pending, nonces, stateNonce, a) <==> GaplessAt(pending, nonces', stateNonce, a)
  {
    hide EndOf;
    if a in pending {
      if BasedAt(pending, nonces, stateNonce, a) {
        EndOfInterval(pending[a], stateNonce(a));
      }
      if GaplessAt(pending, nonces', stateNonce, a) {
        IntervalSize(pending[a], stateNonce(a), EndOf(pending[a]));
      }
    } else {
      assert stateNonce(a) !in Items(pending, a);
    }
  }

  /** An account whose virtual nonce was lowered, before truncation. */
  lemma BasedSunk(config: Config, state: ChainState, maxGas: nat, start: Stage, up: Stage, mid: Stage, a: Address,
                  lo: nat)
    requires StageOk(start) && Standing(start, state.nonce, a, lo, true)
    requires PromotedStage(config, state, maxGas, start.queue.Keys, start, up) && DemotedStage(state, maxGas, up, mid)
    ensures Items(mid.pending, a) == map[] && !BasedAt(mid.pending, mid.nonces, state.nonce, a)
  {
    hide *;
    var pm, qm, v := Items(start.pending, a), Items(start.queue, a), VirtualNonce(start.nonces, state.nonce, a);
    StartFacts(start, a);
    StandingSunk(start, state.nonce, a, lo);
    PromotedFrom(config, state, maxGas, start, up, a);
    DemotedFrom(state, maxGas, up, mid, a);
    SunkList(pm, qm, lo, state.nonce(a), v, state.balance(a), maxGas);
    SunkAfter(pm, ReadyRun(qm, state.nonce(a), v, state.balance(a), maxGas), v);
    assert Items(up.pending, a) == pm;
    assert Items(mid.pending, a) == map[];
    assert VirtualNonce(mid.nonces, state.nonce, a) == v;
    SunkNotBased(mid.pending, mid.nonces, state.nonce, a);
  }

  lemma StandingSunk(s: Stage, stateNonce: Address -> nat, a: Address, lo: nat)
    requires Standing(s, stateNonce, a, lo, true)
    ensures var v := VirtualNonce(s.nonces, stateNonce, a); v < stateNonce(a) && Interval(Items(s.pending, a), lo, v)
  {
  }

  lemma SunkAfter(pm: map<nat, Tx>, run: map<nat, Tx>, v: nat)
    requires run == map[]
    ensures pm + run == pm && Keyed(run) && After(run, v) == v
  {
  }

  lemma SunkNotBased(pending: Book, nonces: map<Address, nat>, stateNonce: Address -> nat, a: Address)
    requires Items(pending, a) == map[] && VirtualNonce(nonces, stateNonce, a) < stateNonce(a)
    ensures !BasedAt(pending, nonces, stateNonce, a)
  {
  }

  /** Any other account. */
  lemma BasedFree(config: Config, state: ChainState, maxGas: nat, start: Stage, up: Stage, mid: Stage, a: Address,
                  lo: nat)
    requires StageOk(start) && Standing(start, state.nonce, a, lo, false)
    requires PromotedStage(config, state, maxGas, start.queue.Keys, start, up) && DemotedStage(state, maxGas, up, mid)
    ensures var pm, qm, n, b := Items(start.pending, a), Items(start.queue, a), state.nonce(a), state.balance(a);
      && Items(mid.pending, a) == StillPending(pm + ReadyRun(qm, n, n, b, maxGas), n, b, maxGas)
      && (BasedAt(mid.pending, mid.nonces, state.nonce, a) <==> GapFree(pm, qm, lo, n, b, maxGas))
  {
    hide StageOk, PromotedStage, DemotedStage, ReadyRun, StillPending, VirtualNonce, Keyed, Interval, GapFree, Based,
         BasedAt, EndOf;
    var pm, qm, n := Items(start.pending, a), Items(start.queue, a), state.nonce(a);
    StartFacts(start, a);
    PromotedFrom(config, state, maxGas, start, up, a);
    DemotedFrom(state, maxGas, up, mid, a);
    GapFreeExactly(pm, qm, lo, lo + |pm|, n, state.balance(a), maxGas);
    BasedIs(mid.pending, mid.nonces, state.nonce, a);
  }

  lemma StartFacts(start: Stage, a: Address)
    requires StageOk(start)
    ensures Items(start.pending, a).Keys !! Items(start.queue, a).Keys && Keyed(Items(start.queue, a))
  {
    QueueFacts(start.pending, start.queue, start.lookup, a);
  }

  lemma BasedIs(pending: Book, nonces: map<Address, nat>, stateNonce: Address -> nat, a: Address)
    ensures BasedAt(pending, nonces, stateNonce, a) <==>
      Based(Items(pending, a), stateNonce(a), VirtualNonce(nonces, stateNonce, a))
  {
  }

  lemma PromotedFrom(config: Config, state: ChainState, maxGas: nat, start: Stage, up: Stage, a: Address)
    requires PromotedStage(config, state, maxGas, start.queue.Keys, start, up) && Keyed(Items(start.queue, a))
    ensures var v := VirtualNonce(start.nonces, state.nonce, a);
      var run := ReadyRun(Items(start.queue, a), state.nonce(a), v, state.balance(a), maxGas);
      && Keyed(run) && Items(up.pending, a) == Items(start.pending, a) + run
      && VirtualNonce(up.nonces, state.nonce, a) == After(run, v)
  {
    hide ReadyRun, QueueLeft, EndOf, Keyed, VirtualNonce;
    var n, v := state.nonce(a), VirtualNonce(start.nonces, state.nonce, a);
    assert PromotedAt(start.pending, start.queue, start.nonces, state.nonce, state.balance, maxGas, start.locals,
                      config.accountQueue, start.queue.Keys, up.pending, up.queue, up.nonces, a);
    if a !in start.queue {
      EmptyQueue(Items(start.pending, a), n, v, state.balance(a), maxGas, a in start.locals, config.accountQueue);
    }
  }

  lemma DemotedFrom(state: ChainState, maxGas: nat, up: Stage, mid: Stage, a: Address)
    requires DemotedStage(state, maxGas, up, mid)
    ensures Items(mid.pending, a) == StillPending(Items(up.pending, a), state.nonce(a), state.balance(a), maxGas)
    ensures mid.nonces == up.nonces
  {
    hide StillPending, Demoted, Items;
    assert DemotedButAt(up.pending, up.queue, state.nonce, state.balance, maxGas, {}, mid.pending, mid.queue, a);
  }

  /** The main result on gaps for one account. */
  lemma GapsOf(config: Config, state: ChainState, maxGas: nat, start: Stage, up: Stage, mid: Stage,
               a: Address, lo: nat, low: bool, pending: Book, nonces: map<Address, nat>, nonces': map<Address, nat>)
    requires StageOk(start) && Standing(start, state.nonce, a, lo, low)
    requires PromotedStage(config, state, maxGas, start.queue.Keys, start, up) && DemotedStage(state, maxGas, up, mid)
    requires StageOk(mid) && Keeps(mid.pending, mid.nonces, state.nonce, pending, nonces)
    requires Raising(pending, nonces, state.nonce, {}, nonces')
    ensures Gaps(pending, nonces', state, maxGas, start, mid, a, lo, low)
  {
    hide *;
    var qm, n, balance, final := Items(start.queue, a), state.nonce(a), state.balance(a), Items(pending, a);
    KeptAt(mid, pending, nonces, state.nonce, a);
    NonceSet(pending, nonces, state.nonce, nonces', a);
    Presence(mid, pending, nonces, state.nonce, nonces', a);
    if low {
      BasedSunk(config, state, maxGas, start, up, mid, a, lo);
      EmptySame(mid, pending, nonces, state.nonce, a);
    } else {
      BasedFree(config, state, maxGas, start, up, mid, a, lo);
      if final == map[] {
        EmptySame(mid, pending, nonces, state.nonce, a);
      } else {
        FreeOrCut(state, maxGas, start, mid, a, lo, pending, nonces);
      }
    }
    EmptyNotShort(final, qm, n, balance, maxGas);
    GapsAre(pending, nonces', state, maxGas, start, mid, a, lo, low);
  }

  lemma KeptAt(mid: Stage, pending: Book, nonces: map<Address, nat>, stateNonce: Address -> nat, a: Address)
    requires Keeps(mid.pending, mid.nonces, stateNonce, pending, nonces)
    ensures KeepsAt(mid.pending, mid.nonces, stateNonce, pending, nonces, a)
    ensures BasedAt(mid.pending, mid.nonces, stateNonce, a) ==> BasedAt(pending, nonces, stateNonce, a)
  {
    hide BasedAt, Lowest;
  }

  lemma EmptyNotShort(final: map<nat, Tx>, qm: map<nat, Tx>, n: nat, balance: int, maxGas: nat)
    ensures final == map[] ==> !CutShort(final, qm, n, balance, maxGas)
  {
  }

  lemma GapsAre(pending: Book, nonces: map<Address, nat>, state: ChainState, maxGas: nat,
                start: Stage, mid: Stage, a: Address, lo: nat, low: bool)
    requires var qm, n, balance := Items(start.queue, a), state.nonce(a), state.balance(a);
      var free := !low && GapFree(Items(start.pending, a), qm, lo, n, balance, maxGas);
      && (BasedAt(mid.pending, mid.nonces, state.nonce, a) <==> free)
      && (GaplessAt(pending, nonces, state.nonce, a) <==> free || CutShort(Items(pending, a), qm, n, balance, maxGas))
    ensures Gaps(pending, nonces, state, maxGas, start, mid, a, lo, low)
  {
    hide GapFree, BasedAt, GaplessAt, CutShort;
  }

  /** A list that is still there. */
  lemma FreeOrCut(state: ChainState, maxGas: nat, start: Stage, mid: Stage, a: Address, lo: nat,
                  pending: Book, nonces: map<Address, nat>)
    requires StageOk(start) && Standing(start, state.nonce, a, lo, false)
    requires KeepsAt(mid.pending, mid.nonces, state.nonce, pending, nonces, a) && Items(pending, a) != map[]
    requires var pm, qm, n, b := Items(start.pending, a), Items(start.queue, a), state.nonce(a), state.balance(a);
      && Items(mid.pending, a) == StillPending(pm + ReadyRun(qm, n, n, b, maxGas), n, b, maxGas)
      && (BasedAt(mid.pending, mid.nonces, state.nonce, a) <==> GapFree(pm, qm, lo, n, b, maxGas))
    ensures var qm, n, b := Items(start.queue, a), state.nonce(a), state.balance(a);
      BasedAt(pending, nonces, state.nonce, a) <==>
        GapFree(Items(start.pending, a), qm, lo, n, b, maxGas) || CutShort(Items(pending, a), qm, n, b, maxGas)
  {
    hide GapFree, BasedAt, StageOk, StillPending, ReadyRun, Lowest, VirtualNonce, Items, Keyed, CutShort, Interval;
    var pm, qm, n, b := Items(start.pending, a), Items(start.queue, a), state.nonce(a), state.balance(a);
    if !GapFree(pm, qm, lo, n, b, maxGas) {
      StartFacts(start, a);
      BasedNonEmpty(pending, nonces, state.nonce, a);
      GapStays(pm, qm, lo, lo + |pm|, n, b, maxGas, Items(pending, a));
    }
  }

  lemma BasedNonEmpty(pending: Book, nonces: map<Address, nat>, stateNonce: Address -> nat, a: Address)
    requires Items(pending, a) != map[]
    ensures BasedAt(pending, nonces, stateNonce, a) <==>
              Interval(Items(pending, a), stateNonce(a), stateNonce(a) + |Items(pending, a)|)
  {
  }

  lemma EmptySame(mid: Stage, pending: Book, nonces: map<Address, nat>, stateNonce: Address -> nat, a: Address)
    requires Items(pending, a) == Items(mid.pending, a) == map[]
    requires VirtualNonce(nonces, stateNonce, a) == VirtualNonce(mid.nonces, stateNonce, a)
    ensures BasedAt(pending, nonces, stateNonce, a) <==> BasedAt(mid.pending, mid.nonces, stateNonce, a)
  {
  }

  /** Truncation empties no list, and an empty one is as it was. */
  lemma Presence(mid: Stage, pending: Book, nonces: map<Address, nat>, stateNonce: Address -> nat,
                 nonces': map<Address, nat>, a: Address)
    requires StageOk(mid) && KeepsAt(mid.pending, mid.nonces, stateNonce, pending, nonces, a)
    requires Raising(pending, nonces, stateNonce, {}, nonces')
    ensures Items(pending, a) == map[] <==> Items(mid.pending, a) == map[]
    ensures Items(pending, a) == map[] ==>
              VirtualNonce(nonces, stateNonce, a) == VirtualNonce(mid.nonces, stateNonce, a)
  {
    hide Apart, Accounted, LookupOk, VirtualNonce, BasedAt, Lowest, EndOf;
    assert a in pending ==> RaisedTo(pending[a], nonces'[a]);
    assert a in mid.pending ==> mid.pending[a] != map[];
  }

  /** From a gapless pool: exactly the accounts that come to no harm are based before
      truncation, and if all do the pool is gapless again. */
  lemma GaplessAgain(before: ChainState, pending0: Book, nonces0: map<Address, nat>, pending: Book,
                     nonces: map<Address, nat>, state: ChainState, maxGas: nat, start: Stage, mid: Stage, f: Refill)
    requires AllGapless(pending0, nonces0, before.nonce)
    requires forall a, lo, hi :: Interval(Items(pending0, a), lo, hi) ==>
               Gaps(pending, nonces, state, maxGas, start, mid, a, lo, Sunk(state.nonce, f, a))
    ensures AllBased(mid.pending, mid.nonces, state.nonce) <==>
              forall a :: Unharmed(state, maxGas, start, f, a, before.nonce(a))
    ensures (forall a :: Unharmed(state, maxGas, start, f, a, before.nonce(a))) ==>
              AllGapless(pending, nonces, state.nonce)
  {
    hide Interval, Sunk, GapFree, CutShort, BasedAt;
    forall a
      ensures BasedAt(mid.pending, mid.nonces, state.nonce, a) <==>
                Unharmed(state, maxGas, start, f, a, before.nonce(a))
      ensures Unharmed(state, maxGas, start, f, a, before.nonce(a)) ==> GaplessAt(pending, nonces, state.nonce, a)
    {
      assert GaplessAt(pending0, nonces0, before.nonce, a);
      assert Gaps(pending, nonces, state, maxGas, start, mid, a, before.nonce(a), Sunk(state.nonce, f, a));
    }
  }

  /** All that is known about gaps after a reset, from the stages of its run. */
  lemma ResetGaps(config: Config, gasPrice: int, before: ChainState, s: Stage, p: Prices, r: Reset, f: Refill,
                  start: Stage, up: Stage, mid: Stage, pending: Book, nonces: map<Address, nat>,
                  nonces': map<Address, nat>)
    requires r.head.Some? && ResetFrom(config, gasPrice, s, p, r, f, start) && StageOk(start) && StageOk(mid)
    requires var state, maxGas := r.head.value.state, r.head.value.maxGas;
      && PromotedStage(config, state, maxGas, start.queue.Keys, start, up) && DemotedStage(state, maxGas, up, mid)
      && Keeps(mid.pending, mid.nonces, state.nonce, pending, nonces)
      && Raising(pending, nonces, state.nonce, {}, nonces')
    ensures var state, maxGas := r.head.value.state, r.head.value.maxGas;
      forall a, lo, hi :: Interval(Items(s.pending, a), lo, hi) ==>
        Gaps(pending, nonces', state, maxGas, start, mid, a, lo, Sunk(state.nonce, f, a))
    ensures var state, maxGas := r.head.value.state, r.head.value.maxGas;
      var unharmed := forall a :: Unharmed(state, maxGas, start, f, a, before.nonce(a));
      AllGapless(s.pending, s.nonces, before.nonce) ==>
        && (AllBased(mid.pending, mid.nonces, state.nonce) <==> unharmed)
        && (unharmed ==> AllGapless(pending, nonces', state.nonce))
  {
    hide *;
    var state, maxGas := r.head.value.state, r.head.value.maxGas;
    forall a, lo, hi | Interval(Items(s.pending, a), lo, hi)
      ensures Gaps(pending, nonces', state, maxGas, start, mid, a, lo, Sunk(state.nonce, f, a))
    {
      ResetStands(config, gasPrice, s, p, r, f, start, a, lo, hi);
      GapsOf(config, state, maxGas, start, up, mid, a, lo, Sunk(state.nonce, f, a), pending, nonces, nonces');
    }
    if AllGapless(s.pending, s.nonces, before.nonce) {
      GaplessAgain(before, s.pending, s.nonces, pending, nonces', state, maxGas, start, mid, f);
    }
  }
}
