/** What a reset of the transaction pool brings back (core/tx_pool.go): the transactions
    of the blocks that are no longer canonical and not in the blocks that now are.
 */
module PoolResets {
  import opened Options
  import opened Chains
  import opened Transactions
  import BlockChains
  import opened PoolStages
  import opened TxPools

  type Bodies = map<Hash, seq<Tx>>

  /** Deeper reorganisations are not followed. */
  const MAX_DEPTH: nat := 64

  /** The transactions of some blocks. */
  function AllOf(chain: seq<Hash>, bodies: Bodies): seq<Tx>
    requires forall h :: h in chain ==> h in bodies
  {
    if chain == [] then [] else AllOf(chain[..|chain| - 1], bodies) + bodies[chain[|chain| - 1]]
  }

  lemma {:induction false} InOneBlock(chain: seq<Hash>, bodies: Bodies, tx: Tx)
    requires forall h :: h in chain ==> h in bodies
    ensures tx in AllOf(chain, bodies) <==> exists i :: 0 <= i < |chain| && tx in bodies[chain[i]]
  {
    if chain != [] {
      var init := chain[..|chain| - 1];
      InOneBlock(init, bodies, tx);
      assert forall i :: 0 <= i < |init| ==> init[i] == chain[i];
    }
  }

  /** types.TxDifference */
  function Difference(a: seq<Tx>, b: seq<Tx>): (keep: seq<Tx>)
    ensures forall tx :: tx in keep <==> tx in a && tx !in b
  {
    if a == [] then []
    else
      var rest := Difference(a[..|a| - 1], b);
      if a[|a| - 1] in b then rest else rest + [a[|a| - 1]]
  }

  /** tx is in a block of h's branch above number n. */
  ghost predicate InBranch(hs: Headers, genesis: Hash, bodies: Bodies, h: Hash, n: nat, tx: Tx)
    requires Tree(hs, genesis) && h in hs && bodies.Keys == hs.Keys
  {
    exists m :: n < m <= hs[h].number && tx in bodies[AncestorAt(hs, genesis, h, m)]
  }

  lemma BranchTxs(hs: Headers, genesis: Hash, bodies: Bodies, h: Hash, n: nat, chain: seq<Hash>, tx: Tx)
    requires Tree(hs, genesis) && h in hs && bodies.Keys == hs.Keys && BlockChains.Branch(chain, hs, genesis, h, n)
    ensures (forall b :: b in chain ==> b in bodies)
    ensures (tx in AllOf(chain, bodies) <==> InBranch(hs, genesis, bodies, h, n, tx))
  {
    assert forall b :: b in chain ==> b in bodies;
    InOneBlock(chain, bodies, tx);
    var top := hs[h].number;
    if exists i :: 0 <= i < |chain| && tx in bodies[chain[i]] {
      var i :| 0 <= i < |chain| && tx in bodies[chain[i]];
      assert chain[i] == AncestorAt(hs, genesis, h, top - i);
    }
    if InBranch(hs, genesis, bodies, h, n, tx) {
      var m :| n < m <= top && tx in bodies[AncestorAt(hs, genesis, h, m)];
      assert chain[top - m] == AncestorAt(hs, genesis, h, m);
    }
  }

  /** Exactly the transactions that left the canonical chain. */
  ghost predicate Lost(hs: Headers, genesis: Hash, bodies: Bodies, oldHead: Hash, newHead: Hash, reinject: seq<Tx>)
    requires Tree(hs, genesis) && oldHead in hs && newHead in hs && bodies.Keys == hs.Keys
  {
    exists fork :: BlockChains.ForkAt(hs, genesis, oldHead, newHead, fork)
      && forall tx :: tx in reinject <==>
          InBranch(hs, genesis, bodies, oldHead, fork, tx) && !InBranch(hs, genesis, bodies, newHead, fork, tx)
  }

  ghost predicate Descends(hs: Headers, genesis: Hash, oldHead: Hash, newHead: Hash)
    requires Tree(hs, genesis) && oldHead in hs && newHead in hs
  {
    hs[oldHead].number <= hs[newHead].number && AncestorAt(hs, genesis, newHead, hs[oldHead].number) == oldHead
  }

  function Depth(a: nat, b: nat): nat { if a <= b then b - a else a - b }

  /** Both branches can be read back down to where they fork. */
  ghost predicate Joined(hs: Headers, available: set<Hash>, genesis: Hash, a: Hash, b: Hash)
    requires Tree(hs, genesis) && a in hs && b in hs
  {
    exists fork :: BlockChains.ForkAt(hs, genesis, a, b, fork)
      && BlockChains.Readable(available, hs, genesis, a, fork) && BlockChains.Readable(available, hs, genesis, b, fork)
  }

  /** When reset gives up: blocks of a shallow reorganisation are missing. A missing old head
      counts only if the new one is not lower, which would mean that the chain was rewound. */
  ghost predicate GivesUp(hs: Headers, available: set<Hash>, genesis: Hash, oldHead: Option<Hash>, newHead: Hash)
    requires Tree(hs, genesis) && newHead in hs && (oldHead.Some? ==> oldHead.value in hs)
  {
    && oldHead.Some? && oldHead.value != hs[newHead].parent
    && Depth(hs[oldHead.value].number, hs[newHead].number) <= MAX_DEPTH
    && if oldHead.value in available then !Joined(hs, available, genesis, oldHead.value, newHead)
       else hs[oldHead.value].number <= hs[newHead].number
  }

  /** The first half of reset. No result means that it gives up because blocks are
      missing. Going forward on one branch never brings anything back. */
  method Reinjected(hs: Headers, bodies: Bodies, available: set<Hash>, ghost genesis: Hash, oldHead: Option<Hash>,
                    newHead: Hash)
    returns (r: Option<seq<Tx>>)
    requires Tree(hs, genesis) && bodies.Keys == hs.Keys && newHead in hs && newHead in available
    requires hs[genesis].parent !in hs && (oldHead.Some? ==> oldHead.value in hs)
    ensures r.None? <==> GivesUp(hs, available, genesis, oldHead, newHead)
    ensures oldHead.None? ==> r == Some([])
    ensures oldHead.Some? && Depth(hs[oldHead.value].number, hs[newHead].number) > MAX_DEPTH ==> r == Some([])
    ensures oldHead.Some? && oldHead.value in available && r.Some?
            && Depth(hs[oldHead.value].number, hs[newHead].number) <= MAX_DEPTH ==>
              Lost(hs, genesis, bodies, oldHead.value, newHead, r.value)
    ensures oldHead.Some? && r.Some? && Descends(hs, genesis, oldHead.value, newHead) ==> r.value == []
    ensures oldHead.Some? && oldHead.value !in available && r.Some? ==> r.value == []
  {
    if oldHead.None? {
      return Some([]);
    }
    if oldHead.value == hs[newHead].parent {
      assert Placed(hs, genesis, newHead);
      ParentLosesNothing(hs, genesis, bodies, oldHead.value, newHead);
      return Some([]);
    }
    var oldNumber, newNumber := hs[oldHead.value].number, hs[newHead].number;
    if Depth(oldNumber, newNumber) > MAX_DEPTH {
      return Some([]);
    }
    if oldHead.value !in available {
      return if newNumber >= oldNumber then None else Some([]);
    }
    var ok, common, oldChain, newChain, fork := BlockChains.FindFork(hs, available, genesis, oldHead.value, newHead);
    OneFork(hs, available, genesis, oldHead.value, newHead, fork);
    if !ok {
      return None;
    }
    forall tx ensures tx in AllOf(oldChain, bodies) <==> InBranch(hs, genesis, bodies, oldHead.value, fork, tx) {
      BranchTxs(hs, genesis, bodies, oldHead.value, fork, oldChain, tx);
    }
    forall tx ensures tx in AllOf(newChain, bodies) <==> InBranch(hs, genesis, bodies, newHead, fork, tx) {
      BranchTxs(hs, genesis, bodies, newHead, fork, newChain, tx);
    }
    var reinject := Difference(AllOf(oldChain, bodies), AllOf(newChain, bodies));
    if Descends(hs, genesis, oldHead.value, newHead) {
      DescendantsFork(hs, genesis, oldHead.value, newHead, fork);
      assert oldChain == [];
    }
    r := Some(reinject);
  }

  lemma OneFork(hs: Headers, available: set<Hash>, genesis: Hash, a: Hash, b: Hash, fork: nat)
    requires Tree(hs, genesis) && a in hs && b in hs && BlockChains.ForkAt(hs, genesis, a, b, fork)
    ensures Joined(hs, available, genesis, a, b) <==>
      BlockChains.Readable(available, hs, genesis, a, fork) && BlockChains.Readable(available, hs, genesis, b, fork)
  {
    if Joined(hs, available, genesis, a, b) {
      var n :| BlockChains.ForkAt(hs, genesis, a, b, n)
        && BlockChains.Readable(available, hs, genesis, a, n) && BlockChains.Readable(available, hs, genesis, b, n);
      BlockChains.ForkUnique(hs, genesis, a, b, n, fork);
    }
  }

  lemma DescendantsFork(hs: Headers, genesis: Hash, oldHead: Hash, newHead: Hash, fork: nat)
    requires Tree(hs, genesis) && oldHead in hs && newHead in hs && Descends(hs, genesis, oldHead, newHead)
    requires BlockChains.ForkAt(hs, genesis, oldHead, newHead, fork)
    ensures fork == hs[oldHead].number
  {
  }

  lemma ParentLosesNothing(hs: Headers, genesis: Hash, bodies: Bodies, oldHead: Hash, newHead: Hash)
    requires Tree(hs, genesis) && oldHead in hs && newHead in hs && bodies.Keys == hs.Keys
    requires oldHead == hs[newHead].parent && hs[newHead].number > 0
    ensures Lost(hs, genesis, bodies, oldHead, newHead, [])
  {
    assert Placed(hs, genesis, newHead);
    var fork := hs[oldHead].number;
    assert AncestorAt(hs, genesis, newHead, fork) == oldHead;
    assert BlockChains.ForkAt(hs, genesis, oldHead, newHead, fork);
  }

  /** No block lowers the nonce of an account. */
  ghost predicate NoncesRise(hs: Headers, genesis: Hash, heads: map<Hash, Head>) {
    && heads.Keys == hs.Keys
    && forall h, a :: h in hs && h != genesis && hs[h].parent in hs ==>
         heads[hs[h].parent].state.nonce(a) <= heads[h].state.nonce(a)
  }

  /** Then no account's nonce drops from a block to a descendant. */
  lemma {:induction false} NoncesRisen(hs: Headers, genesis: Hash, heads: map<Hash, Head>, h: Hash, n: nat, a: Address)
    requires Tree(hs, genesis) && NoncesRise(hs, genesis, heads) && h in hs && n <= hs[h].number
    ensures heads[AncestorAt(hs, genesis, h, n)].state.nonce(a) <= heads[h].state.nonce(a)
    decreases hs[h].number
  {
    assert Placed(hs, genesis, h);
    if n < hs[h].number {
      NoncesRisen(hs, genesis, heads, hs[h].parent, n, a);
    }
  }

  /** The reset the pool is asked for when the head moves: `loadable` are the blocks whose
      state can be opened, and `submit` how a transaction is handed to the pool. */
  method ResetFor(hs: Headers, bodies: Bodies, available: set<Hash>, ghost genesis: Hash, heads: map<Hash, Head>,
                  loadable: set<Hash>, submit: Tx -> Submitted, oldHead: Option<Hash>, newHead: Hash,
                  baseFee: Option<int>)
    returns (r: Reset)
    requires Tree(hs, genesis) && bodies.Keys == hs.Keys && newHead in hs && newHead in available
    requires hs[genesis].parent !in hs && (oldHead.Some? ==> oldHead.value in hs) && heads.Keys == hs.Keys
    requires forall tx :: submit(tx).tx == tx
    ensures r.head == if GivesUp(hs, available, genesis, oldHead, newHead) || newHead !in loadable then None
                      else Some(heads[newHead])
    ensures r.baseFee == baseFee
    ensures r.head.Some? && oldHead.Some? && oldHead.value in available
            && Depth(hs[oldHead.value].number, hs[newHead].number) <= MAX_DEPTH ==>
              exists txs :: Lost(hs, genesis, bodies, oldHead.value, newHead, txs) && Handed(txs, submit, r.reinject)
    ensures r.head.Some? && (oldHead.None? || oldHead.value !in available) ==> r.reinject == []
    ensures oldHead.Some? && Descends(hs, genesis, oldHead.value, newHead) && NoncesRise(hs, genesis, heads) ==>
              Forward(heads[oldHead.value].state, r)
  {
    var txs := Reinjected(hs, bodies, available, genesis, oldHead, newHead);
    if txs.None? || newHead !in loadable {
      return Reset(None, [], baseFee);
    }
    r := Reset(Some(heads[newHead]), seq(|txs.value|, i requires 0 <= i < |txs.value| => submit(txs.value[i])),
               baseFee);
    assert Handed(txs.value, submit, r.reinject);
    if oldHead.Some? && Descends(hs, genesis, oldHead.value, newHead) && NoncesRise(hs, genesis, heads) {
      forall a ensures heads[oldHead.value].state.nonce(a) <= heads[newHead].state.nonce(a) {
        NoncesRisen(hs, genesis, heads, newHead, hs[oldHead.value].number, a);
      }
    }
  }

  /** The transactions as they are handed to the pool. */
  ghost predicate Handed(txs: seq<Tx>, submit: Tx -> Submitted, batch: seq<Submitted>) {
    |batch| == |txs| && forall i :: 0 <= i < |txs| ==> batch[i] == submit(txs[i])
  }

  /** The pool's answer to a new head that descends from the old one: pending stays gapless. */
  method Advance(pool: TxPool, hs: Headers, bodies: Bodies, available: set<Hash>, ghost genesis: Hash,
                 heads: map<Hash, Head>,
                 loadable: set<Hash>, submit: Tx -> Submitted, oldHead: Hash, newHead: Hash, baseFee: Option<int>,
                 beats: Address -> int)
    requires pool.Valid() && Tree(hs, genesis) && bodies.Keys == hs.Keys && newHead in hs && newHead in available
    requires hs[genesis].parent !in hs && oldHead in hs && NoncesRise(hs, genesis, heads)
    requires (forall tx :: submit(tx).tx == tx) && pool.state == heads[oldHead].state
    modifies pool, pool.priced
    ensures pool.Valid() && pool.Funded()
    ensures old(pool.Gapless()) && old(pool.Funded()) && Descends(hs, genesis, oldHead, newHead) ==> pool.Gapless()
  {
    var reset := ResetFor(hs, bodies, available, genesis, heads, loadable, submit, Some(oldHead), newHead, baseFee);
    var promoted, start, up, mid, f := pool.RunReorg(Some(reset), [], beats);
  }
}
