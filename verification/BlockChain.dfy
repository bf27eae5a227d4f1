/** Reorganisation of the block chain (core/blockchain.go): walking two branches
    to their fork, rewriting the canonical index and the transaction lookup.
 */
module BlockChains {
  import opened Chains
  import HeaderChains

  type TxHash = nat

  /** n is the number of the nearest common ancestor of a and b. */
  ghost predicate ForkAt(hs: Headers, genesis: Hash, a: Hash, b: Hash, n: nat)
    requires Tree(hs, genesis) && a in hs && b in hs
  {
    && n <= hs[a].number && n <= hs[b].number
    && AncestorAt(hs, genesis, a, n) == AncestorAt(hs, genesis, b, n)
    && forall m :: n < m <= hs[a].number && m <= hs[b].number ==>
         AncestorAt(hs, genesis, a, m) != AncestorAt(hs, genesis, b, m)
  }

  lemma ForkUnique(hs: Headers, genesis: Hash, a: Hash, b: Hash, n: nat, n': nat)
    requires Tree(hs, genesis) && a in hs && b in hs && ForkAt(hs, genesis, a, b, n) && ForkAt(hs, genesis, a, b, n')
    ensures n == n'
  {
  }

  /** chain lists the ancestors of h, h first, down to but not including number n. */
  ghost predicate Branch(chain: seq<Hash>, hs: Headers, genesis: Hash, h: Hash, n: nat)
    requires Tree(hs, genesis) && h in hs
  {
    && n <= hs[h].number && |chain| == hs[h].number - n
    && forall i :: 0 <= i < |chain| ==> chain[i] == AncestorAt(hs, genesis, h, hs[h].number - i)
  }

  /** All proper ancestors of h from number n up can be read back. */
  ghost predicate Readable(available: set<Hash>, hs: Headers, genesis: Hash, h: Hash, n: nat)
    requires Tree(hs, genesis) && h in hs
  {
    forall m :: n <= m < hs[h].number ==> AncestorAt(hs, genesis, h, m) in available
  }

  /** Steps back from h to number n, collecting the blocks passed; stops early at a
      block that cannot be read back. */
  method StepBack(hs: Headers, available: set<Hash>, ghost genesis: Hash, h: Hash, n: nat)
    returns (ok: bool, at: Hash, chain: seq<Hash>)
    requires Tree(hs, genesis) && h in hs && n <= hs[h].number
    ensures ok == Readable(available, hs, genesis, h, n)
    ensures ok ==> at == AncestorAt(hs, genesis, h, n) && Branch(chain, hs, genesis, h, n)
  {
    ok, at, chain := true, h, [];
    while hs[at].number != n
      invariant at in hs && n <= hs[at].number && at == AncestorAt(hs, genesis, h, hs[at].number)
      invariant Branch(chain, hs, genesis, h, hs[at].number)
      invariant Readable(available, hs, genesis, h, hs[at].number)
      decreases hs[at].number
    {
      AncestorStep(hs, genesis, h, hs[at].number - 1);
      chain := chain + [at];
      at := hs[at].parent;
      if at !in available {
        ok := false;
        return;
      }
    }
  }

  /** Finds the nearest common ancestor of two blocks and the branches above it. */
  method FindFork(hs: Headers, available: set<Hash>, ghost genesis: Hash, oldBlock: Hash, newBlock: Hash)
    returns (ok: bool, common: Hash, oldChain: seq<Hash>, newChain: seq<Hash>, ghost fork: nat)
    requires Tree(hs, genesis) && oldBlock in hs && newBlock in hs
    ensures ForkAt(hs, genesis, oldBlock, newBlock, fork)
    ensures ok == (Readable(available, hs, genesis, oldBlock, fork) && Readable(available, hs, genesis, newBlock, fork))
    ensures ok ==> common == AncestorAt(hs, genesis, oldBlock, fork)
    ensures ok ==> Branch(oldChain, hs, genesis, oldBlock, fork) && Branch(newChain, hs, genesis, newBlock, fork)
  {
    fork := ForkExists(hs, genesis, oldBlock, newBlock);
    common, oldChain, newChain := EMPTY, [], [];
    var low := if hs[oldBlock].number <= hs[newBlock].number then hs[oldBlock].number else hs[newBlock].number;
    var a, b;
    ok, a, oldChain := StepBack(hs, available, genesis, oldBlock, low);
    if !ok { return; }
    ok, b, newChain := StepBack(hs, available, genesis, newBlock, low);
    if !ok { return; }
    ghost var n := low;
    while a != b
      invariant fork <= n <= low && a == AncestorAt(hs, genesis, oldBlock, n)
      invariant b == AncestorAt(hs, genesis, newBlock, n)
      invariant Branch(oldChain, hs, genesis, oldBlock, n) && Branch(newChain, hs, genesis, newBlock, n)
      invariant Readable(available, hs, genesis, oldBlock, n) && Readable(available, hs, genesis, newBlock, n)
      decreases n
    {
      AncestorStep(hs, genesis, oldBlock, n - 1);
      AncestorStep(hs, genesis, newBlock, n - 1);
      oldChain, newChain := oldChain + [a], newChain + [b];
      a, b, n := hs[a].parent, hs[b].parent, n - 1;
      if a !in available || b !in available {
        ok := false;
        return;
      }
    }
    common := a;
  }

  lemma ForkExists(hs: Headers, genesis: Hash, a: Hash, b: Hash) returns (n: nat)
    requires Tree(hs, genesis) && a in hs && b in hs
    ensures ForkAt(hs, genesis, a, b, n)
  {
    n := if hs[a].number <= hs[b].number then hs[a].number else hs[b].number;
    while AncestorAt(hs, genesis, a, n) != AncestorAt(hs, genesis, b, n)
      invariant n <= hs[a].number && n <= hs[b].number
      invariant forall m :: n < m <= hs[a].number && m <= hs[b].number ==>
                  AncestorAt(hs, genesis, a, m) != AncestorAt(hs, genesis, b, m)
      decreases n
    {
      if n == 0 {
        Rooted(hs, genesis, a);
        Rooted(hs, genesis, b);
      }
      n := n - 1;
    }
  }

  type Bodies = map<Hash, set<TxHash>>

  /** t is in the ancestor of head with number n. */
  ghost predicate OnBranch(hs: Headers, txs: Bodies, genesis: Hash, head: Hash, n: nat, t: TxHash)
    requires Tree(hs, genesis) && txs.Keys == hs.Keys && head in hs
  {
    n <= hs[head].number && t in txs[AncestorAt(hs, genesis, head, n)]
  }

  /** No transaction is on a branch twice. */
  ghost predicate UniqueTxs(hs: Headers, txs: Bodies, genesis: Hash, head: Hash)
    requires Tree(hs, genesis) && txs.Keys == hs.Keys && head in hs
  {
    forall m: nat, n: nat, t ::
      OnBranch(hs, txs, genesis, head, m, t) && OnBranch(hs, txs, genesis, head, n, t) ==> m == n
  }

  /** The lookup maps exactly the transactions of head's ancestry, each to its block. */
  ghost predicate Located(lookup: map<TxHash, nat>, hs: Headers, txs: Bodies, genesis: Hash, head: Hash)
    requires Tree(hs, genesis) && txs.Keys == hs.Keys && head in hs
  {
    && (forall t :: t in lookup ==> OnBranch(hs, txs, genesis, head, lookup[t], t))
    && (forall n: nat, t :: OnBranch(hs, txs, genesis, head, n, t) ==> t in lookup && lookup[t] == n)
  }

  /** The new branch up to number k has been written over the index. */
  ghost predicate Rewritten(canon': map<nat, Hash>, canon: map<nat, Hash>, hs: Headers, genesis: Hash,
                            newBlock: Hash, fork: nat, k: nat)
    requires Tree(hs, genesis) && newBlock in hs && k <= hs[newBlock].number
  {
    && (forall n :: n in canon' <==> n in canon || fork < n <= k)
    && (forall n :: n in canon' ==>
          canon'[n] == if fork < n <= k then AncestorAt(hs, genesis, newBlock, n) else canon[n])
  }

  /** The transactions of the new branch above the fork, up to number k. */
  ghost predicate Added(added: set<TxHash>, hs: Headers, txs: Bodies, genesis: Hash, newBlock: Hash, fork: nat, k: nat)
    requires Tree(hs, genesis) && txs.Keys == hs.Keys && newBlock in hs
  {
    && (forall t :: t in added ==> exists n: nat :: fork < n <= k && OnBranch(hs, txs, genesis, newBlock, n, t))
    && (forall n: nat, t :: fork < n <= k && OnBranch(hs, txs, genesis, newBlock, n, t) ==> t in added)
  }

  /** The lookup after the new branch up to number k was indexed over it. */
  ghost predicate Relocated(lookup': map<TxHash, nat>, lookup: map<TxHash, nat>, added: set<TxHash>,
                            hs: Headers, txs: Bodies, genesis: Hash, newBlock: Hash, fork: nat, k: nat)
    requires Tree(hs, genesis) && txs.Keys == hs.Keys && newBlock in hs
  {
    && Added(added, hs, txs, genesis, newBlock, fork, k)
    && (forall t :: t in lookup' <==> t in lookup || t in added)
    && (forall t :: t in lookup' && t !in added ==> lookup'[t] == lookup[t])
    && (forall n: nat, t :: fork < n <= k && OnBranch(hs, txs, genesis, newBlock, n, t) ==>
          t in lookup' && lookup'[t] == n)
  }

  lemma RelocatedStep(lookup': map<TxHash, nat>, lookup: map<TxHash, nat>, added: set<TxHash>,
                      hs: Headers, txs: Bodies, genesis: Hash, newBlock: Hash, fork: nat, k: nat, b: Hash)
    requires Tree(hs, genesis) && txs.Keys == hs.Keys && newBlock in hs && UniqueTxs(hs, txs, genesis, newBlock)
    requires Relocated(lookup', lookup, added, hs, txs, genesis, newBlock, fork, k)
    requires fork <= k < hs[newBlock].number && b == AncestorAt(hs, genesis, newBlock, k + 1)
    ensures Relocated(lookup' + (map t | t in txs[b] :: k + 1), lookup, added + txs[b],
                      hs, txs, genesis, newBlock, fork, k + 1)
  {
    forall t | t in added + txs[b]
      ensures exists n: nat :: fork < n <= k + 1 && OnBranch(hs, txs, genesis, newBlock, n, t)
    {
      if t in txs[b] { assert OnBranch(hs, txs, genesis, newBlock, k + 1, t); }
    }
    assert forall t :: t in txs[b] ==> OnBranch(hs, txs, genesis, newBlock, k + 1, t);
  }

  /** The database entries a reorganisation rewrites: the canonical index, the
      transaction lookup and the current block. */
  datatype Index = Index(canon: map<nat, Hash>, lookup: map<TxHash, nat>, current: Hash)

  /** writeHeadBlock */
  function HeadWritten(x: Index, hs: Headers, txs: Bodies, block: Hash): Index
    requires block in hs && block in txs
  {
    Index(x.canon[hs[block].number := block], x.lookup + (map t | t in txs[block] :: hs[block].number), block)
  }

  /** The new branch has been made canonical up to number k. */
  ghost predicate Inserted(x': Index, x: Index, added: set<TxHash>,
                           hs: Headers, txs: Bodies, genesis: Hash, newBlock: Hash, fork: nat, k: nat)
    requires Tree(hs, genesis) && txs.Keys == hs.Keys && newBlock in hs
  {
    && fork <= k <= hs[newBlock].number
    && Rewritten(x'.canon, x.canon, hs, genesis, newBlock, fork, k)
    && Relocated(x'.lookup, x.lookup, added, hs, txs, genesis, newBlock, fork, k)
    && x'.current == if k == fork then x.current else AncestorAt(hs, genesis, newBlock, k)
  }

  lemma InsertedStep(x': Index, x: Index, added: set<TxHash>,
                     hs: Headers, txs: Bodies, genesis: Hash, newBlock: Hash, fork: nat, k: nat, b: Hash)
    requires Tree(hs, genesis) && txs.Keys == hs.Keys && newBlock in hs && UniqueTxs(hs, txs, genesis, newBlock)
    requires Inserted(x', x, added, hs, txs, genesis, newBlock, fork, k)
    requires k < hs[newBlock].number && b == AncestorAt(hs, genesis, newBlock, k + 1)
    ensures Inserted(HeadWritten(x', hs, txs, b), x, added + txs[b], hs, txs, genesis, newBlock, fork, k + 1)
  {
    RelocatedStep(x'.lookup, x.lookup, added, hs, txs, genesis, newBlock, fork, k, b);
  }

  lemma InsertedNone(x: Index, hs: Headers, txs: Bodies, genesis: Hash, newBlock: Hash, fork: nat)
    requires Tree(hs, genesis) && txs.Keys == hs.Keys && newBlock in hs && fork <= hs[newBlock].number
    ensures Inserted(x, x, {}, hs, txs, genesis, newBlock, fork, fork)
  {
  }

  method InsertOne(x: Index, ghost x0: Index, added: set<TxHash>, hs: Headers, txs: Bodies, ghost genesis: Hash,
                   ghost newBlock: Hash, b: Hash, ghost fork: nat, ghost k: nat)
    returns (x': Index, added': set<TxHash>)
    requires Tree(hs, genesis) && txs.Keys == hs.Keys && newBlock in hs && UniqueTxs(hs, txs, genesis, newBlock)
    requires Inserted(x, x0, added, hs, txs, genesis, newBlock, fork, k)
    requires k < hs[newBlock].number && b == AncestorAt(hs, genesis, newBlock, k + 1)
    ensures Inserted(x', x0, added', hs, txs, genesis, newBlock, fork, k + 1)
  {
    InsertedStep(x, x0, added, hs, txs, genesis, newBlock, fork, k, b);
    x', added' := HeadWritten(x, hs, txs, b), added + txs[b];
  }

  /** Makes the new branch below its head canonical, lowest block first. */
  method InsertBranch(x: Index, hs: Headers, txs: Bodies, ghost genesis: Hash, newBlock: Hash, newChain: seq<Hash>,
                      ghost fork: nat)
    returns (x': Index, added: set<TxHash>)
    requires Tree(hs, genesis) && txs.Keys == hs.Keys && newBlock in hs && UniqueTxs(hs, txs, genesis, newBlock)
    requires Branch(newChain, hs, genesis, newBlock, fork)
    ensures Inserted(x', x, added, hs, txs, genesis, newBlock, fork,
                     if |newChain| > 0 then hs[newBlock].number - 1 else fork)
  {
    x', added := x, {};
    var i := |newChain| - 1;
    InsertedNone(x, hs, txs, genesis, newBlock, fork);
    ghost var k := fork;
    while i >= 1
      invariant -1 <= i < |newChain| && (|newChain| > 0 ==> i >= 0 && k == hs[newBlock].number - 1 - i)
      invariant |newChain| == 0 ==> k == fork
      invariant fork <= k <= hs[newBlock].number && Inserted(x', x, added, hs, txs, genesis, newBlock, fork, k)
    {
      x', added := InsertOne(x', x, added, hs, txs, genesis, newBlock, newChain[i], fork, k);
      i, k := i - 1, k + 1;
    }
  }

  /** The transactions of the abandoned branch. */
  method DeletedTxs(hs: Headers, txs: Bodies, ghost genesis: Hash, oldBlock: Hash, oldChain: seq<Hash>, ghost fork: nat)
    returns (deleted: set<TxHash>)
    requires Tree(hs, genesis) && txs.Keys == hs.Keys && oldBlock in hs && Branch(oldChain, hs, genesis, oldBlock, fork)
    ensures Added(deleted, hs, txs, genesis, oldBlock, fork, hs[oldBlock].number)
  {
    deleted := {};
    for i := 0 to |oldChain|
      invariant forall t :: t in deleted ==>
                exists n: nat :: fork < n <= hs[oldBlock].number && OnBranch(hs, txs, genesis, oldBlock, n, t)
      invariant forall n: nat, t ::
        hs[oldBlock].number - i < n <= hs[oldBlock].number && OnBranch(hs, txs, genesis, oldBlock, n, t) ==>
          t in deleted
    {
      assert forall t :: t in txs[oldChain[i]] ==> OnBranch(hs, txs, genesis, oldBlock, hs[oldBlock].number - i, t);
      deleted := deleted + txs[oldChain[i]];
    }
  }

  /** Drops index entries above `top`, one number at a time until one is missing. */
  method DropAbove(canon: map<nat, Hash>, top: nat, ghost highest: nat) returns (canon': map<nat, Hash>)
    requires forall n :: n in canon <==> 0 <= n <= highest
    ensures canon' == map n | n in canon && n <= top :: canon[n]
  {
    canon' := canon;
    var i := top + 1;
    while i in canon
      invariant top < i && canon' == map n | n in canon && (n <= top || n >= i) :: canon[n]
      decreases highest + 1 - i
    {
      canon' := canon' - {i};
      i := i + 1;
    }
  }

  /** Above the fork the branches share no block, below it they share all. */
  lemma ForkShares(hs: Headers, txs: Bodies, genesis: Hash, a: Hash, b: Hash, fork: nat, n: nat, t: TxHash)
    requires Tree(hs, genesis) && txs.Keys == hs.Keys && a in hs && b in hs && ForkAt(hs, genesis, a, b, fork)
    requires n <= fork
    ensures OnBranch(hs, txs, genesis, a, n, t) <==> OnBranch(hs, txs, genesis, b, n, t)
    ensures AncestorAt(hs, genesis, a, n) == AncestorAt(hs, genesis, b, n)
  {
    AncestorChains(hs, genesis, a, fork, n);
    AncestorChains(hs, genesis, b, fork, n);
  }

  /** Indexing the new branch, dropping what only the old one had, and indexing the
      new head: the lookup then is that of the new head. */
  lemma LookupFollows(lookup: map<TxHash, nat>, l1: map<TxHash, nat>, added: set<TxHash>, deleted: set<TxHash>,
                      hs: Headers, txs: Bodies, genesis: Hash, oldBlock: Hash, newBlock: Hash, fork: nat, k: nat)
    requires Tree(hs, genesis) && txs.Keys == hs.Keys && oldBlock in hs && newBlock in hs
    requires ForkAt(hs, genesis, oldBlock, newBlock, fork) && UniqueTxs(hs, txs, genesis, newBlock)
    requires Located(lookup, hs, txs, genesis, oldBlock)
    requires fork <= k <= hs[newBlock].number <= k + 1
    requires Relocated(l1, lookup, added, hs, txs, genesis, newBlock, fork, k)
    requires Added(deleted, hs, txs, genesis, oldBlock, fork, hs[oldBlock].number)
    ensures Located((l1 - (deleted - added)) + (map t | t in txs[newBlock] :: hs[newBlock].number), hs, txs, genesis,
                    newBlock)
  {
    var number := hs[newBlock].number;
    var l3 := (l1 - (deleted - added)) + (map t | t in txs[newBlock] :: number);
    assert AncestorAt(hs, genesis, newBlock, number) == newBlock;
    forall t | t in l3 ensures OnBranch(hs, txs, genesis, newBlock, l3[t], t) {
      if t !in txs[newBlock] {
        if t in added {
          var n: nat :| fork < n <= k && OnBranch(hs, txs, genesis, newBlock, n, t);
        } else {
          assert OnBranch(hs, txs, genesis, oldBlock, lookup[t], t);
          assert lookup[t] <= fork;
          ForkShares(hs, txs, genesis, oldBlock, newBlock, fork, lookup[t], t);
        }
      }
    }
    forall n: nat, t | OnBranch(hs, txs, genesis, newBlock, n, t) ensures t in l3 && l3[t] == n {
      if n == number {
      } else if n > fork {
        assert t in added && l1[t] == n;
        assert t in txs[newBlock] ==> OnBranch(hs, txs, genesis, newBlock, number, t);
      } else {
        ForkShares(hs, txs, genesis, oldBlock, newBlock, fork, n, t);
        assert lookup[t] == n;
        assert t !in deleted && t !in added;
        assert t in txs[newBlock] ==> OnBranch(hs, txs, genesis, newBlock, number, t);
      }
    }
  }

  /** Deleting the index above `top` and writing the new head: it is the new head's
      ancestry exactly if the new branch has two blocks or reaches the old height. */
  lemma IndexFollowsReorg(canon: map<nat, Hash>, c1: map<nat, Hash>, c2: map<nat, Hash>, hs: Headers, genesis: Hash,
                          oldBlock: Hash, newBlock: Hash, fork: nat, k: nat)
    requires Tree(hs, genesis) && oldBlock in hs && newBlock in hs && Canonical(canon, hs, genesis, oldBlock)
    requires ForkAt(hs, genesis, oldBlock, newBlock, fork)
    requires k == (if hs[newBlock].number > fork then hs[newBlock].number - 1 else fork)
    requires Rewritten(c1, canon, hs, genesis, newBlock, fork, k)
    requires var top := if k > fork then k else hs[oldBlock].number; c2 == map n | n in c1 && n <= top :: c1[n]
    ensures var c3 := c2[hs[newBlock].number := newBlock];
      Canonical(c3, hs, genesis, newBlock) <==>
        (hs[newBlock].number - fork >= 2 || hs[newBlock].number >= hs[oldBlock].number)
  {
    var number := hs[newBlock].number;
    var c3 := c2[number := newBlock];
    if number - fork >= 2 || number >= hs[oldBlock].number {
      forall n ensures n in c3 <==> 0 <= n <= number {
      }
      forall n | n in c3 ensures c3[n] == AncestorAt(hs, genesis, newBlock, n) {
        if n <= fork {
          AncestorChains(hs, genesis, oldBlock, fork, n);
          AncestorChains(hs, genesis, newBlock, fork, n);
        }
      }
    } else {
      assert number + 1 in c3;
    }
  }

  /** Reorganises from the current block to newBlock and makes newBlock the head.
      A branch that cannot be read back leaves everything as it was. */
  method Reorganise(x: Index, hs: Headers, txs: Bodies, available: set<Hash>, ghost genesis: Hash, newBlock: Hash)
    returns (ok: bool, x': Index, ghost fork: nat)
    requires Tree(hs, genesis) && txs.Keys == hs.Keys && x.current in hs && newBlock in hs
    requires Canonical(x.canon, hs, genesis, x.current) && Located(x.lookup, hs, txs, genesis, x.current)
    requires UniqueTxs(hs, txs, genesis, newBlock)
    ensures ForkAt(hs, genesis, x.current, newBlock, fork)
    ensures ok == (Readable(available, hs, genesis, x.current, fork)
                   && Readable(available, hs, genesis, newBlock, fork))
    ensures !ok ==> x' == x
    ensures ok ==> x'.current == newBlock && Located(x'.lookup, hs, txs, genesis, newBlock)
    ensures ok ==> (Canonical(x'.canon, hs, genesis, newBlock) <==>
                     (hs[newBlock].number - fork >= 2 || hs[newBlock].number >= hs[x.current].number))
  {
    var common, oldChain, newChain;
    ok, common, oldChain, newChain, fork := FindFork(hs, available, genesis, x.current, newBlock);
    x' := x;
    if !ok { return; }
    var deleted := DeletedTxs(hs, txs, genesis, x.current, oldChain, fork);
    var x1, added := InsertBranch(x, hs, txs, genesis, newBlock, newChain, fork);
    ghost var k := if |newChain| > 0 then hs[newBlock].number - 1 else fork;
    ghost var oldNumber := hs[x.current].number;
    var canon2 := DropAbove(x1.canon, hs[x1.current].number, if k > oldNumber then k else oldNumber);
    var x2 := Index(canon2, x1.lookup - (deleted - added), x1.current);
    LookupFollows(x.lookup, x1.lookup, added, deleted, hs, txs, genesis, x.current, newBlock, fork, k);
    IndexFollowsReorg(x.canon, x1.canon, canon2, hs, genesis, x.current, newBlock, fork, k);
    x' := HeadWritten(x2, hs, txs, newBlock);
  }

  /** Head, index and lookup agree. */
  ghost predicate IndexOk(x: Index, hs: Headers, txs: Bodies, genesis: Hash) {
    && Tree(hs, genesis) && txs.Keys == hs.Keys && x.current in hs
    && Canonical(x.canon, hs, genesis, x.current) && Located(x.lookup, hs, txs, genesis, x.current)
  }

  /** Putting a child on top of the head keeps head, index and lookup in agreement. */
  lemma ExtendsHead(x: Index, hs: Headers, txs: Bodies, genesis: Hash, block: Hash)
    requires IndexOk(x, hs, txs, genesis) && block in hs && block != genesis && hs[block].parent == x.current
    requires UniqueTxs(hs, txs, genesis, block)
    ensures IndexOk(HeadWritten(x, hs, txs, block), hs, txs, genesis)
    ensures ForkAt(hs, genesis, x.current, block, hs[x.current].number) && hs[block].number == hs[x.current].number + 1
  {
    var number := hs[block].number;
    var x' := HeadWritten(x, hs, txs, block);
    assert Placed(hs, genesis, block);
    forall n | 0 <= n < number ensures AncestorAt(hs, genesis, block, n) == AncestorAt(hs, genesis, x.current, n) {
      AncestorStep(hs, genesis, block, n);
    }
    forall t | t in x'.lookup ensures OnBranch(hs, txs, genesis, block, x'.lookup[t], t) {
      if t !in txs[block] { assert OnBranch(hs, txs, genesis, x.current, x.lookup[t], t); }
    }
    forall n: nat, t | OnBranch(hs, txs, genesis, block, n, t) ensures t in x'.lookup && x'.lookup[t] == n {
      if n < number {
        assert OnBranch(hs, txs, genesis, x.current, n, t);
        assert t in txs[block] ==> OnBranch(hs, txs, genesis, block, number, t);
      }
    }
  }

  /** Storing a block elsewhere in the tree leaves head, index and lookup in agreement. */
  lemma StoreGrows(x: Index, hs: Headers, txs: Bodies, hs': Headers, txs': Bodies, genesis: Hash)
    requires IndexOk(x, hs, txs, genesis) && Tree(hs', genesis) && txs'.Keys == hs'.Keys
    requires SameBlocks(hs, hs') && hs.Keys <= hs'.Keys && forall h :: h in hs ==> txs'[h] == txs[h]
    ensures IndexOk(x, hs', txs', genesis)
  {
    HeaderChains.CanonicalGrows(x.canon, hs, hs', genesis, x.current);
    forall n: nat, t
      ensures OnBranch(hs', txs', genesis, x.current, n, t) <==> OnBranch(hs, txs, genesis, x.current, n, t)
    {
      if n <= hs[x.current].number { AncestorsAgree(hs, hs', genesis, x.current, n); }
    }
  }

  /** All blocks after genesis have the same difficulty, as under proof of authority. */
  ghost predicate Uniform(hs: Headers, genesis: Hash, d: nat) {
    d > 0 && forall h :: h in hs && h != genesis ==> hs[h].difficulty == d
  }

  lemma {:induction false} UniformWeight(hs: Headers, genesis: Hash, d: nat, h: Hash)
    requires Tree(hs, genesis) && Uniform(hs, genesis, d) && h in hs
    ensures HeaderChains.TotalDifficulty(hs, genesis, h) == hs[genesis].difficulty + hs[h].number * d
    decreases hs[h].number
  {
    assert Placed(hs, genesis, h);
    if h != genesis {
      UniformWeight(hs, genesis, d, hs[h].parent);
      assert hs[h].number * d == (hs[h].number - 1) * d + d;
    }
  }

  /** With equal difficulties a branch that is not lighter is not shorter. */
  lemma UniformWinnersReach(hs: Headers, genesis: Hash, d: nat, a: Hash, b: Hash)
    requires Tree(hs, genesis) && Uniform(hs, genesis, d) && a in hs && b in hs
    requires HeaderChains.TotalDifficulty(hs, genesis, a) >= HeaderChains.TotalDifficulty(hs, genesis, b)
    ensures hs[a].number >= hs[b].number
  {
    UniformWeight(hs, genesis, d, a);
    UniformWeight(hs, genesis, d, b);
    MulGap(hs[a].number, hs[b].number, d);
  }

  lemma {:induction false} MulGap(a: nat, b: nat, d: nat)
    ensures a < b ==> a * d + d <= b * d
  {
    if a < b {
      assert b * d == (b - 1) * d + d;
      MulGap(a, b - 1, d);
    }
  }

  /** The block brings no transaction its ancestry already has. */
  ghost predicate NoReplay(hs: Headers, txs: Bodies, genesis: Hash, parent: Hash, body: set<TxHash>)
    requires Tree(hs, genesis) && txs.Keys == hs.Keys && parent in hs
  {
    UniqueTxs(hs, txs, genesis, parent) && forall n: nat, t :: OnBranch(hs, txs, genesis, parent, n, t) ==> t !in body
  }

  lemma ChildUnique(hs: Headers, txs: Bodies, genesis: Hash, block: Header, body: set<TxHash>)
    requires Tree(hs, genesis) && txs.Keys == hs.Keys && HeaderChains.Fits(hs, block) && block.hash !in hs
    requires NoReplay(hs, txs, genesis, block.parent, body) && Tree(hs[block.hash := block], genesis)
    ensures UniqueTxs(hs[block.hash := block], txs[block.hash := body], genesis, block.hash)
  {
    var hs', txs' := hs[block.hash := block], txs[block.hash := body];
    assert Placed(hs, genesis, genesis);
    forall n: nat, t | OnBranch(hs', txs', genesis, block.hash, n, t) && n < block.number
      ensures OnBranch(hs, txs, genesis, block.parent, n, t)
    {
      AncestorStep(hs', genesis, block.hash, n);
      AncestorsAgree(hs', hs, genesis, block.parent, n);
    }
  }

  /** The fork choice of writeBlockWithState: more difficulty, or as much with fewer
      blocks, or at equal height unless the current block is to be preserved. */
  predicate ChoosesBlock(externTd: nat, localTd: nat, number: nat, head: nat, currentPreserve: bool,
                         blockPreserve: bool, coin: bool)
  {
    externTd > localTd ||
    (externTd == localTd && (number < head || (number == head && !currentPreserve && (blockPreserve || coin))))
  }

  class BlockChain {
    var hs: Headers
    var txs: Bodies             // the transactions in each block
    var tds: map<Hash, nat>
    var available: set<Hash>    // blocks GetBlock can return
    ghost const genesis: Hash
    var index: Index

    ghost predicate Stored()
      reads this
    {
      Tree(hs, genesis) && txs.Keys == hs.Keys && HeaderChains.Weighed(tds, hs, genesis)
    }

    ghost predicate Valid()
      reads this
    {
      Stored() && IndexOk(index, hs, txs, genesis)
    }

    constructor (block: Header)
      requires block.hash != EMPTY && block.number == 0
      ensures Valid() && index.current == block.hash && genesis == block.hash
      ensures hs == map[block.hash := block] && txs == map[block.hash := {}] && available == {block.hash}
    {
      hs, txs, tds := map[block.hash := block], map[block.hash := {}], map[block.hash := block.difficulty];
      available, genesis := {block.hash}, block.hash;
      index := Index(map[0 := block.hash], map[], block.hash);
      new;
      assert Placed(hs, genesis, genesis);
    }

    /** Makes a stored block the head, reorganising unless it is on top of the head. */
    method WriteKnownBlock(block: Hash) returns (ok: bool, ghost fork: nat)
      requires Valid() && block in hs && block != genesis && UniqueTxs(hs, txs, genesis, block)
      modifies this`index
      ensures Stored() && ForkAt(hs, genesis, old(index.current), block, fork)
      ensures ok == (hs[block].parent == old(index.current) ||
                     (Readable(available, hs, genesis, old(index.current), fork)
                      && Readable(available, hs, genesis, block, fork)))
      ensures !ok ==> index == old(index) && Valid()
      ensures ok ==> index.current == block && Located(index.lookup, hs, txs, genesis, block)
      ensures ok ==> (Valid() <==>
                       (hs[block].number - fork >= 2 || hs[block].number >= hs[old(index.current)].number))
    {
      if hs[block].parent != index.current {
        var x;
        ok, x, fork := Reorganise(index, hs, txs, available, genesis, block);
        index := x;
      } else {
        ExtendsHead(index, hs, txs, genesis, block);
        fork := hs[index.current].number;
        ok, index := true, HeadWritten(index, hs, txs, block);
      }
    }

    /** Stores a processed block and, if it wins the fork choice, makes it the head. */
    method WriteBlock(block: Header, body: set<TxHash>, currentPreserve: bool, blockPreserve: bool, coin: bool)
      returns (ok: bool, won: bool, ghost fork: nat)
      requires Valid() && block.hash !in hs
      requires block.parent in hs ==> HeaderChains.Fits(hs, block) && NoReplay(hs, txs, genesis, block.parent, body)
      modifies this
      ensures Stored()
      ensures block.parent !in old(hs) ==> !ok && !won && Valid() && hs == old(hs) && index == old(index)
      ensures block.parent in old(hs) ==>
        && hs == old(hs)[block.hash := block] && txs == old(txs)[block.hash := body]
        && won == ChoosesBlock(tds[block.hash], old(tds)[old(index.current)], block.number,
                               old(hs[index.current]).number,
                               currentPreserve, blockPreserve, coin)
        && available == old(available) + {block.hash}
        && (won ==> ForkAt(hs, genesis, old(index.current), block.hash, fork))
        && ok == (!won || block.parent == old(index.current)
                  || (Readable(available, hs, genesis, old(index.current), fork)
                      && Readable(available, hs, genesis, block.hash, fork)))
        && (!won || !ok ==> index == old(index) && Valid())
        && (won && ok ==>
              && index.current == block.hash
              && Located(index.lookup, hs, txs, genesis, block.hash)
              && (Valid() <==> (block.number - fork >= 2 || block.number >= hs[old(index.current)].number)))
      ensures (exists d :: Uniform(hs, genesis, d)) ==> Valid()
    {
      ok, won, fork := false, false, 0;
      if block.parent !in tds {
        return;
      }
      HeaderChains.ChildStored(hs, tds, genesis, block);
      ChildUnique(hs, txs, genesis, block, body);
      StoreGrows(index, hs, txs, hs[block.hash := block], txs[block.hash := body], genesis);
      assert Placed(hs, genesis, genesis);
      var localTd, head := tds[index.current], hs[index.current].number;
      var externTd := tds[block.parent] + block.difficulty;
      hs, txs, tds := hs[block.hash := block], txs[block.hash := body], tds[block.hash := externTd];
      available := available + {block.hash};
      won := ChoosesBlock(externTd, localTd, block.number, head, currentPreserve, blockPreserve, coin);
      if won {
        if d :| Uniform(hs, genesis, d) {
          UniformWinnersReach(hs, genesis, d, block.hash, index.current);
        }
        ok, fork := WriteKnownBlock(block.hash);
      } else {
        ok := true;
      }
    }
  }
}
