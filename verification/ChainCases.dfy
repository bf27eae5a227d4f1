/** Runs of the header chain (core/headerchain.go) and the block chain (core/blockchain.go)
    in which the index or the caches do not follow.
 */
module ChainCases {
  import opened Chains
  import opened HeaderChains
  import opened BlockChains
  import Ancestry

  const GENESIS: Header := Header(1, EMPTY, 0, 1)

  /** The store has the header. */
  ghost predicate Has(hs: Headers, b: Header) {
    b.hash in hs && hs[b.hash] == b
  }

  /** A header weighs its difficulty more than its parent. */
  lemma Weight(hs: Headers, tds: map<Hash, nat>, genesis: Hash, b: Header)
    requires Tree(hs, genesis) && Weighed(tds, hs, genesis) && Has(hs, b)
    ensures b.hash in tds && (b.hash == genesis ==> tds[b.hash] == b.difficulty)
    ensures b.hash != genesis ==> b.parent in tds && tds[b.hash] == tds[b.parent] + b.difficulty
  {
    assert Placed(hs, genesis, b.hash);
  }

  lemma OneLinked(b: Header, hs: Headers)
    requires b.hash != EMPTY && b.difficulty > 0 && (b.hash in hs ==> Has(hs, b))
    requires b.parent in hs && hs[b.parent].number + 1 == b.number
    ensures LinkedBatch([b]) && Meets([b], hs)
  {
  }

  lemma TwoLinked(b: Header, c: Header, hs: Headers)
    requires b.hash != EMPTY && c.hash != EMPTY && b.difficulty > 0 && c.difficulty > 0 && b.hash != c.hash
    requires c.parent == b.hash && c.number == b.number + 1
    requires (b.hash in hs ==> Has(hs, b)) && (c.hash in hs ==> Has(hs, c))
    requires b.parent in hs && hs[b.parent].number + 1 == b.number
    ensures LinkedBatch([b, c]) && Meets([b, c], hs)
  {
    assert Follows([b, c], 1);
  }

  /** The batch is known up to where it is new. */
  lemma Counted(r: WriteResult, batch: seq<Header>, before: Headers, after: Headers, i: nat)
    requires Imported(r, batch, before, after) && i < |batch|
    ensures batch[i].hash in before <==> i < r.ignored
    ensures r.ignored + r.imported == |batch| && r.lastHash == batch[|batch| - 1].hash
  {
  }

  lemma StoredIn(batch: seq<Header>, hs: Headers, i: nat)
    requires StoredBatch(batch, hs) && i < |batch|
    ensures Has(hs, batch[i])
  {
  }

  /** A chain whose head has a stored child: both were stored as a side chain, and then
      only the first became the head. */
  method HeadWithChild(b: Header, c: Header) returns (chain: HeaderChain)
    requires b == Header(2, 1, 1, 1) && c == Header(3, 2, 2, 1)
    ensures fresh(chain) && chain.Valid() && chain.genesis == 1 && chain.current == b && !chain.Childless()
    ensures chain.headers == map[1 := GENESIS, 2 := b, 3 := c]
  {
    hide Tree, Weighed, Canonical, Positive, CachesAgree;
    chain := new HeaderChain(GENESIS);
    chain.WriteWithoutState(b);
    chain.WriteWithoutState(c);
    chain.WriteHead(2);
    assert chain.headers[3].parent == 2;
  }

  /** The known child with a new header on top of it: its entry is skipped. */
  method KnownChildSkipped() returns (chain: HeaderChain, r: WriteResult)
    ensures chain.Stored() && r == Written(CanonStatTy, 1, 1, 4) && chain.current.hash == 4 && !chain.Indexed()
  {
    hide Tree, Weighed, Canonical, Positive, CachesAgree, CachesSound, Hollow, LinkedBatch, Meets, Imported,
      StoredBatch, Leaf, Tore;
    var b, c, d := Header(2, 1, 1, 1), Header(3, 2, 2, 1), Header(4, 3, 3, 1);
    chain := HeadWithChild(b, c);
    ghost var hs := chain.headers;
    TwoLinked(c, d, hs);
    var batch := [c, d];
    chain.ValidReady(batch);
    r := chain.WriteHeaders(batch, false, false);
    Counted(r, batch, hs, chain.headers, 0);
    Counted(r, batch, hs, chain.headers, 1);
    StoredIn(batch, chain.headers, 0);
    StoredIn(batch, chain.headers, 1);
    Weight(chain.headers, chain.tds, 1, c);
    Weight(chain.headers, chain.tds, 1, d);
  }

  lemma StillThere(r: WriteResult, batch: seq<Header>, before: Headers, after: Headers, h: Hash)
    requires Imported(r, batch, before, after) && h in before
    ensures h in after && after[h] == before[h]
  {
  }

  /** A main chain of three, then a side block as heavy as the first two, then a rewind to
      the second: the side block now weighs as much as the head with fewer blocks. */
  method Rewound(main: seq<Header>, b: Header) returns (chain: HeaderChain)
    requires main == [Header(2, 1, 1, 1), Header(3, 2, 2, 1), Header(4, 3, 3, 1)] && b == Header(5, 1, 1, 2)
    ensures fresh(chain) && chain.Valid() && chain.genesis == 1 && chain.current == main[1]
    ensures Has(chain.headers, GENESIS) && Has(chain.headers, b)
    ensures chain.tds[3] == chain.tds[1] + 2 && chain.tds[5] == chain.tds[1] + 2
  {
    hide Tree, Weighed, Canonical, Positive, CachesAgree, CachesSound, Hollow, LinkedBatch, Meets, Imported,
      StoredBatch, Leaf, Tore;
    chain := new HeaderChain(GENESIS);
    ghost var hs := chain.headers;
    ThreeLinked(main, hs);
    chain.ValidReady(main);
    var r := chain.WriteHeaders(main, false, false);
    Counted(r, main, hs, chain.headers, 0);
    StoredIn(main, chain.headers, 0);
    StoredIn(main, chain.headers, 1);
    StoredIn(main, chain.headers, 2);
    StillThere(r, main, hs, chain.headers, 1);
    OnlyBatch(r, main, hs, chain.headers, 5);
    OneLinked(b, chain.headers);
    Weight(chain.headers, chain.tds, 1, main[0]);
    Weight(chain.headers, chain.tds, 1, main[1]);
    Weight(chain.headers, chain.tds, 1, main[2]);
    hs := chain.headers;
    chain.ValidReady([b]);
    r := chain.WriteHeaders([b], false, false);
    StoredIn([b], chain.headers, 0);
    StillThere(r, [b], hs, chain.headers, 1);
    StillThere(r, [b], hs, chain.headers, 2);
    StillThere(r, [b], hs, chain.headers, 3);
    StillThere(r, [b], hs, chain.headers, 4);
    Weight(chain.headers, chain.tds, 1, main[0]);
    Weight(chain.headers, chain.tds, 1, main[1]);
    Weight(chain.headers, chain.tds, 1, main[2]);
    Weight(chain.headers, chain.tds, 1, b);
    assert chain.current == main[2];
    ParentAt(chain.headers, 1, main[2]);
    chain.SetHead(2);
    Weight(chain.headers, chain.tds, 1, main[0]);
    Weight(chain.headers, chain.tds, 1, main[1]);
    Weight(chain.headers, chain.tds, 1, b);
  }

  lemma ThreeLinked(batch: seq<Header>, hs: Headers)
    requires batch == [Header(2, 1, 1, 1), Header(3, 2, 2, 1), Header(4, 3, 3, 1)] && hs == map[1 := GENESIS]
    ensures LinkedBatch(batch) && Meets(batch, hs)
  {
    assert Follows(batch, 1) && Follows(batch, 2);
  }

  lemma OnlyBatch(r: WriteResult, batch: seq<Header>, before: Headers, after: Headers, h: Hash)
    requires Imported(r, batch, before, after) && StoredBatch(batch, after)
    requires h !in before && forall i :: 0 <= i < |batch| ==> batch[i].hash != h
    requires Tree(after, 1)
    ensures h !in after
  {
    forall x | x in after ensures after[x].hash == x {
      assert Placed(after, 1, x);
    }
  }

  lemma ParentAt(hs: Headers, genesis: Hash, b: Header)
    requires Tree(hs, genesis) && Has(hs, b) && b.hash != genesis
    ensures b.number > 0 && b.parent in hs && hs[b.parent].number == b.number - 1
    ensures AncestorAt(hs, genesis, b.hash, b.number - 1) == b.parent
  {
    assert Placed(hs, genesis, b.hash);
  }

  /** A batch of known headers that wins: the head moves and the index does not. */
  method KnownBatchUnindexed() returns (chain: HeaderChain, r: WriteResult)
    ensures chain.Stored() && r == Written(NonStatTy, 1, 0, 5) && chain.current.hash == 5 && !chain.Indexed()
  {
    hide Tree, Weighed, Canonical, Positive, CachesAgree, CachesSound, Hollow, LinkedBatch, Meets, Imported,
      StoredBatch, Leaf, Tore;
    var main, b := [Header(2, 1, 1, 1), Header(3, 2, 2, 1), Header(4, 3, 3, 1)], Header(5, 1, 1, 2);
    chain := Rewound(main, b);
    ghost var hs := chain.headers;
    OneLinked(b, chain.headers);
    Weight(chain.headers, chain.tds, 1, GENESIS);
    chain.ValidReady([b]);
    r := chain.WriteHeaders([b], false, false);
    Counted(r, [b], hs, chain.headers, 0);
    StoredIn([b], chain.headers, 0);
    StillThere(r, [b], hs, chain.headers, 1);
    Weight(chain.headers, chain.tds, 1, b);
    Weight(chain.headers, chain.tds, 1, GENESIS);
  }

  /** An interrupted import leaves a header in the caches that the database does not have. */
  method AbortedAhead() returns (chain: HeaderChain, r: WriteResult)
    ensures fresh(chain) && chain.Stored() && chain.Indexed() && r == Aborted && !chain.CachesOk()
    ensures CachesSound(chain.headers, chain.tds, chain.caches) && chain.genesis == 1 && chain.current == GENESIS
    ensures chain.headers == map[1 := GENESIS] && Found(chain.headers, chain.caches, 2)
  {
    hide Tree, Weighed, Canonical, Positive, CachesAgree, CachesSound, Hollow, LinkedBatch, Meets, Imported,
      StoredBatch, Leaf, Tore;
    var b := Header(2, 1, 1, 1);
    chain := new HeaderChain(GENESIS);
    OneLinked(b, chain.headers);
    var batch := [b];
    chain.ValidReady(batch);
    r := chain.WriteHeaders(batch, true, false);
    assert b in batch;
  }

  lemma FirstHollow(hs: Headers, c: Caches, batch: seq<Header>)
    requires |batch| > 0 && batch[0].hash !in hs && Found(hs, c, batch[0].hash)
    ensures Hollow(hs, c, batch)
  {
    assert Prefixed(hs, c, batch, 0);
  }

  /** The interrupted header imported again: it becomes the head, and is not stored. */
  method AbortedLost() returns (chain: HeaderChain, r: WriteResult)
    ensures r == Written(NonStatTy, 1, 0, 2) && chain.current.hash == 2 && 2 !in chain.headers
  {
    hide Tree, Weighed, Canonical, Positive, CachesAgree, CachesSound, Hollow, LinkedBatch, Meets, Imported,
      StoredBatch, Leaf;
    chain, r := AbortedAhead();
    var b := Header(2, 1, 1, 1);
    var batch := [b];
    OneLinked(b, chain.headers);
    FirstHollow(chain.headers, chain.caches, batch);
    ghost var tds := chain.tds;
    Weight(chain.headers, tds, 1, GENESIS);
    r := chain.WriteHeaders(batch, false, false);
    assert Heft(batch) == 1;
  }

  /** Blocks without transactions replay none. */
  lemma NoneReplayed(hs: Headers, txs: Bodies, genesis: Hash, parent: Hash)
    requires Tree(hs, genesis) && txs.Keys == hs.Keys && parent in hs && forall h :: h in txs ==> txs[h] == {}
    ensures NoReplay(hs, txs, genesis, parent, {})
  {
  }

  /** The chain has the given blocks, without transactions and all to be read back. */
  ghost predicate Plain(chain: BlockChain, hs: Headers, head: Hash)
    reads chain
  {
    && chain.Valid() && chain.genesis == 1 && chain.hs == hs && chain.index.current == head
    && chain.available == hs.Keys && forall h :: h in chain.txs ==> chain.txs[h] == {}
  }

  /** A block on top of the head. */
  method OnTop(chain: BlockChain, b: Header, ghost hs: Headers)
    requires Plain(chain, hs, b.parent) && 1 in hs && b.parent in hs && b.number == hs[b.parent].number + 1
    requires b.hash !in hs && b.hash != EMPTY && b.difficulty > 0 && hs[b.parent].hash == b.parent
    modifies chain
    ensures Plain(chain, hs[b.hash := b], b.hash)
  {
    hide Tree, Canonical, Located, UniqueTxs, Weighed, Readable, Uniform, ForkAt;
    NoneReplayed(hs, chain.txs, 1, b.parent);
    ghost var tds := chain.tds;
    Weight(hs, tds, 1, hs[b.parent]);
    var ok, won, fork := chain.WriteBlock(b, {}, false, false, false);
    Weight(chain.hs, chain.tds, 1, b);
    SameWeight(hs, tds, chain.hs, chain.tds, 1, b.parent);
    ForkOnTop(chain.hs, 1, b, fork);
  }

  lemma SameWeight(hs: Headers, tds: map<Hash, nat>, hs': Headers, tds': map<Hash, nat>, genesis: Hash, h: Hash)
    requires Tree(hs, genesis) && Weighed(tds, hs, genesis) && Tree(hs', genesis) && Weighed(tds', hs', genesis)
    requires SameBlocks(hs, hs') && h in hs && h in hs'
    ensures tds'[h] == tds[h]
  {
    WeightsAgree(hs, hs', genesis, h);
  }

  lemma ForkOnTop(hs: Headers, genesis: Hash, b: Header, fork: nat)
    requires Tree(hs, genesis) && Has(hs, b) && b.hash != genesis && b.parent in hs
    requires ForkAt(hs, genesis, b.parent, b.hash, fork)
    ensures fork < b.number
  {
    ParentAt(hs, genesis, b);
  }

  /** A single block of higher difficulty below the height of the old head: it wins, and the
      entry of the old head's number stays. */
  method ShortBranchUnindexed() returns (chain: BlockChain)
    ensures chain.Stored() && chain.index.current == 4 && !chain.Valid()
  {
    hide Tree, Canonical, Located, UniqueTxs, Weighed, Readable, Uniform, ForkAt;
    var a1, a2, b := Header(2, 1, 1, 1), Header(3, 2, 2, 1), Header(4, 1, 1, 3);
    chain := new BlockChain(GENESIS);
    OnTop(chain, a1, map[1 := GENESIS]);
    OnTop(chain, a2, map[1 := GENESIS, 2 := a1]);
    NoneReplayed(chain.hs, chain.txs, 1, 1);
    Weight(chain.hs, chain.tds, 1, a2);
    Weight(chain.hs, chain.tds, 1, a1);
    Weight(chain.hs, chain.tds, 1, GENESIS);
    var ok, won, fork := chain.WriteBlock(b, {}, false, false, false);
    Weight(chain.hs, chain.tds, 1, b);
    Weight(chain.hs, chain.tds, 1, GENESIS);
    Sides(chain.hs, chain.available, 1, a1, a2, b, fork);
  }

  /** Two blocks against one from the same parent. */
  lemma Sides(hs: Headers, available: set<Hash>, genesis: Hash, a1: Header, a2: Header, b: Header, fork: nat)
    requires Tree(hs, genesis) && Has(hs, a1) && Has(hs, a2) && Has(hs, b) && a2.parent == a1.hash != b.hash
    requires a1.parent == b.parent == genesis && a1.number == b.number == 1 && a2.number == 2
    requires a1.hash in available && genesis in available && ForkAt(hs, genesis, a2.hash, b.hash, fork)
    ensures fork == 0 && Readable(available, hs, genesis, a2.hash, 0) && Readable(available, hs, genesis, b.hash, 0)
  {
    assert Placed(hs, genesis, genesis);
    ParentAt(hs, genesis, a2);
    Rooted(hs, genesis, a2.hash);
    Rooted(hs, genesis, b.hash);
    forall m | 0 <= m < 2 ensures AncestorAt(hs, genesis, a2.hash, m) in available {
      assert m == 0 || m == 1;
    }
  }

  /** The empty hash above the head passes for canonical: its ancestor is the genesis block. */
  method EmptyHashAnswered() returns (found: Hash)
    ensures found == GENESIS.hash
  {
    var canon, hs := map[0 := 1], map[1 := GENESIS];
    assert Placed(hs, 1, 1);
    var at, max;
    found, at, max := Ancestry.GetAncestor(canon, hs, 1, 1, EMPTY, 2, 2, 10);
  }
}
