/** The header chain (core/headerchain.go): stored headers and total
    difficulties, the canonical number-to-hash index, the current header, and
    the caches in front of the database.
 */
module HeaderChains {
  import opened Chains
  import opened Options
  import Heap

  datatype WriteStatus = NonStatTy | CanonStatTy | SideStatTy

  datatype WriteResult =
    | Written(status: WriteStatus, ignored: nat, imported: nat, lastHash: Hash)
    | UnknownAncestor
    | Aborted

  /** Difficulty summed over h and all its ancestors. */
  ghost function TotalDifficulty(hs: Headers, genesis: Hash, h: Hash): nat
    requires Tree(hs, genesis) && h in hs
    decreases hs[h].number
  {
    assert Placed(hs, genesis, h);
    if h == genesis then hs[h].difficulty
    else TotalDifficulty(hs, genesis, hs[h].parent) + hs[h].difficulty
  }

  /** Every stored header has its total difficulty next to it. */
  ghost predicate Weighed(tds: map<Hash, nat>, hs: Headers, genesis: Hash)
    requires Tree(hs, genesis)
  {
    tds.Keys == hs.Keys && forall h :: h in tds ==> tds[h] == TotalDifficulty(hs, genesis, h)
  }

  /** Consensus rules out blocks without difficulty. */
  ghost predicate Positive(hs: Headers, genesis: Hash) {
    forall h :: h in hs && h != genesis ==> hs[h].difficulty > 0
  }

  ghost predicate Leaf(hs: Headers, genesis: Hash, h: Hash) {
    forall c :: c in hs && c != genesis ==> hs[c].parent != h
  }

  lemma {:induction false} WeightsAgree(a: Headers, b: Headers, genesis: Hash, h: Hash)
    requires Tree(a, genesis) && Tree(b, genesis) && SameBlocks(a, b) && h in a && h in b
    ensures TotalDifficulty(a, genesis, h) == TotalDifficulty(b, genesis, h)
    decreases a[h].number
  {
    assert Placed(a, genesis, h) && Placed(b, genesis, h);
    if h != genesis {
      WeightsAgree(a, b, genesis, a[h].parent);
    }
  }

  /** A child of a stored header may be stored. */
  ghost predicate Fits(hs: Headers, header: Header) {
    && header.hash != EMPTY && header.difficulty > 0
    && header.parent in hs && header.number == hs[header.parent].number + 1
    && (header.hash in hs ==> hs[header.hash] == header)
  }

  /** Storing a child and its total difficulty keeps the store in order and leaves
      all that was stored as it was. */
  lemma ChildStored(hs: Headers, tds: map<Hash, nat>, genesis: Hash, header: Header)
    requires Tree(hs, genesis) && Weighed(tds, hs, genesis) && Fits(hs, header)
    ensures var hs' := hs[header.hash := header];
            var tds' := tds[header.hash := tds[header.parent] + header.difficulty];
      && Tree(hs', genesis) && SameBlocks(hs, hs') && Weighed(tds', hs', genesis)
  {
    var hs' := hs[header.hash := header];
    var tds' := tds[header.hash := tds[header.parent] + header.difficulty];
    assert Placed(hs, genesis, genesis);
    forall h | h in hs' ensures Placed(hs', genesis, h) {
      if h in hs { assert Placed(hs, genesis, h); }
    }
    forall h | h in tds' ensures tds'[h] == TotalDifficulty(hs', genesis, h) {
      if h in hs { WeightsAgree(hs, hs', genesis, h); }
      if h == header.hash {
        WeightsAgree(hs, hs', genesis, header.parent);
        if h in hs { assert Placed(hs, genesis, h); }
      }
    }
  }

  /** The index still fits after the store grew. */
  lemma CanonicalGrows(canon: map<nat, Hash>, hs: Headers, hs': Headers, genesis: Hash, head: Hash)
    requires Tree(hs, genesis) && Tree(hs', genesis) && SameBlocks(hs, hs') && hs.Keys <= hs'.Keys
    requires Canonical(canon, hs, genesis, head)
    ensures Canonical(canon, hs', genesis, head)
  {
    forall n | n in canon ensures canon[n] == AncestorAt(hs', genesis, head, n) {
      AncestorsAgree(hs, hs', genesis, head, n);
    }
  }

  /** Headers as the consensus engine has verified them: linked, numbered upwards,
      each identified by its hash. */
  ghost predicate LinkedBatch(batch: seq<Header>) {
    && (forall i {:trigger batch[i]} :: 0 <= i < |batch| ==> batch[i].hash != EMPTY && batch[i].difficulty > 0)
    && (forall i, j :: 0 <= i < j < |batch| ==> batch[i].hash != batch[j].hash)
    && (forall i :: 1 <= i < |batch| ==> Follows(batch, i))
  }

  ghost predicate Follows(batch: seq<Header>, i: nat)
    requires 1 <= i < |batch|
  {
    batch[i].parent == batch[i - 1].hash && batch[i].number == batch[i - 1].number + 1
  }

  /** The batch agrees with the store wherever they meet. */
  ghost predicate Meets(batch: seq<Header>, hs: Headers) {
    && (forall i {:trigger batch[i]} :: 0 <= i < |batch| && batch[i].hash in hs ==> hs[batch[i].hash] == batch[i])
    && (|batch| > 0 && batch[0].parent in hs ==> batch[0].number == hs[batch[0].parent].number + 1)
  }

  /** A verified batch whose first parent is stored. */
  ghost predicate Importable(batch: seq<Header>, hs: Headers) {
    |batch| > 0 && LinkedBatch(batch) && Meets(batch, hs) && batch[0].parent in hs
  }

  /** Canonical entries above the new head, as the deletion loop finds them. */
  method StaleAbove(canon: map<nat, Hash>, last: nat, ghost top: nat) returns (stale: set<nat>)
    requires forall n :: n in canon <==> 0 <= n <= top
    ensures stale == set n | n in canon && n > last
  {
    stale := {};
    var i := last + 1;
    while i in canon
      invariant last < i && stale == set n | n in canon && last < n < i
      decreases top + 1 - i
    {
      stale := stale + {i};
      i := i + 1;
    }
  }

  /** Walks back from h, noting the index entries to overwrite, until the index
      already agrees. */
  method Backfill(canon: map<nat, Hash>, hs: Headers, ghost genesis: Hash, ghost head: Hash, h: Hash)
    returns (writes: map<nat, Hash>, ghost fork: nat)
    requires Tree(hs, genesis) && Canonical(canon, hs, genesis, head) && h in hs
    ensures fork <= hs[h].number && fork in canon
    ensures forall n :: n in writes <==> fork < n <= hs[h].number
    ensures forall n :: n in writes ==> writes[n] == AncestorAt(hs, genesis, h, n)
    ensures forall n :: 0 <= n <= fork ==> canon[n] == AncestorAt(hs, genesis, h, n)
    ensures forall n :: fork < n <= hs[h].number && n in canon ==> canon[n] != AncestorAt(hs, genesis, h, n)
  {
    writes := map[];
    var headHash: Hash, headNumber: nat := h, hs[h].number;
    while !(headNumber in canon && canon[headNumber] == headHash)
      invariant headNumber <= hs[h].number && headHash == AncestorAt(hs, genesis, h, headNumber)
      invariant forall n :: n in writes <==> headNumber < n <= hs[h].number
      invariant forall n :: n in writes ==> writes[n] == AncestorAt(hs, genesis, h, n)
      invariant forall n :: headNumber < n <= hs[h].number && n in canon ==> canon[n] != AncestorAt(hs, genesis, h, n)
      decreases headNumber
    {
      if headNumber == 0 {
        Rooted(hs, genesis, h);
        Rooted(hs, genesis, head);
        assert false;
      }
      AncestorStep(hs, genesis, h, headNumber - 1);
      writes := writes[headNumber := headHash];
      headHash, headNumber := hs[headHash].parent, headNumber - 1;
    }
    fork := headNumber;
    forall n | 0 <= n <= fork ensures canon[n] == AncestorAt(hs, genesis, h, n) {
      SharedBelow(canon, hs, genesis, head, h, fork, n);
    }
  }

  /** The stored ancestor of the last of a linked batch is the batch's own header,
      or an ancestor of the batch's first parent. */
  lemma {:induction false} BatchAncestors(hs: Headers, genesis: Hash, batch: seq<Header>, i: nat, n: nat)
    requires Tree(hs, genesis) && LinkedBatch(batch) && i < |batch|
    requires forall j :: 0 <= j <= i ==> batch[j].hash in hs && hs[batch[j].hash] == batch[j]
    requires batch[0].parent in hs && batch[0].number == hs[batch[0].parent].number + 1
    requires n <= batch[i].number
    ensures batch[i].number == batch[0].number + i
    ensures AncestorAt(hs, genesis, batch[i].hash, n) ==
            if n < batch[0].number then AncestorAt(hs, genesis, batch[0].parent, n)
            else batch[n - batch[0].number].hash
    decreases i
  {
    if i > 0 {
      assert Follows(batch, i);
      BatchAncestors(hs, genesis, batch, i - 1, if n < batch[i].number then n else 0);
    }
    if n < batch[i].number {
      AncestorStep(hs, genesis, batch[i].hash, n);
    }
  }

  /** r is base with the entries of a run of headers, numbered from lo, written over it. */
  ghost predicate Overwritten(r: map<nat, Hash>, base: map<nat, Hash>, part: seq<Header>, lo: nat) {
    && (forall n :: n in r <==> n in base || lo <= n < lo + |part|)
    && (forall n :: n in r ==> r[n] == if lo <= n < lo + |part| then part[n - lo].hash else base[n])
  }

  ghost predicate NumberedFrom(part: seq<Header>, lo: nat) {
    forall i :: 0 <= i < |part| ==> part[i].number == lo + i
  }

  /** Writes the index entries of headers one by one. */
  method WriteEntries(base: map<nat, Hash>, part: seq<Header>, ghost lo: nat) returns (r: map<nat, Hash>)
    requires NumberedFrom(part, lo)
    ensures Overwritten(r, base, part, lo)
  {
    r := base;
    for i := 0 to |part|
      invariant Overwritten(r, base, part[..i], lo)
    {
      r := r[part[i].number := part[i].hash];
    }
    assert part[..|part|] == part;
  }

  lemma OverwrittenTwice(r: map<nat, Hash>, mid: map<nat, Hash>, base: map<nat, Hash>, batch: seq<Header>, k: nat,
                         lo: nat)
    requires k <= |batch| && Overwritten(mid, base, batch[..k], lo) && Overwritten(r, mid, batch[k..], lo + k)
    ensures Overwritten(r, base, batch, lo)
  {
  }

  /** A linked batch stored on top of a stored parent. */
  ghost predicate StoredBatch(batch: seq<Header>, hs: Headers) {
    && |batch| > 0 && LinkedBatch(batch)
    && (forall j {:trigger batch[j]} :: 0 <= j < |batch| ==> batch[j].hash in hs && hs[batch[j].hash] == batch[j])
    && batch[0].parent in hs && batch[0].number == hs[batch[0].parent].number + 1
  }

  lemma StoredBatchNumbers(batch: seq<Header>, hs: Headers, genesis: Hash)
    requires Tree(hs, genesis) && StoredBatch(batch, hs)
    ensures NumberedFrom(batch, batch[0].number)
  {
    forall i | 0 <= i < |batch| ensures batch[i].number == batch[0].number + i {
      BatchAncestors(hs, genesis, batch, i, 0);
    }
  }

  /** What the walk back from h and the deletion above `last` leave of the index:
      up to h's number the ancestry of h, beyond it the old entries up to last. */
  ghost predicate Rebased(base: map<nat, Hash>, canon: map<nat, Hash>, hs: Headers, genesis: Hash, h: Hash, last: nat)
    requires Tree(hs, genesis) && h in hs
  {
    && (forall n :: n in base <==> 0 <= n <= hs[h].number || (n in canon && n <= last))
    && (forall n :: n in base ==>
          base[n] == if n <= hs[h].number then AncestorAt(hs, genesis, h, n) else canon[n])
  }

  lemma BackfillRebases(canon: map<nat, Hash>, hs: Headers, genesis: Hash, head: Hash, h: Hash, last: nat,
                        stale: set<nat>, writes: map<nat, Hash>, fork: nat)
    requires Tree(hs, genesis) && Canonical(canon, hs, genesis, head) && h in hs && hs[h].number <= last
    requires stale == set n | n in canon && n > last
    requires fork <= hs[h].number && fork in canon
    requires forall n :: n in writes <==> fork < n <= hs[h].number
    requires forall n :: n in writes ==> writes[n] == AncestorAt(hs, genesis, h, n)
    requires forall n :: 0 <= n <= fork ==> canon[n] == AncestorAt(hs, genesis, h, n)
    ensures Rebased((canon - stale) + writes, canon, hs, genesis, h, last)
  {
  }

  /** With all its entries written, the index is the ancestry of the batch's last header. */
  lemma IndexFollows(r: map<nat, Hash>, base: map<nat, Hash>, canon: map<nat, Hash>, hs: Headers, genesis: Hash,
                     batch: seq<Header>)
    requires Tree(hs, genesis) && StoredBatch(batch, hs)
    requires Rebased(base, canon, hs, genesis, batch[0].parent, batch[|batch| - 1].number)
    requires Overwritten(r, base, batch, batch[0].number)
    ensures Canonical(r, hs, genesis, batch[|batch| - 1].hash)
  {
    StoredBatchNumbers(batch, hs, genesis);
    var last := batch[|batch| - 1];
    forall n ensures n in r <==> 0 <= n <= last.number {
    }
    forall n | n in r ensures r[n] == AncestorAt(hs, genesis, last.hash, n) {
      BatchAncestors(hs, genesis, batch, |batch| - 1, n);
    }
  }

  /** With none of its entries written, the index follows the batch only if it
      already did. */
  lemma IndexFollowsIff(base: map<nat, Hash>, canon: map<nat, Hash>, hs: Headers, genesis: Hash, head: Hash,
                        batch: seq<Header>)
    requires Tree(hs, genesis) && StoredBatch(batch, hs) && Canonical(canon, hs, genesis, head)
    requires Rebased(base, canon, hs, genesis, batch[0].parent, batch[|batch| - 1].number)
    ensures var last := batch[|batch| - 1];
      Canonical(base, hs, genesis, last.hash) <==> (last.number in canon && canon[last.number] == last.hash)
  {
    StoredBatchNumbers(batch, hs, genesis);
    var last := batch[|batch| - 1];
    if last.number in canon && canon[last.number] == last.hash {
      forall n | 0 <= n <= last.number ensures n in base && base[n] == AncestorAt(hs, genesis, last.hash, n) {
        SharedBelow(canon, hs, genesis, head, last.hash, last.number, n);
        BatchAncestors(hs, genesis, batch, |batch| - 1, n);
      }
    }
    if Canonical(base, hs, genesis, last.hash) {
      assert last.number in base && base[last.number] == last.hash;
    }
  }

  /** The LRU caches in front of the database; an insertion may evict any entries. */
  datatype Caches = Caches(header: Headers, td: map<Hash, nat>, number: map<Hash, nat>)

  /** What the caches hold is what the store holds. */
  ghost predicate CachesAgree(hs: Headers, tds: map<Hash, nat>, c: Caches) {
    && (forall h :: h in c.header ==> h in hs && c.header[h] == hs[h])
    && (forall h :: h in c.td ==> h in tds && c.td[h] == tds[h])
    && (forall h :: h in c.number ==> h in hs && c.number[h] == hs[h].number)
  }

  /** What the caches hold of stored headers is what the store holds; they may be ahead
      of it. */
  ghost predicate CachesSound(hs: Headers, tds: map<Hash, nat>, c: Caches) {
    && (forall h :: h in c.header && h in hs ==> c.header[h] == hs[h])
    && (forall h :: h in c.td && h in tds ==> c.td[h] == tds[h])
    && (forall h :: h in c.number && h in hs ==> c.number[h] == hs[h].number)
  }

  /** The header is in the store or in a cache that HasHeader asks. */
  predicate Found(hs: Headers, c: Caches, h: Hash) {
    h in c.number || h in c.header || h in hs
  }

  /** Adds a header on its way into the store to the caches. */
  method Cache(c: Caches, header: Header, td: nat, ghost hs: Headers, ghost tds: map<Hash, nat>) returns (c': Caches)
    requires CachesSound(hs, tds, c)
    ensures CachesSound(hs[header.hash := header], tds[header.hash := td], c')
    ensures CachesAgree(hs, tds, c) ==> CachesAgree(hs[header.hash := header], tds[header.hash := td], c')
    ensures header.hash in c'.header && header.hash in c'.td && header.hash in c'.number
  {
    var e1 :| e1 <= c.header.Keys;
    var e2 :| e2 <= c.td.Keys;
    var e3 :| e3 <= c.number.Keys;
    c' := Caches((c.header - e1)[header.hash := header], (c.td - e2)[header.hash := td],
                 (c.number - e3)[header.hash := header.number]);
  }

  /** The storing loop before header i: the batch so far is in the store with the
      pending writes, and `first` is the first header that was not stored before. */
  ghost predicate Filling(hs: Headers, tds: map<Hash, nat>, genesis: Hash, batch: seq<Header>, i: nat,
                          hs': Headers, tds': map<Hash, nat>, newTD: nat, first: int) {
    && |batch| > 0 && i <= |batch| && hs.Keys <= hs'.Keys && SameBlocks(hs, hs')
    && Tree(hs', genesis) && Weighed(tds', hs', genesis) && Positive(hs', genesis)
    && (forall j {:trigger batch[j]} :: 0 <= j < i ==> batch[j].hash in hs' && hs'[batch[j].hash] == batch[j])
    && (forall h :: h in hs' && h !in hs ==> hs'[h] in batch && hs'[h].number < batch[0].number + i && tds'[h] <= newTD)
    && (forall j {:trigger batch[j]} :: i <= j < |batch| ==> (batch[j].hash in hs' <==> batch[j].hash in hs))
    && (i > 0 ==> batch[i - 1].number + 1 == batch[0].number + i)
    && -1 <= first < i
    && (forall j {:trigger batch[j]} :: 0 <= j < i ==> (batch[j].hash in hs <==> first < 0 || j < first))
    && (if i == 0 then batch[0].parent in tds' && newTD == tds'[batch[0].parent]
        else newTD == tds'[batch[i - 1].hash])
  }

  lemma FillingStarts(hs: Headers, tds: map<Hash, nat>, genesis: Hash, batch: seq<Header>)
    requires Tree(hs, genesis) && Weighed(tds, hs, genesis) && Positive(hs, genesis)
    requires |batch| > 0 && batch[0].parent in hs
    ensures Filling(hs, tds, genesis, batch, 0, hs, tds, tds[batch[0].parent], -1)
  {
  }

  lemma FillingFits(hs: Headers, tds: map<Hash, nat>, genesis: Hash, batch: seq<Header>, i: nat,
                    hs': Headers, tds': map<Hash, nat>, newTD: nat, first: int)
    requires Tree(hs, genesis) && Importable(batch, hs) && i < |batch|
    requires Filling(hs, tds, genesis, batch, i, hs', tds', newTD, first)
    ensures Fits(hs', batch[i]) && newTD == tds'[batch[i].parent]
    ensures batch[i].hash in hs' <==> batch[i].hash in hs
    ensures first >= 0 ==> batch[i].hash !in hs
  {
    if i > 0 {
      assert Follows(batch, i);
      if batch[i].hash in hs {
        assert hs[batch[i].hash] == batch[i];
        assert Placed(hs, genesis, batch[i].hash);
        assert Placed(hs', genesis, batch[i - 1].hash);
      }
    }
  }

  lemma FillingKnown(hs: Headers, tds: map<Hash, nat>, genesis: Hash, batch: seq<Header>, i: nat,
                     hs': Headers, tds': map<Hash, nat>, newTD: nat, first: int)
    requires Tree(hs, genesis) && Importable(batch, hs) && i < |batch|
    requires Filling(hs, tds, genesis, batch, i, hs', tds', newTD, first) && batch[i].hash in hs
    ensures Filling(hs, tds, genesis, batch, i + 1, hs', tds', newTD + batch[i].difficulty, first)
  {
    FillingFits(hs, tds, genesis, batch, i, hs', tds', newTD, first);
    var h := batch[i].hash;
    assert i > 0 ==> Follows(batch, i);
    assert Placed(hs', genesis, h);
    assert Placed(hs', genesis, batch[i].parent);
  }

  lemma FillingNew(hs: Headers, tds: map<Hash, nat>, genesis: Hash, batch: seq<Header>, i: nat,
                   hs': Headers, tds': map<Hash, nat>, newTD: nat, first: int)
    requires Tree(hs, genesis) && Importable(batch, hs) && i < |batch|
    requires Filling(hs, tds, genesis, batch, i, hs', tds', newTD, first) && batch[i].hash !in hs
    ensures var b := batch[i];
      Filling(hs, tds, genesis, batch, i + 1, hs'[b.hash := b], tds'[b.hash := newTD + b.difficulty],
              newTD + b.difficulty, if first < 0 then i else first)
  {
    FillingFits(hs, tds, genesis, batch, i, hs', tds', newTD, first);
    ChildStored(hs', tds', genesis, batch[i]);
    assert i > 0 ==> Follows(batch, i);
    assert Placed(hs, genesis, genesis);
  }

  /** The state of the storing loop of writeHeaders. */
  datatype Import = Import(hs: Headers, tds: map<Hash, nat>, newTD: nat, first: int, caches: Caches)

  ghost predicate Importing(hs: Headers, tds: map<Hash, nat>, genesis: Hash, batch: seq<Header>, i: nat, s: Import) {
    Filling(hs, tds, genesis, batch, i, s.hs, s.tds, s.newTD, s.first)
  }

  /** The difficulty of a run of headers. */
  function Heft(part: seq<Header>): nat {
    if part == [] then 0 else Heft(part[..|part| - 1]) + part[|part| - 1].difficulty
  }

  /** The store with a run of headers laid over it, one after the other. */
  function Laid(hs: Headers, part: seq<Header>): Headers {
    if part == [] then hs
    else var k := |part| - 1; Laid(hs, part[..k])[part[k].hash := part[k]]
  }

  /** The total difficulties with those of a run of headers on top of td laid over them. */
  function LaidTds(tds: map<Hash, nat>, part: seq<Header>, td: nat): map<Hash, nat> {
    if part == [] then tds
    else var k := |part| - 1; LaidTds(tds, part[..k], td)[part[k].hash := td + Heft(part)]
  }

  /** The storing loop before header i, in what it asks and writes: every header before
      `first` was found, `first` itself was not, and from there on all are written. */
  ghost predicate Laying(hs: Headers, tds: map<Hash, nat>, c: Caches, batch: seq<Header>, ptd: nat, i: nat, s: Import) {
    && i <= |batch| && -1 <= s.first < i
    && (forall j {:trigger batch[j]} :: 0 <= j < i && (s.first < 0 || j < s.first) ==> Found(hs, c, batch[j].hash))
    && (if s.first < 0 then s.caches == c && s.hs == hs && s.tds == tds
        else
          && !Found(hs, c, batch[s.first].hash)
          && s.hs == Laid(hs, batch[s.first..i])
          && s.tds == LaidTds(tds, batch[s.first..i], ptd + Heft(batch[..s.first])))
    && s.newTD == ptd + Heft(batch[..i])
  }

  lemma {:induction false} HeftSplits(batch: seq<Header>, k: nat, i: nat)
    requires k <= i <= |batch|
    ensures Heft(batch[..i]) == Heft(batch[..k]) + Heft(batch[k..i])
    decreases i
  {
    if i == k {
      assert batch[k..i] == [];
    } else {
      HeftSplits(batch, k, i - 1);
      assert batch[..i][..i - 1] == batch[..i - 1];
      assert batch[k..i][..i - k - 1] == batch[k..i - 1];
    }
  }

  lemma LaidMore(hs: Headers, tds: map<Hash, nat>, batch: seq<Header>, k: nat, i: nat, td: nat)
    requires k <= i < |batch|
    ensures Laid(hs, batch[k..i + 1]) == Laid(hs, batch[k..i])[batch[i].hash := batch[i]]
    ensures LaidTds(tds, batch[k..i + 1], td) ==
            LaidTds(tds, batch[k..i], td)[batch[i].hash := td + Heft(batch[k..i + 1])]
    ensures k == i ==> Laid(hs, batch[k..i]) == hs && LaidTds(tds, batch[k..i], td) == tds
  {
    var part := batch[k..i + 1];
    assert part[..i - k] == batch[k..i] && part[|part| - 1] == batch[i];
  }

  lemma HeftMore(batch: seq<Header>, i: nat)
    requires i < |batch|
    ensures Heft(batch[..i + 1]) == Heft(batch[..i]) + batch[i].difficulty
  {
    assert batch[..i + 1][..i] == batch[..i];
  }

  lemma LayingNew(hs: Headers, tds: map<Hash, nat>, c: Caches, batch: seq<Header>, ptd: nat, i: nat, s: Import,
                  caches: Caches)
    requires Laying(hs, tds, c, batch, ptd, i, s) && i < |batch| && (s.first < 0 ==> !Found(hs, c, batch[i].hash))
    ensures var b := batch[i];
      var newTD := s.newTD + b.difficulty;
      Laying(hs, tds, c, batch, ptd, i + 1,
             Import(s.hs[b.hash := b], s.tds[b.hash := newTD], newTD, if s.first < 0 then i else s.first, caches))
  {
    hide Heft, Laid, LaidTds, Found;
    var k := if s.first < 0 then i else s.first;
    LaidMore(hs, tds, batch, k, i, ptd + Heft(batch[..k]));
    HeftSplits(batch, k, i + 1);
    HeftMore(batch, i);
  }

  lemma LayingKnown(hs: Headers, tds: map<Hash, nat>, c: Caches, batch: seq<Header>, ptd: nat, i: nat, s: Import)
    requires Laying(hs, tds, c, batch, ptd, i, s) && i < |batch| && s.first < 0 && Found(hs, c, batch[i].hash)
    ensures Laying(hs, tds, c, batch, ptd, i + 1, s.(newTD := s.newTD + batch[i].difficulty))
  {
    HeftMore(batch, i);
  }

  /** What was found before `first` is stored. */
  ghost predicate Solid(hs: Headers, batch: seq<Header>, i: nat, first: int)
    requires i <= |batch|
  {
    forall j {:trigger batch[j]} :: 0 <= j < i && (first < 0 || j < first) ==> batch[j].hash in hs
  }

  /** The batch starts with headers that are found, and one of those only in a cache. */
  ghost predicate Hollow(hs: Headers, c: Caches, batch: seq<Header>) {
    exists k :: 0 <= k < |batch| && batch[k].hash !in hs && Prefixed(hs, c, batch, k)
  }

  ghost predicate Prefixed(hs: Headers, c: Caches, batch: seq<Header>, k: nat)
    requires k < |batch|
  {
    forall j {:trigger batch[j]} :: 0 <= j <= k ==> Found(hs, c, batch[j].hash)
  }

  lemma HollowNotSolid(hs: Headers, tds: map<Hash, nat>, c: Caches, batch: seq<Header>, ptd: nat, s: Import)
    requires Laying(hs, tds, c, batch, ptd, |batch|, s)
    ensures Solid(hs, batch, |batch|, s.first) <==> !Hollow(hs, c, batch)
  {
    if !Solid(hs, batch, |batch|, s.first) {
      var j :| 0 <= j < |batch| && (s.first < 0 || j < s.first) && batch[j].hash !in hs;
      assert Prefixed(hs, c, batch, j);
    }
    if k :| 0 <= k < |batch| && batch[k].hash !in hs && Prefixed(hs, c, batch, k) {
      assert s.first < 0 || k < s.first;
    }
  }

  /** The storing loop before header i. */
  ghost predicate Storing(hs: Headers, tds: map<Hash, nat>, genesis: Hash, c: Caches, batch: seq<Header>, ptd: nat,
                          i: nat, s: Import) {
    && Laying(hs, tds, c, batch, ptd, i, s) && CachesSound(s.hs, s.tds, s.caches)
    && (CachesAgree(hs, tds, c) ==> CachesAgree(s.hs, s.tds, s.caches))
    && (Solid(hs, batch, i, s.first) ==> Importing(hs, tds, genesis, batch, i, s))
  }

  method HasHeader(h: Hash, hs: Headers, caches: Caches) returns (found: bool)
    ensures found == Found(hs, caches, h)
  {
    found := h in caches.number || h in caches.header || h in hs;
  }

  /** One round keeps the store a tree as long as nothing is found in a cache only. */
  lemma ImportingStep(hs: Headers, tds: map<Hash, nat>, genesis: Hash, batch: seq<Header>, i: nat, s: Import,
                      s': Import, known: bool)
    requires Tree(hs, genesis) && Importable(batch, hs) && i < |batch|
    requires Importing(hs, tds, genesis, batch, i, s) && Solid(hs, batch, i + 1, s'.first)
    requires var b := batch[i];
      && s'.newTD == s.newTD + b.difficulty
      && (if known then s'.hs == s.hs && s'.tds == s.tds && s'.first == s.first && s.first < 0
          else
            && s'.hs == s.hs[b.hash := b] && s'.tds == s.tds[b.hash := s'.newTD]
            && s'.first == (if s.first < 0 then i else s.first)
            && (s.first < 0 ==> b.hash !in hs))
    ensures Importing(hs, tds, genesis, batch, i + 1, s')
  {
    FillingFits(hs, tds, genesis, batch, i, s.hs, s.tds, s.newTD, s.first);
    if known {
      FillingKnown(hs, tds, genesis, batch, i, s.hs, s.tds, s.newTD, s.first);
    } else {
      FillingNew(hs, tds, genesis, batch, i, s.hs, s.tds, s.newTD, s.first);
    }
  }

  lemma SolidBefore(hs: Headers, batch: seq<Header>, i: nat, first: int, first': int)
    requires i < |batch| && Solid(hs, batch, i + 1, first') && -1 <= first < i
    requires first' == first || (first < 0 && first' == i)
    ensures Solid(hs, batch, i, first)
  {
  }

  /** One round of the storing loop. */
  method StoreOne(hs: Headers, ghost tds: map<Hash, nat>, ghost genesis: Hash, ghost c: Caches, batch: seq<Header>,
                  ghost ptd: nat, i: nat, s: Import, parentKnown: bool)
    returns (s': Import, known: bool)
    requires Tree(hs, genesis) && Importable(batch, hs) && i < |batch|
    requires Storing(hs, tds, genesis, c, batch, ptd, i, s) && parentKnown == (s.first < 0)
    ensures Storing(hs, tds, genesis, c, batch, ptd, i + 1, s')
    ensures s'.first == if s.first < 0 && !known then i else s.first
    ensures known == (s'.first < 0)
    ensures Found(hs, s'.caches, batch[i].hash)
  {
    hide Tree, Importable, Filling, Importing, Solid, Heft, Laid, LaidTds, CachesSound, CachesAgree;
    var header := batch[i];
    var found := HasHeader(header.hash, hs, s.caches);
    known := parentKnown && found;
    var newTD := s.newTD + header.difficulty;
    if known {
      LayingKnown(hs, tds, c, batch, ptd, i, s);
      s' := s.(newTD := newTD);
    } else {
      var caches := Cache(s.caches, header, newTD, s.hs, s.tds);
      LayingNew(hs, tds, c, batch, ptd, i, s, caches);
      s' := Import(s.hs[header.hash := header], s.tds[header.hash := newTD], newTD,
                   if s.first < 0 then i else s.first, caches);
    }
    if Solid(hs, batch, i + 1, s'.first) {
      SolidBefore(hs, batch, i, s.first, s'.first);
      ImportingStep(hs, tds, genesis, batch, i, s, s', known);
    }
  }

  lemma StoringStarts(hs: Headers, tds: map<Hash, nat>, genesis: Hash, c: Caches, batch: seq<Header>)
    requires Tree(hs, genesis) && Weighed(tds, hs, genesis) && Positive(hs, genesis) && CachesSound(hs, tds, c)
    requires Importable(batch, hs)
    ensures var ptd := tds[batch[0].parent];
      Storing(hs, tds, genesis, c, batch, ptd, 0, Import(hs, tds, ptd, -1, c))
  {
    FillingStarts(hs, tds, genesis, batch);
  }

  /** The storing loop of writeHeaders: the pending database writes and the caches,
      which are filled as it goes. */
  method StoreBatch(hs: Headers, tds: map<Hash, nat>, ghost genesis: Hash, caches: Caches, batch: seq<Header>, ptd: nat)
    returns (s: Import, imported: nat)
    requires Tree(hs, genesis) && Weighed(tds, hs, genesis) && Positive(hs, genesis) && CachesSound(hs, tds, caches)
    requires Importable(batch, hs) && ptd == tds[batch[0].parent]
    ensures Storing(hs, tds, genesis, caches, batch, ptd, |batch|, s) && -1 <= s.first < |batch|
    ensures imported == if s.first < 0 then 0 else |batch| - s.first
    ensures Found(hs, s.caches, batch[|batch| - 1].hash)
  {
    hide Storing, Tree, Weighed, Positive, CachesSound, LinkedBatch, Meets, Found;
    StoringStarts(hs, tds, genesis, caches, batch);
    s, imported := Import(hs, tds, ptd, -1, caches), 0;
    var parentKnown := true;
    var i := 0;
    while i < |batch|
      invariant 0 <= i <= |batch| && Storing(hs, tds, genesis, caches, batch, ptd, i, s)
      invariant -1 <= s.first < i
      invariant parentKnown == (s.first < 0) && imported == if s.first < 0 then 0 else i - s.first
      invariant i > 0 ==> Found(hs, s.caches, batch[i - 1].hash)
    {
      s, parentKnown := StoreOne(hs, tds, genesis, caches, batch, ptd, i, s, parentKnown);
      if !parentKnown {
        imported := imported + 1;
      }
      i := i + 1;
    }
  }

  /** The fork choice: more total difficulty, or as much with fewer blocks, or a
      coin toss at equal height. */
  predicate Wins(newTD: nat, localTD: nat, last: nat, head: nat, coin: bool) {
    newTD > localTD || (newTD == localTD && (last < head || (last == head && coin)))
  }

  /** Deletes the index above `last` and overwrites it below h's number, going back
      from h until it fits. */
  method Rebase(canon: map<nat, Hash>, hs: Headers, ghost genesis: Hash, head: Hash, h: Hash, last: nat)
    returns (base: map<nat, Hash>)
    requires Tree(hs, genesis) && Canonical(canon, hs, genesis, head) && h in hs && hs[h].number <= last
    ensures Rebased(base, canon, hs, genesis, h, last) && (h == head ==> base == canon)
  {
    if h == head {
      return canon;
    }
    var stale := StaleAbove(canon, last, hs[head].number);
    var writes, fork := Backfill(canon, hs, genesis, head, h);
    BackfillRebases(canon, hs, genesis, head, h, last, stale, writes, fork);
    base := (canon - stale) + writes;
  }

  /** What was written reaches from the old index to the last header: the batch brought a
      new header, and it is not on top of the head with known headers at its start, whose
      entries are skipped. */
  predicate Reaches(batch: seq<Header>, first: int, head: Hash)
    requires |batch| > 0
  {
    first >= 0 && (batch[0].parent != head || first == 0)
  }

  /** Skipping the entries of known headers on top of the head leaves a hole. */
  lemma IndexSkips(r: map<nat, Hash>, canon: map<nat, Hash>, hs: Headers, genesis: Hash, head: Hash,
                   batch: seq<Header>, first: nat)
    requires Tree(hs, genesis) && Canonical(canon, hs, genesis, head) && StoredBatch(batch, hs)
    requires batch[0].parent == head && 0 < first < |batch|
    requires Overwritten(r, canon, batch[first..], batch[0].number + first)
    ensures batch[0].number !in r && !Canonical(r, hs, genesis, batch[|batch| - 1].hash)
  {
    StoredBatchNumbers(batch, hs, genesis);
  }

  /** Writes the entries of the new headers and, unless the batch is on top of the head,
      of the known ones before them. */
  method WriteBatch(base: map<nat, Hash>, batch: seq<Header>, first: nat, onTop: bool) returns (r: map<nat, Hash>)
    requires first < |batch| && NumberedFrom(batch, batch[0].number)
    ensures !onTop || first == 0 ==> Overwritten(r, base, batch, batch[0].number)
    ensures onTop ==> Overwritten(r, base, batch[first..], batch[0].number + first)
  {
    ghost var lo := batch[0].number;
    var mid := base;
    if !onTop {
      mid := WriteEntries(base, batch[..first], lo);
    }
    r := WriteEntries(mid, batch[first..], lo + first);
    if !onTop || first == 0 {
      OverwrittenTwice(r, mid, base, batch, first, lo);
    }
  }

  /** What a winning batch makes of the index: the walk back from its first parent, and on
      top the entries of its headers, without the known ones if it is on top of the head. */
  ghost predicate Moved(canon': map<nat, Hash>, base: map<nat, Hash>, canon: map<nat, Hash>, hs: Headers, genesis: Hash,
                        head: Hash, batch: seq<Header>, first: int)
    requires Tree(hs, genesis) && |batch| > 0 && batch[0].parent in hs && -1 <= first < |batch|
  {
    && Rebased(base, canon, hs, genesis, batch[0].parent, batch[|batch| - 1].number)
    && (batch[0].parent == head ==> base == canon)
    && (first < 0 ==> canon' == base)
    && (Reaches(batch, first, head) ==> Overwritten(canon', base, batch, batch[0].number))
    && (first >= 0 && batch[0].parent == head ==> Overwritten(canon', base, batch[first..], batch[0].number + first))
  }

  ghost predicate MovedOn(canon': map<nat, Hash>, canon: map<nat, Hash>, hs: Headers, genesis: Hash, head: Hash,
                          batch: seq<Header>, first: int)
    requires Tree(hs, genesis) && |batch| > 0 && batch[0].parent in hs && -1 <= first < |batch|
  {
    exists base :: Moved(canon', base, canon, hs, genesis, head, batch, first)
  }

  /** The walk back does not depend on what was stored besides. */
  lemma MovedGrows(canon': map<nat, Hash>, base: map<nat, Hash>, canon: map<nat, Hash>, hs: Headers, hs': Headers,
                   genesis: Hash, head: Hash, batch: seq<Header>, first: int)
    requires Tree(hs, genesis) && Tree(hs', genesis) && SameBlocks(hs, hs') && hs.Keys <= hs'.Keys
    requires |batch| > 0 && batch[0].parent in hs && -1 <= first < |batch|
    requires Moved(canon', base, canon, hs, genesis, head, batch, first)
    ensures Moved(canon', base, canon, hs', genesis, head, batch, first)
  {
    var h := batch[0].parent;
    forall n | 0 <= n <= hs[h].number ensures AncestorAt(hs, genesis, h, n) == AncestorAt(hs', genesis, h, n) {
      AncestorsAgree(hs, hs', genesis, h, n);
    }
  }

  /** Once the batch is stored, the index is the ancestry of its last header exactly if it
      reaches it, or already was. */
  lemma MovedIndex(canon': map<nat, Hash>, base: map<nat, Hash>, canon: map<nat, Hash>, hs: Headers, genesis: Hash,
                   head: Hash, batch: seq<Header>, first: int)
    requires Tree(hs, genesis) && Canonical(canon, hs, genesis, head) && StoredBatch(batch, hs)
    requires -1 <= first < |batch| && Moved(canon', base, canon, hs, genesis, head, batch, first)
    ensures first >= 0 ==> (Canonical(canon', hs, genesis, batch[|batch| - 1].hash) <==> Reaches(batch, first, head))
    ensures var last := batch[|batch| - 1]; first < 0 ==>
      (Canonical(canon', hs, genesis, last.hash) <==> (last.number in canon && canon[last.number] == last.hash))
  {
    if first < 0 {
      IndexFollowsIff(base, canon, hs, genesis, head, batch);
    } else if Reaches(batch, first, head) {
      IndexFollows(canon', base, canon, hs, genesis, batch);
    } else {
      IndexSkips(canon', canon, hs, genesis, head, batch, first);
    }
  }

  lemma {:induction false} BatchNumbers(batch: seq<Header>, i: nat)
    requires LinkedBatch(batch) && i < |batch|
    ensures batch[i].number == batch[0].number + i
  {
    if i > 0 {
      assert Follows(batch, i);
      BatchNumbers(batch, i - 1);
    }
  }

  /** Points the index at the last header of a winning batch. */
  method Reindex(canon: map<nat, Hash>, hs: Headers, ghost genesis: Hash, head: Hash, batch: seq<Header>, first: int)
    returns (canon': map<nat, Hash>, ghost base: map<nat, Hash>)
    requires Tree(hs, genesis) && Canonical(canon, hs, genesis, head) && Importable(batch, hs)
    requires -1 <= first < |batch|
    ensures Moved(canon', base, canon, hs, genesis, head, batch, first)
  {
    forall i | 0 <= i < |batch| ensures batch[i].number == batch[0].number + i {
      BatchNumbers(batch, i);
    }
    var rebased := Rebase(canon, hs, genesis, head, batch[0].parent, batch[|batch| - 1].number);
    base, canon' := rebased, rebased;
    if first >= 0 {
      canon' := WriteBatch(rebased, batch, first, batch[0].parent == head);
    }
  }

  lemma ImportDone(hs: Headers, tds: map<Hash, nat>, genesis: Hash, batch: seq<Header>, s: Import)
    requires Tree(hs, genesis) && Importable(batch, hs) && Importing(hs, tds, genesis, batch, |batch|, s)
    ensures StoredBatch(batch, s.hs) && s.newTD == s.tds[batch[|batch| - 1].hash]
    ensures Tree(s.hs, genesis) && Weighed(s.tds, s.hs, genesis) && Positive(s.hs, genesis)
    ensures hs.Keys <= s.hs.Keys && SameBlocks(hs, s.hs) && -1 <= s.first < |batch|
  {
  }

  /** A new last header has no stored child. */
  lemma NewIsLeaf(hs: Headers, tds: map<Hash, nat>, genesis: Hash, batch: seq<Header>, s: Import)
    requires Tree(hs, genesis) && Importable(batch, hs) && Importing(hs, tds, genesis, batch, |batch|, s)
    requires s.first >= 0
    ensures Leaf(s.hs, genesis, batch[|batch| - 1].hash)
  {
    var last := batch[|batch| - 1];
    forall c | c in s.hs && c != genesis ensures s.hs[c].parent != last.hash {
      assert Placed(s.hs, genesis, c);
      if c in hs { assert Placed(hs, genesis, c); }
    }
  }

  /** A batch that does not outweigh the head brings no child of it. */
  lemma LosersSpareLeaf(hs: Headers, tds: map<Hash, nat>, genesis: Hash, batch: seq<Header>, s: Import, head: Hash)
    requires Tree(hs, genesis) && Weighed(tds, hs, genesis) && Importable(batch, hs)
    requires Importing(hs, tds, genesis, batch, |batch|, s)
    requires head in hs && Leaf(hs, genesis, head) && s.newTD <= tds[head]
    ensures Leaf(s.hs, genesis, head)
  {
    WeightsAgree(hs, s.hs, genesis, head);
    forall c | c in s.hs && c != genesis ensures s.hs[c].parent != head {
      assert Placed(s.hs, genesis, c);
    }
  }

  /** A batch on top of a childless head is new from its first header on. */
  lemma OnTopIsNew(hs: Headers, tds: map<Hash, nat>, genesis: Hash, batch: seq<Header>, s: Import)
    requires Tree(hs, genesis) && Importable(batch, hs) && Importing(hs, tds, genesis, batch, |batch|, s)
    requires Leaf(hs, genesis, batch[0].parent)
    ensures s.first == 0
  {
    assert Placed(hs, genesis, genesis);
  }

  lemma {:induction false} AncestorsWeighLess(hs: Headers, genesis: Hash, h: Hash, n: nat)
    requires Tree(hs, genesis) && Positive(hs, genesis) && h in hs && n < hs[h].number
    ensures TotalDifficulty(hs, genesis, AncestorAt(hs, genesis, h, n)) < TotalDifficulty(hs, genesis, h)
    decreases hs[h].number
  {
    assert Placed(hs, genesis, h);
    var p := hs[h].parent;
    if n < hs[p].number {
      AncestorsWeighLess(hs, genesis, p, n);
    }
  }

  /** Of the canonical headers only the head weighs enough to win. */
  lemma OnlyHeadWins(canon: map<nat, Hash>, hs: Headers, genesis: Hash, head: Hash, last: Header)
    requires Tree(hs, genesis) && Positive(hs, genesis) && Canonical(canon, hs, genesis, head)
    requires last.hash in hs && hs[last.hash] == last
    requires TotalDifficulty(hs, genesis, last.hash) >= TotalDifficulty(hs, genesis, head)
    ensures (last.number in canon && canon[last.number] == last.hash) <==> last.hash == head
  {
    if last.number in canon && canon[last.number] == last.hash && last.number < hs[head].number {
      AncestorsWeighLess(hs, genesis, head, last.number);
    }
  }

  /** The index is the ancestry of the head. */
  ghost predicate HeadIndexed(canon: map<nat, Hash>, hs: Headers, genesis: Hash, head: Header)
    requires Tree(hs, genesis)
  {
    Canonical(canon, hs, genesis, head.hash) && hs[head.hash] == head
  }

  /** Chooses between the head and a batch, and moves index and head. */
  method ChooseFork(canon: map<nat, Hash>, hs: Headers, tds: map<Hash, nat>, ghost genesis: Hash, head: Header,
                    batch: seq<Header>, first: int, newTD: nat, coin: bool)
    returns (canon': map<nat, Hash>, head': Header, won: bool, ghost base: map<nat, Hash>)
    requires Tree(hs, genesis) && Weighed(tds, hs, genesis) && HeadIndexed(canon, hs, genesis, head)
    requires Importable(batch, hs) && -1 <= first < |batch|
    ensures won == Wins(newTD, tds[head.hash], batch[|batch| - 1].number, head.number, coin)
    ensures !won ==> canon' == canon && head' == head
    ensures won ==> head' == batch[|batch| - 1] && Moved(canon', base, canon, hs, genesis, head.hash, batch, first)
  {
    hide Tree, Moved, LinkedBatch, Meets;
    canon', head', base := canon, head, map[];
    won := Wins(newTD, tds[head.hash], batch[|batch| - 1].number, head.number, coin);
    if won {
      canon', base := Reindex(canon, hs, genesis, head.hash, batch, first);
      head' := batch[|batch| - 1];
    }
  }

  /** A winner's index follows it exactly if it reaches it or it was the head before. */
  lemma WinnerIndexed(canon: map<nat, Hash>, hs: Headers, tds: map<Hash, nat>, genesis: Hash, head: Header,
                      batch: seq<Header>, s: Import, canon': map<nat, Hash>, base: map<nat, Hash>)
    requires Tree(hs, genesis) && Weighed(tds, hs, genesis) && HeadIndexed(canon, hs, genesis, head)
    requires Importable(batch, hs) && Importing(hs, tds, genesis, batch, |batch|, s)
    requires s.newTD >= tds[head.hash] && Moved(canon', base, canon, hs, genesis, head.hash, batch, s.first)
    ensures Tree(s.hs, genesis)
    ensures var last := batch[|batch| - 1];
      HeadIndexed(canon', s.hs, genesis, last) <==> last.hash == head.hash || Reaches(batch, s.first, head.hash)
  {
    ImportDone(hs, tds, genesis, batch, s);
    hide Filling;
    CanonicalGrows(canon, hs, s.hs, genesis, head.hash);
    WeightsAgree(hs, s.hs, genesis, head.hash);
    MovedGrows(canon', base, canon, hs, s.hs, genesis, head.hash, batch, s.first);
    MovedIndex(canon', base, canon, s.hs, genesis, head.hash, batch, s.first);
    OnlyHeadWins(canon, s.hs, genesis, head.hash, batch[|batch| - 1]);
  }

  /** The index of a head that stays. */
  lemma LoserIndexed(canon: map<nat, Hash>, hs: Headers, tds: map<Hash, nat>, genesis: Hash, head: Header,
                     batch: seq<Header>, s: Import)
    requires Tree(hs, genesis) && Weighed(tds, hs, genesis) && HeadIndexed(canon, hs, genesis, head)
    requires Importable(batch, hs) && Importing(hs, tds, genesis, batch, |batch|, s)
    ensures Tree(s.hs, genesis) && HeadIndexed(canon, s.hs, genesis, head)
  {
    ImportDone(hs, tds, genesis, batch, s);
    hide Filling;
    CanonicalGrows(canon, hs, s.hs, genesis, head.hash);
  }

  /** A head without stored children keeps or passes on that property as long as the index
      follows; a batch on top of it is new from its first header on. */
  lemma LeafKept(hs: Headers, tds: map<Hash, nat>, genesis: Hash, batch: seq<Header>, s: Import, head: Hash)
    requires Tree(hs, genesis) && Weighed(tds, hs, genesis) && Importable(batch, hs)
    requires Importing(hs, tds, genesis, batch, |batch|, s) && head in hs && Leaf(hs, genesis, head)
    ensures s.newTD <= tds[head] ==> Leaf(s.hs, genesis, head)
    ensures s.first >= 0 ==> Leaf(s.hs, genesis, batch[|batch| - 1].hash)
    ensures s.first < 0 ==> Leaf(s.hs, genesis, head)
    ensures batch[0].parent == head ==> s.first == 0
  {
    if s.newTD <= tds[head] {
      LosersSpareLeaf(hs, tds, genesis, batch, s, head);
    }
    if s.first >= 0 {
      NewIsLeaf(hs, tds, genesis, batch, s);
    } else {
      KnownLeaf(hs, tds, genesis, batch, s, head);
    }
    if batch[0].parent == head {
      OnTopIsNew(hs, tds, genesis, batch, s);
    }
  }

  /** Without new headers the head still has no stored child. */
  lemma KnownLeaf(hs: Headers, tds: map<Hash, nat>, genesis: Hash, batch: seq<Header>, s: Import, head: Hash)
    requires Tree(hs, genesis) && Importing(hs, tds, genesis, batch, |batch|, s) && s.first < 0
    requires Leaf(hs, genesis, head)
    ensures Leaf(s.hs, genesis, head)
  {
    forall c | c in s.hs && c != genesis ensures s.hs[c].parent != head {
      assert Placed(s.hs, genesis, c);
    }
  }

  /** In a parent-closed store nothing above a missing header of a linked batch is stored. */
  lemma {:induction false} NoneAbove(hs: Headers, genesis: Hash, batch: seq<Header>, k: nat, j: nat)
    requires Tree(hs, genesis) && Importable(batch, hs) && k <= j < |batch| && batch[k].hash !in hs
    ensures batch[j].hash !in hs
    decreases j
  {
    if k < j {
      NoneAbove(hs, genesis, batch, k, j - 1);
      assert Follows(batch, j);
      if batch[j].hash in hs {
        assert Placed(hs, genesis, batch[j].hash);
        BatchNumbers(batch, j);
      }
    }
  }

  /** A run of new headers leaves what was stored. */
  lemma {:induction false} LaidKeeps(hs: Headers, tds: map<Hash, nat>, part: seq<Header>, td: nat, h: Hash)
    requires forall i :: 0 <= i < |part| ==> part[i].hash != h
    ensures h in Laid(hs, part) <==> h in hs
    ensures h in LaidTds(tds, part, td) <==> h in tds
    ensures h in hs ==> Laid(hs, part)[h] == hs[h]
    ensures h in tds ==> LaidTds(tds, part, td)[h] == tds[h]
  {
    if part != [] {
      LaidKeeps(hs, tds, part[..|part| - 1], td, h);
    }
  }

  lemma {:induction false} LaidHas(hs: Headers, part: seq<Header>, i: nat)
    requires i < |part| && forall j :: i < j < |part| ==> part[j].hash != part[i].hash
    ensures part[i].hash in Laid(hs, part) && Laid(hs, part)[part[i].hash] == part[i]
  {
    var k := |part| - 1;
    if i < k {
      LaidHas(hs, part[..k], i);
    }
  }

  /** What the storing loop leaves as it was. */
  lemma LayingKeeps(hs: Headers, tds: map<Hash, nat>, genesis: Hash, c: Caches, batch: seq<Header>, ptd: nat, s: Import,
                    h: Hash)
    requires Tree(hs, genesis) && tds.Keys == hs.Keys && Importable(batch, hs)
    requires Laying(hs, tds, c, batch, ptd, |batch|, s) && h in hs
    ensures h in s.hs && s.hs[h] == hs[h] && h in s.tds && s.tds[h] == tds[h]
  {
    if s.first >= 0 {
      forall j | s.first <= j < |batch| ensures batch[j].hash != h {
        NoneAbove(hs, genesis, batch, s.first, j);
      }
      LaidKeeps(hs, tds, batch[s.first..|batch|], ptd + Heft(batch[..s.first]), h);
    }
  }

  /** The caches stay sound for the store as it was before the loop. */
  lemma AbortedSound(hs: Headers, tds: map<Hash, nat>, genesis: Hash, c: Caches, batch: seq<Header>, ptd: nat,
                     s: Import)
    requires Tree(hs, genesis) && tds.Keys == hs.Keys && Importable(batch, hs)
    requires Laying(hs, tds, c, batch, ptd, |batch|, s) && CachesSound(s.hs, s.tds, s.caches)
    ensures CachesSound(hs, tds, s.caches)
  {
    hide Laying, Tree, Importable;
    forall h | h in hs ensures h in s.hs && s.hs[h] == hs[h] && h in s.tds && s.tds[h] == tds[h] {
      LayingKeeps(hs, tds, genesis, c, batch, ptd, s, h);
    }
  }

  /** What an import makes of a store when its first headers are found in the caches only:
      the headers so found are not written. Those above them are, without their parents. */
  ghost predicate Torn(hs: Headers, hs': Headers, genesis: Hash, batch: seq<Header>, ignored: nat) {
    && 0 < ignored <= |batch| && batch[|batch| - 1].hash !in hs
    && hs' == Laid(hs, batch[ignored..])
    && (forall i {:trigger batch[i]} :: 0 <= i < ignored ==> (batch[i].hash in hs' <==> batch[i].hash in hs))
    && (if ignored == |batch| then hs' == hs
        else
          && batch[ignored].hash in hs' && hs'[batch[ignored].hash] == batch[ignored]
          && batch[ignored].parent !in hs' && !Tree(hs', genesis))
  }

  lemma HollowTears(hs: Headers, tds: map<Hash, nat>, genesis: Hash, c: Caches, batch: seq<Header>, ptd: nat, s: Import)
    requires Tree(hs, genesis) && tds.Keys == hs.Keys && Importable(batch, hs)
    requires Laying(hs, tds, c, batch, ptd, |batch|, s) && Hollow(hs, c, batch)
    ensures Torn(hs, s.hs, genesis, batch, if s.first < 0 then |batch| else s.first)
  {
    var k :| 0 <= k < |batch| && batch[k].hash !in hs && Prefixed(hs, c, batch, k);
    NoneAbove(hs, genesis, batch, k, |batch| - 1);
    if s.first < 0 {
      assert batch[|batch|..] == [];
    } else {
      assert k < s.first;
      NoneAbove(hs, genesis, batch, k, s.first - 1);
      var part := batch[s.first..];
      assert part == batch[s.first..|batch|];
      forall i | 0 <= i < s.first ensures batch[i].hash in s.hs <==> batch[i].hash in hs {
        LaidKeeps(hs, tds, part, 0, batch[i].hash);
      }
      LaidHas(hs, part, 0);
      TornHere(s.hs, genesis, batch, s.first);
    }
  }

  lemma TornHere(hs: Headers, genesis: Hash, batch: seq<Header>, k: nat)
    requires LinkedBatch(batch) && 0 < k < |batch| && batch[k].hash in hs && hs[batch[k].hash] == batch[k]
    requires batch[k - 1].hash !in hs
    ensures batch[k].parent !in hs && !Tree(hs, genesis)
  {
    assert Follows(batch, k);
    BatchNumbers(batch, k);
    assert !Placed(hs, genesis, batch[k].hash);
  }

  lemma SameHollow(hs: Headers, c: Caches, c': Caches, batch: seq<Header>)
    requires c.header == c'.header && c.number == c'.number
    ensures Hollow(hs, c, batch) <==> Hollow(hs, c', batch)
  {
    if k :| 0 <= k < |batch| && batch[k].hash !in hs && Prefixed(hs, c, batch, k) {
      assert Prefixed(hs, c', batch, k);
    }
    if k :| 0 <= k < |batch| && batch[k].hash !in hs && Prefixed(hs, c', batch, k) {
      assert Prefixed(hs, c, batch, k);
    }
  }

  /** The headers numbered at most n. */
  function Trimmed(hs: Headers, n: nat): Headers {
    map h | h in hs && hs[h].number <= n :: hs[h]
  }

  function Higher(hs: Headers, n: nat): set<Hash> {
    set h | h in hs && hs[h].number > n
  }

  /** ReadAllHashes over a list of numbers. */
  method HashesAt(hs: Headers, nums: seq<nat>) returns (found: set<Hash>)
    ensures found == set h | h in hs && hs[h].number in nums
  {
    found := {};
    for i := 0 to |nums|
      invariant found == set h | h in hs && hs[h].number in nums[..i]
    {
      found := found + set h | h in hs && hs[h].number == nums[i];
      assert nums[..i + 1] == nums[..i] + [nums[i]];
    }
    assert nums[..|nums|] == nums;
  }

  /** The numbers above num that have headers, highest first: the search stops at
      the first empty number, and in a parent-closed store nothing lies beyond. */
  method NumbersAbove(hs: Headers, ghost genesis: Hash, num: nat) returns (nums: seq<nat>)
    requires Tree(hs, genesis)
    ensures forall n :: n in nums ==> n > num
    ensures forall h :: h in hs && hs[h].number > num ==> hs[h].number in nums
  {
    nums := [];
    var n := num + 1;
    while exists h :: h in hs && hs[h].number == n
      invariant n > num && forall k :: k in nums <==> num < k < n
      decreases |Higher(hs, n - 1)|
    {
      ghost var h :| h in hs && hs[h].number == n;
      assert h in Higher(hs, n - 1) && h !in Higher(hs, n);
      assert Higher(hs, n) <= Higher(hs, n - 1) - {h};
      Heap.SubsetSize(Higher(hs, n), Higher(hs, n - 1) - {h});
      nums, n := [n] + nums, n + 1;
    }
    forall h | h in hs && hs[h].number > num ensures hs[h].number < n {
      assert hs[h].number >= n ==> AncestorAt(hs, genesis, h, n) in hs;
    }
  }

  /** The rewinding loop: steps the head back to `to`, collecting what to delete. */
  method Rewind(hs: Headers, ghost genesis: Hash, ghost canon: map<nat, Hash>, top: Header, to: nat)
    returns (current: Header, gone: set<Hash>, unindexed: set<nat>)
    requires Tree(hs, genesis) && top.hash in hs && hs[top.hash] == top && forall n :: n in canon ==> n <= top.number
    ensures to >= top.number ==> current == top && gone == {} && unindexed == {}
    ensures to < top.number ==> current == hs[AncestorAt(hs, genesis, top.hash, to)] && gone == Higher(hs, to)
    ensures to < top.number ==> forall n :: n in canon ==> (n in unindexed <==> n > to)
  {
    current, gone, unindexed := top, {}, {};
    var origin := true;
    while current.number > to
      invariant current.number <= top.number && current == hs[AncestorAt(hs, genesis, top.hash, current.number)]
      invariant origin == (current.number == top.number) && (to >= top.number ==> origin)
      invariant origin ==> gone == {} && unindexed == {}
      invariant to <= top.number ==> to <= current.number
      invariant !origin ==> gone == Higher(hs, current.number)
      invariant !origin ==> forall n :: n in canon ==> (n in unindexed <==> n > current.number)
      decreases current.number
    {
      var num := current.number;
      AncestorStep(hs, genesis, top.hash, num - 1);
      current := hs[current.parent];
      var nums := [num];
      if origin {
        var above := NumbersAbove(hs, genesis, num);
        nums := above + nums;
        origin := false;
      }
      var found := HashesAt(hs, nums);
      assert forall n :: n in nums ==> n >= num;
      gone, unindexed := gone + found, unindexed + (set n | n in nums);
      assert gone == Higher(hs, num - 1);
    }
  }

  lemma TrimmedTree(hs: Headers, tds: map<Hash, nat>, genesis: Hash, n: nat)
    requires Tree(hs, genesis) && Weighed(tds, hs, genesis) && Positive(hs, genesis)
    ensures var hs', tds' := Trimmed(hs, n), tds - Higher(hs, n);
      hs' == hs - Higher(hs, n) && Tree(hs', genesis) && Weighed(tds', hs', genesis) && Positive(hs', genesis)
  {
    var hs', tds' := Trimmed(hs, n), tds - Higher(hs, n);
    assert Placed(hs, genesis, genesis);
    forall h | h in hs' ensures Placed(hs', genesis, h) {
      assert Placed(hs, genesis, h);
    }
    assert Tree(hs', genesis);
    forall h | h in tds' ensures tds'[h] == TotalDifficulty(hs', genesis, h) {
      WeightsAgree(hs, hs', genesis, h);
    }
  }

  /** Cutting the store at n keeps it a weighed tree, indexed by the ancestor at n. */
  lemma TrimmedKeeps(hs: Headers, tds: map<Hash, nat>, genesis: Hash, canon: map<nat, Hash>, head: Hash, n: nat)
    requires Tree(hs, genesis) && Weighed(tds, hs, genesis) && Positive(hs, genesis)
    requires Canonical(canon, hs, genesis, head) && n < hs[head].number
    ensures var hs', tds' := Trimmed(hs, n), tds - Higher(hs, n);
      && hs' == hs - Higher(hs, n) && Tree(hs', genesis) && Weighed(tds', hs', genesis) && Positive(hs', genesis)
      && HeadIndexed(map k | k in canon && k <= n :: canon[k], hs', genesis, hs[AncestorAt(hs, genesis, head, n)])
      && Leaf(hs', genesis, AncestorAt(hs, genesis, head, n))
  {
    hide Weighed, Positive;
    TrimmedTree(hs, tds, genesis, n);
    var hs', a := Trimmed(hs, n), AncestorAt(hs, genesis, head, n);
    assert Placed(hs, genesis, a);
    forall k | 0 <= k <= n ensures canon[k] == AncestorAt(hs', genesis, a, k) {
      AncestorChains(hs, genesis, head, n, k);
      AncestorsAgree(hs, hs', genesis, a, k);
    }
    forall c | c in hs' && c != genesis ensures hs'[c].parent != a {
      assert Placed(hs, genesis, c);
    }
  }

  /** A weighed tree with its index. */
  ghost predicate ChainOk(hs: Headers, tds: map<Hash, nat>, genesis: Hash, canon: map<nat, Hash>, head: Header) {
    && Tree(hs, genesis) && Weighed(tds, hs, genesis) && Positive(hs, genesis)
    && HeadIndexed(canon, hs, genesis, head)
  }

  lemma TrimmedOrSame(hs: Headers, tds: map<Hash, nat>, genesis: Hash, canon: map<nat, Hash>, top: Header, to: nat,
                      head: Header, gone: set<Hash>, unindexed: set<nat>)
    requires ChainOk(hs, tds, genesis, canon, top)
    requires to >= top.number ==> head == top && gone == {} && unindexed == {}
    requires to < top.number ==> head == hs[AncestorAt(hs, genesis, top.hash, to)] && gone == Higher(hs, to)
    requires to < top.number ==> forall n :: n in canon ==> (n in unindexed <==> n > to)
    ensures ChainOk(hs - gone, tds - gone, genesis, canon - unindexed, head)
    ensures to >= top.number ==> hs - gone == hs && tds - gone == tds && canon - unindexed == canon
    ensures to < top.number ==> hs - gone == Trimmed(hs, to)
    ensures to < top.number ==> canon - unindexed == map n | n in canon && n <= to :: canon[n]
    ensures to < top.number ==>
              head.hash == AncestorAt(hs, genesis, top.hash, to) && Leaf(hs - gone, genesis, head.hash)
  {
    if to < top.number {
      TrimmedKeeps(hs, tds, genesis, canon, top.hash, to);
      assert canon - unindexed == map n | n in canon && n <= to :: canon[n];
      assert Placed(hs, genesis, AncestorAt(hs, genesis, top.hash, to));
    } else {
      assert tds - {} == tds && hs - {} == hs && canon - {} == canon;
    }
  }

  /** The result counts the headers that were new, which form the batch's tail. */
  ghost predicate Imported(r: WriteResult, batch: seq<Header>, before: Headers, after: Headers) {
    && r.Written? && r.imported + r.ignored == |batch| && |batch| > 0 && r.lastHash == batch[|batch| - 1].hash
    && (forall i {:trigger batch[i]} :: 0 <= i < |batch| ==> (batch[i].hash in before <==> i < r.ignored))
    && before.Keys <= after.Keys && SameBlocks(before, after)
    && (forall h :: h in after && h !in before ==> after[h] in batch)
  }

  /** What the header chain has in the database, and its head. */
  datatype Snapshot = Snapshot(headers: Headers, tds: map<Hash, nat>, canon: map<nat, Hash>, current: Header)

  ghost predicate SnapshotOk(x: Snapshot, genesis: Hash) {
    ChainOk(x.headers, x.tds, genesis, x.canon, x.current)
  }

  function StatusOf(imported: nat, won: bool): WriteStatus {
    if imported == 0 then NonStatTy else if won then CanonStatTy else SideStatTy
  }

  /** The outcome of an import that finds nothing in the caches only. */
  ghost predicate Grown(x: Snapshot, y: Snapshot, genesis: Hash, batch: seq<Header>, coin: bool, r: WriteResult)
    requires SnapshotOk(x, genesis)
  {
    && Tree(y.headers, genesis) && Weighed(y.tds, y.headers, genesis) && Positive(y.headers, genesis)
    && StoredBatch(batch, y.headers) && Imported(r, batch, x.headers, y.headers)
    && x.current.hash in y.headers && y.current.hash in y.headers
    && y.tds[y.current.hash] >= x.tds[x.current.hash] && y.tds[x.current.hash] == x.tds[x.current.hash]
    && var last := batch[|batch| - 1];
    && var won := Wins(y.tds[last.hash], x.tds[x.current.hash], last.number, x.current.number, coin);
    && var indexed := HeadIndexed(y.canon, y.headers, genesis, y.current);
    && r.status == StatusOf(r.imported, won)
    && (!won ==> y.current == x.current && y.canon == x.canon && indexed)
    && (won ==>
          && y.current == last
          && (indexed <==>
                last.hash == x.current.hash
                || (r.imported > 0 && (batch[0].parent != x.current.hash || r.ignored == 0))))
    && (Leaf(x.headers, genesis, x.current.hash) ==>
          && (indexed ==> Leaf(y.headers, genesis, y.current.hash))
          && (batch[0].parent == x.current.hash ==> r.ignored == 0))
  }

  /** The outcome of an import whose first headers are found in the caches only. */
  ghost predicate Tore(x: Snapshot, y: Snapshot, genesis: Hash, batch: seq<Header>, coin: bool, r: WriteResult)
    requires SnapshotOk(x, genesis)
  {
    && |batch| > 0 && batch[0].parent in x.headers
    && r.Written? && r.ignored + r.imported == |batch| && r.lastHash == batch[|batch| - 1].hash
    && Torn(x.headers, y.headers, genesis, batch, r.ignored)
    && y.tds == LaidTds(x.tds, batch[r.ignored..], x.tds[batch[0].parent] + Heft(batch[..r.ignored]))
    && var last := batch[|batch| - 1];
    && var newTD := x.tds[batch[0].parent] + Heft(batch);
    && var won := Wins(newTD, x.tds[x.current.hash], last.number, x.current.number, coin);
    && r.status == StatusOf(r.imported, won)
    && (!won ==> y.current == x.current && y.canon == x.canon && y.current.hash in y.headers)
    && var first := if r.imported == 0 then -1 else r.ignored;
    && (won ==>
          && y.current == last && (last.hash in y.headers <==> r.imported > 0)
          && MovedOn(y.canon, x.canon, x.headers, genesis, x.current.hash, batch, first))
  }

  /** What the fork choice does with the head and the index. */
  ghost predicate Chosen(x: Snapshot, genesis: Hash, batch: seq<Header>, s: Import, coin: bool, canon': map<nat, Hash>,
                         head': Header, base: map<nat, Hash>)
    requires SnapshotOk(x, genesis) && |batch| > 0 && batch[0].parent in x.headers && -1 <= s.first < |batch|
  {
    var last := batch[|batch| - 1];
    if Wins(s.newTD, x.tds[x.current.hash], last.number, x.current.number, coin) then
      head' == last && Moved(canon', base, x.canon, x.headers, genesis, x.current.hash, batch, s.first)
    else
      head' == x.current && canon' == x.canon
  }

  function ResultOf(batch: seq<Header>, first: int, won: bool): WriteResult
    requires |batch| > 0 && -1 <= first < |batch|
  {
    var imported := if first < 0 then 0 else |batch| - first;
    Written(StatusOf(imported, won), |batch| - imported, imported, batch[|batch| - 1].hash)
  }

  lemma GrownImported(hs: Headers, tds: map<Hash, nat>, genesis: Hash, batch: seq<Header>, s: Import, won: bool)
    requires |batch| > 0 && Importing(hs, tds, genesis, batch, |batch|, s)
    ensures Imported(ResultOf(batch, s.first, won), batch, hs, s.hs)
  {
  }

  lemma GrownBy(x: Snapshot, genesis: Hash, batch: seq<Header>, s: Import, coin: bool, canon': map<nat, Hash>,
                head': Header, base: map<nat, Hash>)
    requires SnapshotOk(x, genesis) && Importable(batch, x.headers)
    requires Importing(x.headers, x.tds, genesis, batch, |batch|, s) && -1 <= s.first < |batch|
    requires Chosen(x, genesis, batch, s, coin, canon', head', base)
    ensures var won := Wins(s.newTD, x.tds[x.current.hash], batch[|batch| - 1].number, x.current.number, coin);
      Grown(x, Snapshot(s.hs, s.tds, canon', head'), genesis, batch, coin, ResultOf(batch, s.first, won))
  {
    hide Importing, Filling, Leaf, Tree, TotalDifficulty, LinkedBatch, Meets, Imported, Moved, Canonical, Positive;
    HeadStored(x, genesis);
    var won := Wins(s.newTD, x.tds[x.current.hash], batch[|batch| - 1].number, x.current.number, coin);
    var hs, tds, head := x.headers, x.tds, x.current.hash;
    ImportDone(hs, tds, genesis, batch, s);
    GrownImported(hs, tds, genesis, batch, s, won);
    WeightsAgree(hs, s.hs, genesis, head);
    if won {
      WinnerIndexed(x.canon, hs, tds, genesis, x.current, batch, s, canon', base);
    } else {
      LoserIndexed(x.canon, hs, tds, genesis, x.current, batch, s);
    }
    if Leaf(hs, genesis, head) {
      LeafKept(hs, tds, genesis, batch, s, head);
    }
  }

  lemma HeadStored(x: Snapshot, genesis: Hash)
    requires SnapshotOk(x, genesis)
    ensures x.current.hash in x.headers && x.headers[x.current.hash] == x.current && x.current.hash in x.tds
    ensures Tree(x.headers, genesis) && Weighed(x.tds, x.headers, genesis) && x.tds.Keys == x.headers.Keys
  {
  }

  lemma ToreBy(x: Snapshot, genesis: Hash, c: Caches, batch: seq<Header>, s: Import, coin: bool,
               canon': map<nat, Hash>, head': Header, base: map<nat, Hash>)
    requires SnapshotOk(x, genesis) && Importable(batch, x.headers)
    requires Laying(x.headers, x.tds, c, batch, x.tds[batch[0].parent], |batch|, s) && Hollow(x.headers, c, batch)
    requires Chosen(x, genesis, batch, s, coin, canon', head', base)
    ensures var won := Wins(s.newTD, x.tds[x.current.hash], batch[|batch| - 1].number, x.current.number, coin);
      Tore(x, Snapshot(s.hs, s.tds, canon', head'), genesis, batch, coin, ResultOf(batch, s.first, won))
  {
    hide Tree, LinkedBatch, Meets, Moved, Canonical, Positive, Weighed, Heft, Hollow;
    var hs, tds := x.headers, x.tds;
    HeadStored(x, genesis);
    HollowTears(hs, tds, genesis, c, batch, x.tds[batch[0].parent], s);
    LayingKeeps(hs, tds, genesis, c, batch, x.tds[batch[0].parent], s, x.current.hash);
    assert batch[..|batch|] == batch;
    if s.first < 0 {
      assert batch[|batch|..] == [];
    } else {
      assert batch[s.first..|batch|] == batch[s.first..];
      LastLaid(hs, batch, s.first);
    }
  }

  lemma LastLaid(hs: Headers, batch: seq<Header>, first: nat)
    requires first < |batch|
    ensures batch[|batch| - 1].hash in Laid(hs, batch[first..])
  {
  }

  /** After an abort the caches are ahead of the store exactly if a header was new. */
  lemma AbortedCaches(hs: Headers, tds: map<Hash, nat>, genesis: Hash, batch: seq<Header>, s: Import)
    requires Tree(hs, genesis) && Weighed(tds, hs, genesis) && Importable(batch, hs)
    requires Importing(hs, tds, genesis, batch, |batch|, s) && CachesAgree(s.hs, s.tds, s.caches)
    requires Found(hs, s.caches, batch[|batch| - 1].hash)
    ensures CachesAgree(hs, tds, s.caches) <==> !exists b :: b in batch && b.hash !in hs
  {
    if s.first >= 0 {
      assert batch[|batch| - 1] in batch;
    } else {
      forall b | b in batch ensures b.hash in hs {
        var i :| 0 <= i < |batch| && batch[i] == b;
      }
      forall h | h in s.hs ensures h in hs {
        assert Placed(s.hs, genesis, h);
      }
      forall h | h in hs ensures tds[h] == s.tds[h] {
        WeightsAgree(hs, s.hs, genesis, h);
      }
    }
  }

  /** The caches after an abort: never wrong about the store, and ahead of it exactly if a
      header was new. */
  lemma AbortedAll(hs: Headers, tds: map<Hash, nat>, genesis: Hash, c: Caches, batch: seq<Header>, ptd: nat, s: Import)
    requires Tree(hs, genesis) && Weighed(tds, hs, genesis) && Importable(batch, hs)
    requires Storing(hs, tds, genesis, c, batch, ptd, |batch|, s) && Found(hs, s.caches, batch[|batch| - 1].hash)
    ensures CachesSound(hs, tds, s.caches)
    ensures CachesAgree(hs, tds, c) ==> (CachesAgree(hs, tds, s.caches) <==> !exists b :: b in batch && b.hash !in hs)
  {
    hide Tree, Importable, Importing, Laying, Solid, CachesSound, CachesAgree;
    AbortedSound(hs, tds, genesis, c, batch, ptd, s);
    if CachesAgree(hs, tds, c) {
      AgreeSolid(hs, tds, c, batch, ptd, s);
      AbortedCaches(hs, tds, genesis, batch, s);
    }
  }

  /** Caches that agree with the store find nothing else. */
  lemma AgreeSolid(hs: Headers, tds: map<Hash, nat>, c: Caches, batch: seq<Header>, ptd: nat, s: Import)
    requires CachesAgree(hs, tds, c) && Laying(hs, tds, c, batch, ptd, |batch|, s)
    ensures Solid(hs, batch, |batch|, s.first)
  {
  }

  /** The outcome of a flushed import. */
  lemma Outcome(x: Snapshot, genesis: Hash, c: Caches, batch: seq<Header>, s: Import, coin: bool,
                canon': map<nat, Hash>, head': Header, base: map<nat, Hash>)
    requires SnapshotOk(x, genesis) && Importable(batch, x.headers) && -1 <= s.first < |batch|
    requires Storing(x.headers, x.tds, genesis, c, batch, x.tds[batch[0].parent], |batch|, s)
    requires Chosen(x, genesis, batch, s, coin, canon', head', base)
    ensures var won := Wins(s.newTD, x.tds[x.current.hash], batch[|batch| - 1].number, x.current.number, coin);
      var y, r := Snapshot(s.hs, s.tds, canon', head'), ResultOf(batch, s.first, won);
      if Hollow(x.headers, c, batch) then Tore(x, y, genesis, batch, coin, r)
      else Grown(x, y, genesis, batch, coin, r)
  {
    hide Tree, Weighed, Positive, Canonical, LinkedBatch, Meets, Laying, Importing, Moved, Hollow, Tore, Grown;
    HeadStored(x, genesis);
    HollowNotSolid(x.headers, x.tds, c, batch, x.tds[batch[0].parent], s);
    if Hollow(x.headers, c, batch) {
      ToreBy(x, genesis, c, batch, s, coin, canon', head', base);
    } else {
      GrownBy(x, genesis, batch, s, coin, canon', head', base);
    }
  }

  /** The index with a stored block's entry put in is its ancestry exactly if it already was
      that of the parent, or reached no further than the block. */
  lemma AtHead(canon: map<nat, Hash>, hs: Headers, genesis: Hash, head: Hash, h: Hash)
    requires Tree(hs, genesis) && Canonical(canon, hs, genesis, head) && h in hs
    requires !(hs[h].number in canon && canon[hs[h].number] == h)
    ensures var n := hs[h].number;
      && n > 0 && hs[h].parent in hs
      && (Canonical(canon[n := h], hs, genesis, h) <==>
            n + 1 !in canon && n - 1 in canon && canon[n - 1] == hs[h].parent)
      && (hs[h].parent == head ==> n + 1 !in canon && n - 1 in canon && canon[n - 1] == hs[h].parent)
  {
    var n, p := hs[h].number, hs[h].parent;
    Rooted(hs, genesis, head);
    assert Placed(hs, genesis, h);
    AncestorStep(hs, genesis, h, n - 1);
    var canon' := canon[n := h];
    if Canonical(canon', hs, genesis, h) {
      assert n - 1 in canon' && canon'[n - 1] == AncestorAt(hs, genesis, h, n - 1);
      assert n + 1 !in canon';
    }
    if n + 1 !in canon && n - 1 in canon && canon[n - 1] == p {
      forall k | 0 <= k < n ensures k in canon && canon[k] == AncestorAt(hs, genesis, h, k) {
        AncestorStep(hs, genesis, h, k);
        SharedBelow(canon, hs, genesis, head, p, n - 1, k);
      }
    }
  }

  class HeaderChain {
    // The database.
    var headers: Headers
    var tds: map<Hash, nat>
    var canon: map<nat, Hash>

    var current: Header
    const genesis: Hash
    var caches: Caches

    /** The store is a tree, every header weighed. */
    ghost predicate Stored()
      reads this
    {
      Tree(headers, genesis) && Weighed(tds, headers, genesis) && Positive(headers, genesis)
    }

    ghost predicate CachesOk()
      reads this
    {
      CachesAgree(headers, tds, caches)
    }

    ghost predicate Indexed()
      reads this
      requires Tree(headers, genesis)
    {
      HeadIndexed(canon, headers, genesis, current)
    }

    ghost predicate Valid()
      reads this
    {
      Stored() && CachesOk() && Indexed()
    }

    ghost function Now(): Snapshot
      reads this
    {
      Snapshot(headers, tds, canon, current)
    }

    constructor (header: Header)
      requires header.hash != EMPTY && header.number == 0
      ensures Valid() && Childless() && current == header && genesis == header.hash
      ensures headers == map[header.hash := header]
    {
      headers, tds := map[header.hash := header], map[header.hash := header.difficulty];
      canon, current, genesis := map[0 := header.hash], header, header.hash;
      caches := Caches(map[], map[], map[]);
      new;
      assert Placed(headers, genesis, genesis);
    }

    method GetTd(h: Hash, number: nat) returns (td: Option<nat>)
      requires tds.Keys == headers.Keys && CachesSound(headers, tds, caches)
      modifies this`caches
      ensures CachesSound(headers, tds, caches) && (old(CachesOk()) ==> CachesOk())
      ensures caches.header == old(caches.header) && caches.number == old(caches.number)
      ensures h !in headers ==> (td.None? <==> h !in old(caches.td))
      ensures h in headers && headers[h].number == number ==> td == Some(tds[h])
    {
      if h in caches.td {
        return Some(caches.td[h]);
      }
      if h !in tds || headers[h].number != number {
        return None;
      }
      var evicted :| evicted <= caches.td.Keys;
      caches := caches.(td := (caches.td - evicted)[h := tds[h]]);
      return Some(tds[h]);
    }

    method GetHeader(h: Hash, number: nat) returns (header: Option<Header>)
      requires CachesSound(headers, tds, caches)
      modifies this`caches
      ensures CachesSound(headers, tds, caches) && (old(CachesOk()) ==> CachesOk())
      ensures h !in headers ==> (header.None? <==> h !in old(caches.header))
      ensures h in headers && headers[h].number == number ==> header == Some(headers[h])
    {
      if h in caches.header {
        return Some(caches.header[h]);
      }
      if h !in headers || headers[h].number != number {
        return None;
      }
      var evicted :| evicted <= caches.header.Keys;
      caches := caches.(header := (caches.header - evicted)[h := headers[h]]);
      return Some(headers[h]);
    }

    method GetBlockNumber(h: Hash) returns (number: Option<nat>)
      requires CachesSound(headers, tds, caches)
      modifies this`caches
      ensures CachesSound(headers, tds, caches) && (old(CachesOk()) ==> CachesOk())
      ensures h in headers ==> number == Some(headers[h].number)
      ensures h !in headers ==> (number.None? <==> h !in old(caches.number))
    {
      if h in caches.number {
        return Some(caches.number[h]);
      }
      if h !in headers {
        return None;
      }
      var evicted :| evicted <= caches.number.Keys;
      caches := caches.(number := (caches.number - evicted)[h := headers[h].number]);
      return Some(headers[h].number);
    }

    ghost predicate Childless()
      reads this
    {
      Leaf(headers, genesis, current.hash)
    }

    /** The caches may be ahead of the database, but not with the batch's first parent. */
    ghost predicate Ready(batch: seq<Header>)
      reads this
    {
      && CachesSound(headers, tds, caches)
      && (|batch| > 0 && batch[0].parent in caches.td ==> batch[0].parent in headers)
    }

    /** Caches that agree with the database are ready for every batch. */
    lemma ValidReady(batch: seq<Header>)
      requires Valid()
      ensures Ready(batch) && !Hollow(headers, caches, batch)
    {
    }

    /** Imports a verified batch. Unless it starts with headers found in the caches only,
        they are all stored, and the index follows the head exactly when the last header
        already was the head, or the batch brought a new header and is not on top of the
        head with a known one in front. Headers found in the caches only are never stored:
        what comes on top of them is stored without its parent, and if nothing does, a win
        makes a header the head that the database does not have. An import aborted after
        the storing loop leaves the new headers in the caches only. */
    method WriteHeaders(batch: seq<Header>, interrupted: bool, coin: bool) returns (r: WriteResult)
      requires Stored() && Indexed() && LinkedBatch(batch) && Meets(batch, headers) && Ready(batch)
      modifies this
      ensures CachesSound(headers, tds, caches)
      ensures r.UnknownAncestor? <==> |batch| > 0 && batch[0].parent !in old(headers)
      ensures r.Aborted? <==> |batch| > 0 && batch[0].parent in old(headers) && interrupted
      ensures !r.Written? || |batch| == 0 ==>
                headers == old(headers) && tds == old(tds) && canon == old(canon) && current == old(current)
      ensures r.Aborted? ==> Found(headers, caches, batch[|batch| - 1].hash)
      ensures r.Written? && |batch| > 0 ==>
                if old(Hollow(headers, caches, batch)) then Tore(old(Now()), Now(), genesis, batch, coin, r)
                else Grown(old(Now()), Now(), genesis, batch, coin, r)
      ensures old(CachesOk()) ==>
                (CachesOk() <==> !(r.Aborted? && exists b :: b in batch && b.hash !in old(headers)))
    {
      hide Hollow, CachesSound, CachesAgree, LinkedBatch, Tree, Positive, HeadIndexed, Storing, Tore, Grown;
      if |batch| == 0 {
        return Written(NonStatTy, 0, 0, EMPTY);
      }
      var ptd := GetTd(batch[0].parent, if batch[0].number == 0 then 0xffff_ffff_ffff_ffff else batch[0].number - 1);
      if ptd.None? {
        return UnknownAncestor;
      }
      SameHollow(headers, old(caches), caches, batch);
      ghost var c := caches;
      var s, imported := StoreBatch(headers, tds, genesis, caches, batch, ptd.value);
      caches := s.caches;
      if interrupted {
        AbortedAll(headers, tds, genesis, c, batch, ptd.value, s);
        return Aborted;
      }
      r := Commit(batch, s, imported, coin, c);
    }

    /** Flushes the batch, chooses the fork and moves the index and the head. */
    method Commit(batch: seq<Header>, s: Import, imported: nat, coin: bool, ghost c: Caches) returns (r: WriteResult)
      requires Stored() && Indexed() && Importable(batch, headers) && caches == s.caches
      requires Storing(headers, tds, genesis, c, batch, tds[batch[0].parent], |batch|, s)
      requires -1 <= s.first < |batch| && imported == if s.first < 0 then 0 else |batch| - s.first
      modifies this
      ensures CachesSound(headers, tds, caches) && (CachesAgree(old(headers), old(tds), c) ==> CachesOk())
      ensures r.Written?
      ensures if Hollow(old(headers), c, batch) then Tore(old(Now()), Now(), genesis, batch, coin, r)
              else Grown(old(Now()), Now(), genesis, batch, coin, r)
    {
      hide Hollow, CachesSound, CachesAgree, Tree, Weighed, Positive, Canonical, LinkedBatch, Meets, Laying, Solid,
        Importing, Moved, Tore, Grown;
      ghost var x := Now();
      var canon', head', won, base := ChooseFork(canon, headers, tds, genesis, current, batch, s.first, s.newTD, coin);
      var status := if imported == 0 then NonStatTy else if won then CanonStatTy else SideStatTy;
      r := Written(status, |batch| - imported, imported, batch[|batch| - 1].hash);
      canon, current, headers, tds := canon', head', s.hs, s.tds;
      Outcome(x, genesis, c, batch, s, coin, canon', head', base);
    }

    /** Stores a header with its total difficulty and nothing else, as the block chain does
        for the blocks of a side chain. */
    method WriteWithoutState(header: Header)
      requires Stored() && Indexed() && Fits(headers, header) && header.hash != genesis
      modifies this`headers, this`tds
      ensures Stored() && Indexed() && (old(CachesOk()) ==> CachesOk())
      ensures headers == old(headers)[header.hash := header]
      ensures tds == old(tds)[header.hash := old(tds)[header.parent] + header.difficulty]
    {
      ghost var hs, weights := headers, tds;
      ChildStored(headers, tds, genesis, header);
      headers, tds := headers[header.hash := header], tds[header.hash := tds[header.parent] + header.difficulty];
      CanonicalGrows(canon, hs, headers, genesis, current.hash);
      if header.hash in hs {
        assert Placed(hs, genesis, header.hash);
      }
    }

    /** Makes a stored block the head, as the block chain does once it has the block's
        state. Nothing changes for a canonical one. For another the index follows exactly if
        its parent is canonical and nothing is indexed above it. */
    method WriteHead(h: Hash)
      requires Stored() && Indexed() && h in headers
      modifies this`canon, this`current
      ensures Stored() && (old(CachesOk()) ==> CachesOk())
      ensures var n := headers[h].number;
        if n in old(canon) && old(canon)[n] == h then canon == old(canon) && current == old(current)
        else
          && canon == old(canon)[n := h] && current == headers[h] && n > 0
          && (Indexed() <==>
                n + 1 !in old(canon) && n - 1 in old(canon) && old(canon)[n - 1] == headers[h].parent)
      ensures old(current.hash) == headers[h].parent && h != genesis ==> Indexed() && current == headers[h]
    {
      assert Placed(headers, genesis, h);
      var number := headers[h].number;
      var updateHeads := !(number in canon && canon[number] == h);
      if updateHeads {
        AtHead(canon, headers, genesis, current.hash, h);
      }
      canon := canon[number := h];
      if updateHeads {
        current := headers[h];
      } else {
        assert canon == old(canon);
      }
    }

    /** Rewinds to number `to`. Below the current header everything above `to` goes,
        on every fork; at or above it only the caches are dropped, and with them whatever
        they were ahead of the database. */
    method SetHead(to: nat)
      requires Stored() && Indexed()
      modifies this
      ensures Valid() && caches == Caches(map[], map[], map[])
      ensures to >= old(current.number) ==>
                headers == old(headers) && tds == old(tds) && canon == old(canon) && current == old(current)
      ensures to < old(current.number) ==>
                && headers == Trimmed(old(headers), to)
                  && canon == (map n | n in old(canon) && n <= to :: old(canon)[n])
                && current.hash == AncestorAt(old(headers), genesis, old(current.hash), to) && Childless()
    {
      var parent, gone, unindexed := Rewind(headers, genesis, canon, current, to);
      TrimmedOrSame(headers, tds, genesis, canon, current, to, parent, gone, unindexed);
      current, headers, tds, canon := parent, headers - gone, tds - gone, canon - unindexed;
      caches := Caches(map[], map[], map[]);
    }
  }
}
