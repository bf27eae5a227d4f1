/** Ancestor lookups that shortcut the parent walk: through the canonical index
    (core/headerchain.go, GetAncestor) and through a memoising closure
    (core/evm.go, GetHashFn).
 */
module Ancestry {
  import opened Chains

  /** rawdb.ReadCanonicalHash */
  function ReadCanonicalHash(canon: map<nat, Hash>, n: nat): Hash {
    if n in canon then canon[n] else EMPTY
  }

  /** The number of the nearest ancestor of h, h included, that is on the index. */
  ghost function ForkNumber(canon: map<nat, Hash>, hs: Headers, genesis: Hash, h: Hash): (n: nat)
    requires Tree(hs, genesis) && h in hs
    ensures n <= hs[h].number
    decreases hs[h].number
  {
    assert Placed(hs, genesis, h);
    if h == genesis || (hs[h].number in canon && canon[hs[h].number] == h) then hs[h].number
    else ForkNumber(canon, hs, genesis, hs[h].parent)
  }

  /** What GetAncestor has to answer for a stored hash: the ancestor reached by
      parent steps, provided the walk down to the index fits the allowance. */
  ghost predicate AncestorFound(canon: map<nat, Hash>, hs: Headers, genesis: Hash, h: Hash, ancestor: nat, max: nat,
                                found: Hash, at: nat, max': nat)
    requires Tree(hs, genesis) && h in hs && ancestor <= hs[h].number
  {
    var number := hs[h].number;
    var off := number - ForkNumber(canon, hs, genesis, h);
    var steps := if ancestor < off then ancestor else off;
    if steps <= max
    then found == AncestorAt(hs, genesis, h, number - ancestor) && at == number - ancestor && max' == max - steps
    else found == EMPTY && at == 0 && max' == 0
  }

  method GetAncestor(canon: map<nat, Hash>, hs: Headers, ghost genesis: Hash, ghost head: Hash,
                     hash0: Hash, number0: nat, ancestor0: nat, max0: nat)
    returns (found: Hash, at: nat, max: nat)
    requires Tree(hs, genesis) && Canonical(canon, hs, genesis, head)
    requires hash0 in hs ==> hs[hash0].number == number0
    ensures ancestor0 > number0 ==> found == EMPTY && at == 0 && max == max0
    ensures ancestor0 == 0 ==> found == hash0 && at == number0 && max == max0
    ensures 0 < ancestor0 <= number0 && hash0 !in hs && hash0 != EMPTY ==> found == EMPTY && at == 0
    ensures ancestor0 == 1 <= number0 && hash0 in hs ==>
              found == AncestorAt(hs, genesis, hash0, number0 - 1) && at == number0 - 1 && max == max0
    ensures 1 < ancestor0 <= number0 && hash0 in hs ==>
              AncestorFound(canon, hs, genesis, hash0, ancestor0, max0, found, at, max)
    // The empty hash passes for canonical above the head.
    ensures 1 < ancestor0 <= number0 && hash0 == EMPTY ==>
              found == if number0 in canon then EMPTY else ReadCanonicalHash(canon, number0 - ancestor0)
  {
    max := max0;
    if ancestor0 > number0 {
      return EMPTY, 0, max;
    }
    assert EMPTY !in hs by {
      assert EMPTY in hs ==> Placed(hs, genesis, EMPTY);
    }
    if ancestor0 == 1 {
      if hash0 in hs {
        AncestorStep(hs, genesis, hash0, number0 - 1);
        return hs[hash0].parent, number0 - 1, max;
      }
      return EMPTY, 0, max;
    }
    var hash: Hash, number: nat, ancestor: nat := hash0, number0, ancestor0;
    while ancestor != 0
      invariant ancestor <= number && number - ancestor == number0 - ancestor0
      invariant max0 - max == ancestor0 - ancestor == number0 - number
      invariant hash0 in hs ==> hash == AncestorAt(hs, genesis, hash0, number)
      invariant hash0 in hs && number < number0 ==>
                ForkNumber(canon, hs, genesis, hash) == ForkNumber(canon, hs, genesis, hash0)
      invariant hash0 !in hs ==> hash == hash0 && number == number0 && max == max0
      invariant max >= 0
      decreases ancestor
    {
      if hash0 in hs {
        OnIndexIff(canon, hs, genesis, head, hash);
      } else {
        assert number in canon ==> canon[number] in hs;
      }
      if ReadCanonicalHash(canon, number) == hash {
        if hash0 in hs {
          SharedBelow(canon, hs, genesis, head, hash0, number, number - ancestor);
        }
        return ReadCanonicalHash(canon, number - ancestor), number - ancestor, max;
      }
      if max == 0 {
        return EMPTY, 0, max;
      }
      max, ancestor := max - 1, ancestor - 1;
      if hash !in hs {
        return EMPTY, 0, max;
      }
      AncestorStep(hs, genesis, hash0, number - 1);
      hash, number := hs[hash].parent, number - 1;
    }
    return hash, number, max;
  }

  /** A hash is on the index exactly when it is its own fork point. */
  lemma OnIndexIff(canon: map<nat, Hash>, hs: Headers, genesis: Hash, head: Hash, h: Hash)
    requires Tree(hs, genesis) && Canonical(canon, hs, genesis, head) && h in hs
    ensures ReadCanonicalHash(canon, hs[h].number) == h <==> ForkNumber(canon, hs, genesis, h) == hs[h].number
    ensures ForkNumber(canon, hs, genesis, h) < hs[h].number ==>
              hs[h].parent in hs && ForkNumber(canon, hs, genesis, hs[h].parent) == ForkNumber(canon, hs, genesis, h)
  {
    assert Placed(hs, genesis, h);
    Rooted(hs, genesis, head);
  }

  const TWO64: nat := 0x1_0000_0000_0000_0000

  /** uint64 subtraction, which wraps around. */
  function Sub64(a: nat, b: nat): nat
    requires a < TWO64 && b <= TWO64
  {
    if b <= a then a - b else a - b + TWO64
  }

  /** The hash of ref's ancestor number n by parent steps, EMPTY if there is none
      or the chain of stored headers does not reach it. */
  ghost function HashOf(hs: Headers, genesis: Hash, ref: Header, n: nat): Hash
    requires Tree(hs, genesis) && (ref.parent in hs ==> ref.number == hs[ref.parent].number + 1)
  {
    if n >= ref.number then EMPTY
    else if n == ref.number - 1 then ref.parent
    else if ref.parent in hs then AncestorAt(hs, genesis, ref.parent, n)
    else EMPTY
  }

  /** The cache is a prefix of ref's ancestor hashes, from the parent down; behind
      genesis there is the empty hash. */
  ghost predicate Prefix(cache: seq<Hash>, hs: Headers, genesis: Hash, ref: Header)
    requires Tree(hs, genesis) && (ref.parent in hs ==> ref.number == hs[ref.parent].number + 1)
  {
    && |cache| <= ref.number + 1
    && (|cache| > 1 ==> ref.parent in hs)
    && forall k :: 0 <= k < |cache| ==>
         cache[k] == if k < ref.number then HashOf(hs, genesis, ref, ref.number - 1 - k) else EMPTY
  }

  /** The parent of the last cached header extends the prefix. */
  lemma Descend(cache: seq<Hash>, hs: Headers, genesis: Hash, ref: Header)
    requires Tree(hs, genesis) && hs[genesis].parent == EMPTY && EMPTY !in hs
    requires (ref.parent in hs ==> ref.number == hs[ref.parent].number + 1) && (ref.number == 0 ==> ref.parent == EMPTY)
    requires Prefix(cache, hs, genesis, ref) && |cache| > 0 && cache[|cache| - 1] in hs
    ensures |cache| <= ref.number && hs[cache[|cache| - 1]].number == ref.number - |cache|
    ensures Prefix(cache + [hs[cache[|cache| - 1]].parent], hs, genesis, ref)
  {
    var c, last := |cache|, cache[|cache| - 1];
    assert c <= ref.number;
    assert Placed(hs, genesis, last);
    if last != genesis {
      AncestorStep(hs, genesis, ref.parent, ref.number - c - 1);
    }
  }

  /** What makes the walk possible. */
  ghost predicate Walkable(hs: Headers, genesis: Hash, ref: Header) {
    && Tree(hs, genesis) && hs[genesis].parent == EMPTY && EMPTY !in hs
    && ref.number < TWO64 && (ref.parent in hs ==> ref.number == hs[ref.parent].number + 1)
    && (ref.number == 0 ==> ref.parent == EMPTY)
  }

  /** The last cached hash belongs to the number the walk has come to. */
  lemma LastCached(cache: seq<Hash>, hs: Headers, genesis: Hash, ref: Header, n: nat)
    requires Walkable(hs, genesis, ref) && Prefix(cache, hs, genesis, ref) && |cache| > 0
    requires n == Sub64(ref.number, |cache|)
    ensures HashOf(hs, genesis, ref, n) == cache[|cache| - 1]
  {
  }

  /** Where the walk ends there are no deeper ancestors. */
  lemma WalkEnds(cache: seq<Hash>, hs: Headers, genesis: Hash, ref: Header, n: nat)
    requires Walkable(hs, genesis, ref) && Prefix(cache, hs, genesis, ref) && |cache| > 0
    requires n < ref.number ==> n < ref.number - |cache|
    requires cache[|cache| - 1] in hs ==> hs[cache[|cache| - 1]].number != Sub64(ref.number, |cache|)
    ensures HashOf(hs, genesis, ref, n) == EMPTY
  {
  }

  /** A query within the cache is answered from it. */
  lemma CacheHit(cache: seq<Hash>, hs: Headers, genesis: Hash, ref: Header, n: nat)
    requires Walkable(hs, genesis, ref) && Prefix(cache, hs, genesis, ref) && n < TWO64
    ensures var i := Sub64(Sub64(ref.number, n), 1); i < |cache| ==> HashOf(hs, genesis, ref, n) == cache[i]
    ensures var i := Sub64(Sub64(ref.number, n), 1); i >= |cache| && n < ref.number ==> n < ref.number - |cache|
  {
  }

  /** The closure GetHashFn returns. */
  class HashFn {
    const ref: Header
    const hs: Headers
    ghost const genesis: Hash
    var cache: seq<Hash>

    ghost predicate Valid()
      reads this
    {
      Walkable(hs, genesis, ref) && Prefix(cache, hs, genesis, ref)
    }

    constructor (ref: Header, hs: Headers, ghost genesis: Hash)
      requires Walkable(hs, genesis, ref)
      ensures Valid()
    {
      this.ref, this.hs, this.genesis, cache := ref, hs, genesis, [];
    }

    /** Whatever was asked before, the answer is that of the parent walk. */
    method Get(n: nat) returns (h: Hash)
      requires Valid() && n < TWO64
      modifies this`cache
      ensures Valid() && old(cache) <= cache
      ensures h == HashOf(hs, genesis, ref, n)
    {
      hide Tree;
      if |cache| == 0 {
        cache := [ref.parent];
      }
      var idx := Sub64(Sub64(ref.number, n), 1);
      CacheHit(cache, hs, genesis, ref, n);
      if idx < |cache| {
        return cache[idx];
      }
      hide HashOf, Prefix;
      var lastHash, lastNumber := cache[|cache| - 1], Sub64(ref.number, |cache|);
      while lastHash in hs && hs[lastHash].number == lastNumber
        invariant Valid() && |cache| > 0 && old(cache) <= cache
        invariant n < ref.number ==> n < ref.number - |cache|
        invariant lastHash == cache[|cache| - 1] && lastNumber == Sub64(ref.number, |cache|)
        decreases ref.number + 1 - |cache|
      {
        Descend(cache, hs, genesis, ref);
        var header := hs[lastHash];
        cache := cache + [header.parent];
        lastHash, lastNumber := header.parent, Sub64(header.number, 1);
        if n == lastNumber {
          LastCached(cache, hs, genesis, ref, n);
          return lastHash;
        }
      }
      WalkEnds(cache, hs, genesis, ref, n);
      return EMPTY;
    }
  }
}
