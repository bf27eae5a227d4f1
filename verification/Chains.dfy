/** Block trees: headers stored by hash, linked to their parents, and the
    number-to-hash index of the canonical branch.
 */
module Chains {

  type Hash = nat

  /** common.Hash{}: no block has it. */
  const EMPTY: Hash := 0

  /** A header. Its hash identifies it: see `SameBlocks`. */
  datatype Header = Header(hash: Hash, parent: Hash, number: nat, difficulty: nat)

  type Headers = map<Hash, Header>

  /** h is filed under its hash and, unless it is genesis, sits right above its parent. */
  ghost predicate Placed(hs: Headers, genesis: Hash, h: Hash)
    requires h in hs
  {
    && h != EMPTY && hs[h].hash == h
    && (hs[h].number == 0 <==> h == genesis)
    && (h != genesis ==> hs[h].parent in hs && hs[hs[h].parent].number + 1 == hs[h].number)
  }

  /** A parent-closed store with one root. */
  ghost predicate Tree(hs: Headers, genesis: Hash) {
    && genesis in hs
    && forall h {:trigger Placed(hs, genesis, h)} :: h in hs ==> Placed(hs, genesis, h)
  }

  /** The hash of h's ancestor with number n. */
  ghost function AncestorAt(hs: Headers, genesis: Hash, h: Hash, n: nat): (a: Hash)
    requires Tree(hs, genesis) && h in hs && n <= hs[h].number
    ensures a in hs && hs[a].number == n
    decreases hs[h].number
  {
    assert Placed(hs, genesis, h);
    if hs[h].number == n then h else AncestorAt(hs, genesis, hs[h].parent, n)
  }

  /** The index names exactly the ancestors of head, head included, and nothing else. */
  ghost predicate Canonical(canon: map<nat, Hash>, hs: Headers, genesis: Hash, head: Hash)
    requires Tree(hs, genesis)
  {
    && head in hs
    && (forall n :: n in canon <==> 0 <= n <= hs[head].number)
    && forall n :: n in canon ==> canon[n] == AncestorAt(hs, genesis, head, n)
  }

  lemma {:induction false} AncestorChains(hs: Headers, genesis: Hash, h: Hash, m: nat, n: nat)
    requires Tree(hs, genesis) && h in hs && n <= m <= hs[h].number
    ensures AncestorAt(hs, genesis, AncestorAt(hs, genesis, h, m), n) == AncestorAt(hs, genesis, h, n)
    decreases hs[h].number
  {
    assert Placed(hs, genesis, h);
    if m < hs[h].number {
      AncestorChains(hs, genesis, hs[h].parent, m, n);
    }
  }

  lemma AncestorStep(hs: Headers, genesis: Hash, h: Hash, n: nat)
    requires Tree(hs, genesis) && h in hs && n < hs[h].number
    ensures hs[h].parent in hs && n <= hs[hs[h].parent].number
    ensures AncestorAt(hs, genesis, h, n) == AncestorAt(hs, genesis, hs[h].parent, n)
    ensures hs[AncestorAt(hs, genesis, h, n + 1)].parent == AncestorAt(hs, genesis, h, n)
  {
    assert Placed(hs, genesis, h);
    var a := AncestorAt(hs, genesis, h, n + 1);
    AncestorChains(hs, genesis, h, n + 1, n);
    assert Placed(hs, genesis, a);
  }

  lemma {:induction false} Rooted(hs: Headers, genesis: Hash, h: Hash)
    requires Tree(hs, genesis) && h in hs
    ensures AncestorAt(hs, genesis, h, 0) == genesis
  {
    assert Placed(hs, genesis, AncestorAt(hs, genesis, h, 0));
  }

  /** Hashes identify headers: the same hash in both stores means the same header. */
  ghost predicate SameBlocks(a: Headers, b: Headers) {
    forall h :: h in a && h in b ==> a[h] == b[h]
  }

  /** Ancestors do not change when the store grows or loses other branches. */
  lemma {:induction false} AncestorsAgree(a: Headers, b: Headers, genesis: Hash, h: Hash, n: nat)
    requires Tree(a, genesis) && Tree(b, genesis) && SameBlocks(a, b)
    requires h in a && h in b && n <= a[h].number
    ensures AncestorAt(a, genesis, h, n) == AncestorAt(b, genesis, h, n)
    decreases a[h].number
  {
    assert Placed(a, genesis, h) && Placed(b, genesis, h);
    if n < a[h].number {
      AncestorsAgree(a, b, genesis, a[h].parent, n);
    }
  }

  /** Two canonical hashes on one branch: what lies below the meeting point is shared. */
  lemma SharedBelow(canon: map<nat, Hash>, hs: Headers, genesis: Hash, head: Hash, h: Hash, m: nat, n: nat)
    requires Tree(hs, genesis) && Canonical(canon, hs, genesis, head)
    requires h in hs && n <= m <= hs[h].number && m in canon && canon[m] == AncestorAt(hs, genesis, h, m)
    ensures n in canon && canon[n] == AncestorAt(hs, genesis, h, n)
  {
    AncestorChains(hs, genesis, head, m, n);
    AncestorChains(hs, genesis, h, m, n);
  }
}
