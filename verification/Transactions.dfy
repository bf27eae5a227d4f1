/** Transactions as the pool sees them, and the nonce-ordered view of a set of
    transactions of one account.
 */
module Transactions {

  type Address = nat

  /** A signed transaction. Its hash is its identity, so two transactions are the
      same one exactly when all fields agree. */
  datatype Tx = Tx(
    id: nat,          // stands for the payload and signature that tell two hashes apart
    from: Address,    // the recovered sender
    nonce: nat,
    gas: nat,
    cost: int,        // value + gas * price
    feeCap: int,
    tipCap: int,
    slots: nat)       // numSlots

  /** Every transaction is filed under its own nonce. */
  ghost predicate Keyed(m: map<nat, Tx>) {
    forall n :: n in m ==> m[n].nonce == n
  }

  /** Slot i comes before slot j and holds a lower nonce. */
  ghost predicate Rises(s: seq<Tx>, i: int, j: int) {
    0 <= i < j < |s| ==> s[i].nonce < s[j].nonce
  }

  ghost predicate Ascending(s: seq<Tx>) {
    forall i, j :: Rises(s, i, j)
  }

  predicate Holds(m: map<nat, Tx>, tx: Tx) {
    tx.nonce in m && m[tx.nonce] == tx
  }

  /** s lists exactly the transactions of m, by rising nonce. */
  ghost predicate IsFlat(s: seq<Tx>, m: map<nat, Tx>) {
    Ascending(s) && forall tx :: tx in s <==> Holds(m, tx)
  }

  function TxSet(m: map<nat, Tx>): set<Tx> {
    set n | n in m :: m[n]
  }

  ghost function Least(keys: set<nat>): (k: nat)
    requires keys != {}
    ensures k in keys && forall n :: n in keys ==> k <= n
  {
    var a :| a in keys;
    if keys == {a} then a else
    var rest := keys - {a};
    assert keys == rest + {a};
    if Least(rest) < a then Least(rest) else a
  }

  lemma {:induction false} FlatExists(m: map<nat, Tx>) returns (s: seq<Tx>)
    ensures IsFlat(s, m)
    ensures Keyed(m) ==> |s| == |m|
    decreases |m|
  {
    if |m| == 0 {
      return [];
    }
    var k := Least(m.Keys);
    assert (m - {k}).Keys == m.Keys - {k};
    var rest := FlatExists(m - {k});
    s := if m[k].nonce == k then [m[k]] + rest else rest;
    forall tx ensures tx in s <==> Holds(m, tx) {
      assert Holds(m, tx) <==> Holds(m - {k}, tx) || (tx == m[k] && tx.nonce == k);
    }
    forall i, j ensures Rises(s, i, j) {
      if 0 <= i < j < |s| && m[k].nonce == k {
        assert s[j] == rest[j - 1] && rest[j - 1] in rest;
        assert Rises(rest, i - 1, j - 1);
      } else {
        assert Rises(rest, i, j);
      }
    }
  }

  /** The transactions of m by rising nonce. */
  ghost function Flat(m: map<nat, Tx>): (s: seq<Tx>)
    ensures Keyed(m) ==> |s| == |m|
  {
    assert exists s :: IsFlat(s, m) && (Keyed(m) ==> |s| == |m|) by {
      var s := FlatExists(m);
    }
    var s :| IsFlat(s, m) && (Keyed(m) ==> |s| == |m|);
    s
  }

  /** Rising order and contents determine the listing. */
  lemma {:induction false} FlatUnique(m: map<nat, Tx>, s: seq<Tx>, t: seq<Tx>)
    requires IsFlat(s, m) && IsFlat(t, m)
    ensures s == t
    decreases |s|
  {
    assert |t| > 0 ==> t[0] in t && t[0] in s;
    assert |s| > 0 ==> s[0] in s && s[0] in t;
    if |s| > 0 {
      var j :| 0 <= j < |t| && t[j] == s[0];
      var i :| 0 <= i < |s| && s[i] == t[0];
      assert Rises(s, 0, i) && Rises(t, 0, j);
      FlatTail(s, m);
      FlatTail(t, m);
      FlatUnique(m - {s[0].nonce}, s[1..], t[1..]);
      assert s == [s[0]] + s[1..] && t == [t[0]] + t[1..];
    }
  }

  lemma FlatTail(s: seq<Tx>, m: map<nat, Tx>)
    requires IsFlat(s, m) && |s| > 0
    ensures IsFlat(s[1..], m - {s[0].nonce})
  {
    var m' := m - {s[0].nonce};
    forall tx ensures tx in s[1..] <==> Holds(m', tx) {
      if tx in s[1..] {
        var i :| 1 <= i < |s| && s[i] == tx;
        assert s[i] in s && Rises(s, 0, i);
      }
      if Holds(m', tx) {
        assert tx in s;
        var i :| 0 <= i < |s| && s[i] == tx;
        assert s[1..][i - 1] == tx;
      }
    }
    forall i, j ensures Rises(s[1..], i, j) {
      assert Rises(s, i + 1, j + 1);
    }
  }

  /** Cutting the listing at k splits the map the same way. */
  lemma FlatCut(m: map<nat, Tx>, low: map<nat, Tx>, k: nat)
    requires Keyed(m) && k <= |m|
    requires forall n :: n in low <==> n in m && m[n] in Flat(m)[..k]
    requires forall n :: n in low ==> low[n] == m[n]
    ensures Flat(low) == Flat(m)[..k]
  {
    var f := Flat(m);
    forall tx ensures tx in f[..k] <==> Holds(low, tx) {
      if tx in f[..k] { assert tx in f; }
    }
    forall i, j ensures Rises(f[..k], i, j) {
      assert Rises(f, i, j);
    }
    FlatUnique(low, Flat(low), f[..k]);
  }

  lemma FlatNonces(m: map<nat, Tx>, i: nat)
    requires Keyed(m) && i < |m|
    ensures Flat(m)[i].nonce in m && m[Flat(m)[i].nonce] == Flat(m)[i]
  {
    assert Flat(m)[i] in Flat(m);
    assert Holds(m, Flat(m)[i]);
  }
}
