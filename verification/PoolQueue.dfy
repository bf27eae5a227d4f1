/** Cutting the queue to its limit (core/tx_pool.go): accounts are emptied one after
    the other until enough transactions are gone, the last one only in part.
 */
module PoolQueue {
  import opened Transactions
  import opened TxSortedMaps
  import opened PoolContent
  import opened PoolTruncate
  import Heap

  function Sub(a: nat, b: nat): nat { if a <= b then 0 else a - b }

  /** The queue with up to `drop` transactions of one account gone, highest nonces first. */
  function CutOne(q: Book, a: Address, drop: nat): Book {
    WithItems(q, a, Lowest(Items(q, a), Sub(|Items(q, a)|, drop)))
  }

  /** The queue after dropping `drop` transactions from the last of `accounts` on. */
  function QueueCut(q: Book, accounts: seq<Address>, drop: nat): Book {
    if drop == 0 || accounts == [] then q else
    var a, rest := accounts[|accounts| - 1], accounts[..|accounts| - 1];
    QueueCut(CutOne(q, a, drop), rest, Sub(drop, |Items(q, a)|))
  }

  lemma QueueCutStep(q: Book, accounts: seq<Address>, drop: nat)
    requires drop > 0 && accounts != []
    ensures var a := accounts[|accounts| - 1];
      QueueCut(q, accounts, drop) == QueueCut(CutOne(q, a, drop), accounts[..|accounts| - 1], Sub(drop, |Items(q, a)|))
  {
    hide CutOne;
  }

  lemma QueueCutEnds(q: Book, accounts: seq<Address>, drop: nat)
    requires drop == 0 || accounts == []
    ensures QueueCut(q, accounts, drop) == q
  {
  }

  /** What was cut off a list are its highest nonces. */
  ghost predicate CutFrom(q: Book, q': Book, a: Address) {
    Items(q', a) == Lowest(Items(q, a), |Items(q', a)|)
  }

  lemma CutOneFacts(q: Book, a: Address, drop: nat)
    requires BookOk(q)
    ensures var q' := CutOne(q, a, drop);
      && BookOk(q') && |Items(q', a)| == Sub(|Items(q, a)|, drop)
      && TotalLen(q') == TotalLen(q) - |Items(q, a)| + |Items(q', a)|
  {
    var m := Items(q, a);
    assert OwnedBy(m, a);
    var low := Lowest(m, Sub(|m|, drop));
    LowestFacts(m, Sub(|m|, drop));
    assert OwnedBy(low, a);
    TotalWith(q, a, low);
    hide Lowest, TotalLen;
    var q' := CutOne(q, a, drop);
    forall x | x in q' ensures q'[x] != map[] && OwnedBy(q'[x], x) {
      assert q'[x] == Items(q', x);
      if x != a { assert q'[x] == Items(q, x) == q[x]; }
    }
  }

  lemma TotalWith(q: Book, a: Address, m: map<nat, Tx>)
    ensures TotalLen(WithItems(q, a, m)) == TotalLen(q) - |Items(q, a)| + |m|
  {
    hide TotalLen;
    TotalMinus(q, a);
    TotalPlus(q, a, m);
  }

  lemma TotalMinus(q: Book, a: Address)
    ensures TotalLen(q - {a}) == TotalLen(q) - |Items(q, a)|
  {
    hide TotalLen;
    if a in q {
      TotalWithout(q, a);
    } else {
      assert q - {a} == q;
    }
  }

  lemma TotalPlus(q: Book, a: Address, m: map<nat, Tx>)
    ensures TotalLen(q[a := m]) == TotalLen(q - {a}) + |m|
  {
    hide TotalLen;
    TotalWithout(q[a := m], a);
    assert q[a := m] - {a} == q - {a};
  }

  /** Only accounts listed lose transactions, and they lose their highest nonces. */
  lemma {:induction false} CutPrefixes(q: Book, accounts: seq<Address>, drop: nat, a: Address)
    requires BookOk(q)
    ensures CutFrom(q, QueueCut(q, accounts, drop), a) && |Items(QueueCut(q, accounts, drop), a)| <= |Items(q, a)|
    ensures a !in accounts ==> Items(QueueCut(q, accounts, drop), a) == Items(q, a)
    decreases |accounts|
  {
    if drop == 0 || accounts == [] {
      AllLowest(Items(q, a), |Items(q, a)|);
    } else {
      var x, rest := accounts[|accounts| - 1], accounts[..|accounts| - 1];
      CutOneFacts(q, x, drop);
      CutPrefixes(CutOne(q, x, drop), rest, Sub(drop, |Items(q, x)|), a);
      hide Lowest, BookOk;
      var q' := QueueCut(CutOne(q, x, drop), rest, Sub(drop, |Items(q, x)|));
      assert q' == QueueCut(q, accounts, drop);
      if a == x {
        LowestTwice(Items(q, a), Sub(|Items(q, x)|, drop), |Items(q', a)|);
      }
    }
  }

  /** Exactly `drop` transactions go, unless all the listed accounts run dry. */
  lemma {:induction false} CutTotal(q: Book, accounts: seq<Address>, drop: nat)
    requires BookOk(q) && drop <= TotalLen(q)
    ensures var q' := QueueCut(q, accounts, drop);
      && TotalLen(q') >= TotalLen(q) - drop
      && (TotalLen(q') == TotalLen(q) - drop || forall a :: a in accounts ==> Items(q', a) == map[])
    decreases |accounts|
  {
    if drop > 0 && accounts != [] {
      var x, rest := accounts[|accounts| - 1], accounts[..|accounts| - 1];
      var q1, drop1 := CutOne(q, x, drop), Sub(drop, |Items(q, x)|);
      CutOneFacts(q, x, drop);
      CutTotal(q1, rest, drop1);
      CutPrefixes(q1, rest, drop1, x);
      hide Lowest, TotalLen, BookOk, CutOne;
      var q' := QueueCut(q1, rest, drop1);
      assert q' == QueueCut(q, accounts, drop);
      if drop1 > 0 {
        assert |Items(q', x)| == 0;
        forall a | a in accounts ensures a == x || a in rest { }
      }
    }
  }

  ghost function NoncesOf(txs: seq<Tx>): set<nat> {
    set i | 0 <= i < |txs| :: txs[i].nonce
  }

  lemma NoncesGrow(txs: seq<Tx>, i: nat)
    requires i < |txs|
    ensures NoncesOf(txs[..i + 1]) == NoncesOf(txs[..i]) + {txs[i].nonce}
  {
    var t := txs[..i + 1];
    forall n ensures n in NoncesOf(t) <==> n in NoncesOf(txs[..i]) + {txs[i].nonce} {
      if n in NoncesOf(t) {
        var j :| 0 <= j < |t| && t[j].nonce == n;
        assert j < i ==> txs[..i][j].nonce == n;
      }
      if n in NoncesOf(txs[..i]) {
        var j :| 0 <= j < i && txs[..i][j].nonce == n;
        assert t[j].nonce == n;
      }
      assert t[i].nonce == txs[i].nonce;
    }
  }

  /** One more transaction taken from the list of an account. */
  lemma OneLess(q0: Book, a: Address, gone: set<nat>, n: nat)
    requires BookOk(q0)
    ensures var q := WithItems(q0, a, Items(q0, a) - gone);
      WithItems(q, a, Items(q, a) - {n}) == WithItems(q0, a, Items(q0, a) - (gone + {n}))
  {
    var m := Items(q0, a);
    assert m - gone - {n} == m - (gone + {n});
    WithTwice(q0, a, m - gone, m - gone - {n});
  }

  lemma WithTwice(q: Book, a: Address, m: map<nat, Tx>, m': map<nat, Tx>)
    ensures WithItems(WithItems(q, a, m), a, m') == WithItems(q, a, m')
  {
    assert q[a := m] - {a} == q - {a};
    assert (q - {a})[a := m'] == q[a := m'];
    assert q[a := m][a := m'] == q[a := m'];
    assert q - {a} - {a} == q - {a};
  }

  /** Without the listed tail only the lowest nonces are left. */
  lemma TailGone(m: map<nat, Tx>, k: nat, gone: seq<Tx>)
    requires Keyed(m) && k <= |m|
    requires forall tx :: tx in gone <==> tx in Flat(m)[k..]
    ensures m - NoncesOf(gone) == Lowest(m, k)
  {
    hide Flat, NoncesOf, PlaceOf;
    forall n | n in m ensures n in NoncesOf(gone) <==> n !in Lowest(m, k) {
      InTail(m, k, gone, n);
      PlaceBelow(m, n, k);
      RankOf(m, PlaceOf(m, n));
    }
  }

  lemma InTail(m: map<nat, Tx>, k: nat, gone: seq<Tx>, n: nat)
    requires Keyed(m) && k <= |m| && n in m
    requires forall tx :: tx in gone <==> tx in Flat(m)[k..]
    ensures n in NoncesOf(gone) <==> m[n] in Flat(m)[k..]
  {
    if m[n] in Flat(m)[k..] {
      var j :| 0 <= j < |gone| && gone[j] == m[n];
    }
    if n in NoncesOf(gone) {
      var j :| 0 <= j < |gone| && gone[j].nonce == n;
      assert gone[j] in gone && gone[j] in Flat(m)[k..] && gone[j] in Flat(m);
      assert Holds(m, gone[j]);
    }
  }

  lemma QueueOk(pending: Book, queue: Book, l: Lookup, a: Address)
    requires PoolOk(pending, queue, l)
    ensures BookOk(queue) && Keyed(Items(queue, a)) && WithItems(queue, a, Items(queue, a)) == queue
  {
    SameItems(queue, a);
    assert OwnedBy(Items(queue, a), a);
  }

  lemma NoNonces(txs: seq<Tx>)
    ensures NoncesOf(txs[..0]) == {}
  {
  }

  /** Removing other nonces leaves a transaction queued. */
  lemma StillListed(q: Book, a: Address, txs: seq<Tx>, i: nat)
    requires i < |txs| && txs[i].from == a && InBook(q, txs[i])
    requires forall i, j :: 0 <= i < j < |txs| ==> txs[i].nonce != txs[j].nonce
    ensures InBook(WithItems(q, a, Items(q, a) - NoncesOf(txs[..i])), txs[i])
  {
    forall j | 0 <= j < i ensures txs[..i][j].nonce != txs[i].nonce { }
  }

  lemma FlatListed(q: Book, a: Address)
    requires BookOk(q)
    ensures Keyed(Items(q, a)) && forall tx :: tx in Flat(Items(q, a)) ==> tx.from == a && InBook(q, tx)
    ensures forall i, j :: 0 <= i < j < |Flat(Items(q, a))| ==> Flat(Items(q, a))[i].nonce != Flat(Items(q, a))[j].nonce
  {
    var m := Items(q, a);
    assert OwnedBy(m, a);
    forall i, j | 0 <= i < j < |Flat(m)| ensures Flat(m)[i].nonce != Flat(m)[j].nonce {
      assert Rises(Flat(m), i, j);
    }
    forall tx | tx in Flat(m) ensures tx.from == a && InBook(q, tx) {
      assert Holds(m, tx);
    }
  }

  lemma TailReversed(txs: seq<Tx>, drop: nat, tail: seq<Tx>)
    requires drop <= |txs| && |tail| == drop && forall i :: 0 <= i < drop ==> tail[i] == txs[|txs| - 1 - i]
    ensures forall tx :: tx in tail <==> tx in txs[|txs| - drop..]
    ensures forall tx :: tx in tail ==> tx in txs
  {
    var k := |txs| - drop;
    forall tx ensures tx in tail <==> tx in txs[k..] {
      if tx in txs[k..] {
        var j :| 0 <= j < drop && txs[k..][j] == tx;
        assert tail[drop - 1 - j] == tx;
      }
      if tx in tail {
        var i :| 0 <= i < drop && tail[i] == tx;
        assert txs[k..][drop - 1 - i] == tx;
      }
    }
  }

  /** The transactions of an account that dropping up to `drop` takes, in the order
      they are removed: all of them, or the last ones from the end. */
  method Doomed(q: Book, a: Address, drop: nat) returns (txs: seq<Tx>)
    requires BookOk(q)
    ensures WithItems(q, a, Items(q, a) - NoncesOf(txs)) == CutOne(q, a, drop)
    ensures forall tx :: tx in txs ==> tx.from == a && InBook(q, tx)
    ensures forall i, j :: 0 <= i < j < |txs| ==> txs[i].nonce != txs[j].nonce
  {
    hide Flat, NoncesOf, Lowest, WithItems, BookOk;
    var m := Items(q, a);
    FlatListed(q, a);
    var all := Sorted(m);
    if |m| <= drop {
      txs := all;
      assert all[0..] == all;
      TailGone(m, 0, txs);
    } else {
      txs := seq(drop, i requires 0 <= i < drop => all[|all| - 1 - i]);
      TailReversed(all, drop, txs);
      TailGone(m, |m| - drop, txs);
    }
  }

  /** The queue meets its limit, or only local accounts have queued transactions. */
  ghost predicate QueueWithin(q: Book, locals: set<Address>, limit: nat) {
    TotalLen(q) <= limit || forall a :: a !in locals ==> Items(q, a) == map[]
  }

  lemma QueueFits(q: Book, locals: set<Address>, limit: nat)
    requires TotalLen(q) <= limit
    ensures QueueWithin(q, locals, limit)
  {
  }

  ghost predicate ByBeat(accounts: seq<Address>, beats: Address -> int) {
    forall i, j :: 0 <= i < j < |accounts| ==> beats(accounts[i]) <= beats(accounts[j])
  }

  function Earlier(beats: Address -> int): (Address, Address) -> bool {
    (a: Address, b: Address) => beats(a) < beats(b)
  }

  /** A set of accounts in any order. */
  method ListAccounts(s: set<Address>) returns (accounts: seq<Address>)
    ensures forall a :: a in accounts <==> a in s
  {
    accounts := [];
    var todo := s;
    while todo != {}
      invariant todo <= s && forall a :: a in accounts <==> a in s - todo
      decreases |todo|
    {
      var a :| a in todo;
      accounts, todo := accounts + [a], todo - {a};
    }
  }

  /** A set of accounts by rising heartbeat. */
  method ListByBeat(s: set<Address>, beats: Address -> int) returns (accounts: seq<Address>)
    ensures ByBeat(accounts, beats) && forall a :: a in accounts <==> a in s
  {
    var listed := ListAccounts(s);
    accounts := Heap.Sort(listed, Earlier(beats));
    forall i, j | 0 <= i < j < |accounts| ensures beats(accounts[i]) <= beats(accounts[j]) {
      assert !Earlier(beats)(accounts[j], accounts[i]);
    }
    forall a ensures a in accounts <==> a in s {
      assert a in accounts <==> a in multiset(accounts);
      assert a in listed <==> a in multiset(listed);
    }
  }

  /** The queue after truncation: with the accounts that are not local by heartbeat,
      what is above the limit goes from the latest one on. */
  ghost predicate QueueCutTo(q: Book, q': Book, locals: set<Address>, accounts: seq<Address>, beats: Address -> int,
                             limit: nat)
  {
    && ByBeat(accounts, beats) && (forall a :: a in accounts <==> a in q && a !in locals)
    && q' == QueueCut(q, accounts, Sub(TotalLen(q), limit))
  }

  /** The cut queue meets its limit, or only local accounts are left in it. */
  lemma QueueBound(q: Book, accounts: seq<Address>, locals: set<Address>, limit: nat)
    requires BookOk(q) && TotalLen(q) > limit && forall a :: a in accounts <==> a in q && a !in locals
    ensures var q' := QueueCut(q, accounts, TotalLen(q) - limit);
      && QueueWithin(q', locals, limit)
      && forall a :: a in locals ==> Items(q', a) == Items(q, a)
  {
    hide QueueCut, TotalLen;
    var q' := QueueCut(q, accounts, TotalLen(q) - limit);
    CutTotal(q, accounts, TotalLen(q) - limit);
    forall a ensures a !in accounts ==> Items(q', a) == Items(q, a) {
      CutPrefixes(q, accounts, TotalLen(q) - limit, a);
    }
  }
}
