/** The arithmetic of truncatePending (core/tx_pool.go): cutting the longest lists
    round by round amounts to one water level for all accounts that are not local.
 */
module PoolTruncate {
  import opened Transactions
  import opened TxSortedMaps
  import opened TxLists
  import opened PoolContent
  import opened PoolNonces
  import Heap

  /** Every list of a non-local account cut to its c lowest nonces. */
  function Levelled(b: Book, locals: set<Address>, c: nat): Book {
    map a | a in b :: if a in locals then b[a] else Lowest(b[a], c)
  }

  ghost function TotalLen(b: Book): nat {
    if b == map[] then 0 else var a :| a in b; |b[a]| + TotalLen(b - {a})
  }

  lemma {:induction false} TotalWithout(b: Book, a: Address)
    requires a in b
    ensures TotalLen(b) == |b[a]| + TotalLen(b - {a})
    decreases |b|
  {
    var y :| y in b && TotalLen(b) == |b[y]| + TotalLen(b - {y});
    hide TotalLen;
    if y != a {
      assert (b - {y}).Keys == b.Keys - {y} && (b - {a}).Keys == b.Keys - {a};
      TotalWithout(b - {y}, a);
      TotalWithout(b - {a}, y);
      EitherOrder(b, a, y);
    }
  }

  lemma EitherOrder(b: Book, a: Address, y: Address)
    ensures b - {y} - {a} == b - {a} - {y}
  {
  }

  lemma TotalUpdate(b: Book, a: Address, m: map<nat, Tx>)
    requires a in b
    ensures TotalLen(b[a := m]) == TotalLen(b) - |b[a]| + |m|
  {
    hide TotalLen;
    TotalWithout(b, a);
    TotalWithout(b[a := m], a);
    assert b[a := m] - {a} == b - {a};
  }

  /** Counts the transactions of all lists. */
  method CountAll(b: Book) returns (count: nat)
    ensures count == TotalLen(b)
  {
    count := 0;
    var todo := b;
    while todo != map[]
      invariant count + TotalLen(todo) == TotalLen(b)
      decreases |todo|
    {
      var a :| a in todo;
      TotalWithout(todo, a);
      assert (todo - {a}).Keys == todo.Keys - {a};
      count, todo := count + |todo[a]|, todo - {a};
    }
  }

  lemma LowestFacts(m: map<nat, Tx>, k: nat)
    requires Keyed(m)
    ensures Keyed(Lowest(m, k)) && SubMap(Lowest(m, k), m)
    ensures |Lowest(m, k)| == if k < |m| then k else |m|
    ensures k <= |m| ==> Flat(Lowest(m, k)) == Flat(m)[..k]
  {
    if k >= |m| {
      AllLowest(m, k);
    } else {
      var low := Lowest(m, k);
      forall n ensures n in low <==> n in m && m[n] in Flat(m)[..k] {
        if n in m {
          RankOf(m, PlaceOf(m, n));
          PlaceBelow(m, n, k);
        }
      }
      FlatCut(m, low, k);
    }
    if k == |m| { assert Flat(m)[..k] == Flat(m); }
  }

  lemma BelowSame(m: map<nat, Tx>, k: nat, n: nat)
    requires n in m && |Below(m, n)| < k
    ensures Below(Lowest(m, k), n) == Below(m, n)
  {
    forall j | j in Below(m, n) ensures j in Lowest(m, k) {
      Heap.SubsetSize(Below(m, j), Below(m, n));
    }
  }

  /** Cutting twice is cutting to the lower level. */
  lemma LowestTwice(m: map<nat, Tx>, k: nat, j: nat)
    requires j <= k
    ensures Lowest(Lowest(m, k), j) == Lowest(m, j)
  {
    var low := Lowest(m, k);
    forall n | n in low ensures Below(low, n) == Below(m, n) {
      BelowSame(m, k, n);
    }
  }

  /** The accounts a round cuts at level c. */
  ghost predicate AtLevel(b: Book, locals: set<Address>, c: nat, cut: set<Address>) {
    forall a :: a in cut <==> a in b && a !in locals && |b[a]| >= c
  }

  /** The list without its last transaction. */
  function AllButLast(m: map<nat, Tx>): map<nat, Tx> {
    Lowest(m, if |m| == 0 then 0 else |m| - 1)
  }

  /** The book with the last transaction taken from each list in `cut`. */
  function Lowered(b: Book, cut: set<Address>): Book {
    map a | a in b :: if a in cut then AllButLast(b[a]) else b[a]
  }

  lemma ListLowers(m: map<nat, Tx>, c: nat)
    requires Keyed(m) && c >= 1
    ensures |m| >= c ==> AllButLast(Lowest(m, c)) == Lowest(m, c - 1)
    ensures |m| < c ==> Lowest(m, c) == m == Lowest(m, c - 1)
  {
    LowestFacts(m, c);
    if |m| >= c {
      LowestTwice(m, c, c - 1);
    } else {
      AllLowest(m, c);
      AllLowest(m, c - 1);
    }
  }

  /** A round over all lists that reach the level lowers the level by one. */
  lemma RoundLowers(b: Book, locals: set<Address>, c: nat, cut: set<Address>)
    requires BookOk(b) && c >= 1 && AtLevel(b, locals, c, cut)
    ensures Lowered(Levelled(b, locals, c), cut) == Levelled(b, locals, c - 1)
  {
    forall a | a in b && a !in locals
      ensures (if a in cut then AllButLast(Lowest(b[a], c)) else Lowest(b[a], c)) == Lowest(b[a], c - 1)
    {
      assert OwnedBy(b[a], a);
      ListLowers(b[a], c);
    }
    hide AllButLast, Lowest;
  }

  /** At or above the longest list the level cuts nothing. */
  lemma NothingCut(b: Book, locals: set<Address>, c: nat)
    requires forall a :: a in b && a !in locals ==> |b[a]| <= c
    ensures Levelled(b, locals, c) == b
  {
    forall a | a in b && a !in locals ensures Lowest(b[a], c) == b[a] {
      AllLowest(b[a], c);
    }
  }

  ghost function Members(accounts: seq<Address>): set<Address> {
    set a | a in accounts
  }

  ghost predicate AllDistinct(accounts: seq<Address>) {
    forall i, j :: 0 <= i < j < |accounts| ==> accounts[i] != accounts[j]
  }

  lemma LoweredNone(b: Book)
    ensures Lowered(b, {}) == b
  {
  }

  /** One more account of a round. */
  lemma LoweredStep(b: Book, cut: set<Address>, a: Address)
    requires a in b && a !in cut && Keyed(b[a]) && |b[a]| >= 2
    ensures var low := Lowered(b, cut);
      && a in low && low[a] == b[a] && |AllButLast(b[a])| == |b[a]| - 1
      && Lowered(b, cut + {a}) == low[a := AllButLast(b[a])]
  {
    hide Lowest;
    LowestFacts(b[a], |b[a]| - 1);
  }

  lemma PendingKeyed(pending: Book, queue: Book, l: Lookup)
    requires PoolOk(pending, queue, l)
    ensures forall a :: a in pending ==> Keyed(pending[a])
  {
    forall a | a in pending ensures Keyed(pending[a]) {
      assert OwnedBy(pending[a], a);
    }
  }

  /** The last transaction of a list. */
  method LastOf(m: map<nat, Tx>) returns (last: Tx)
    requires Keyed(m) && |m| > 0
    ensures last.nonce + 1 == EndOf(m) && Holds(m, last) && forall n :: n in m ==> n <= last.nonce
  {
    var txs := Sorted(m);
    last := txs[|txs| - 1];
    FlatNonces(m, |m| - 1);
    forall n | n in m ensures n <= last.nonce {
      InOrder(m, |m| - 1, PlaceOf(m, n));
    }
  }

  /** The virtual nonce came down to that of the last transaction of the list. */
  ghost predicate LastDropped(m: map<nat, Tx>, nonces: map<Address, nat>, stateNonce: Address -> nat, a: Address,
                              nonces': map<Address, nat>)
  {
    exists n: nat :: n in m && (forall k :: k in m ==> k <= n) && nonces' == SetIfLower(nonces, stateNonce, a, n)
  }

  lemma ListKept(pending: Book, queue: Book, l: Lookup, a: Address)
    requires PoolOk(pending, queue, l) && a in pending && |pending[a]| >= 2
    ensures Keyed(pending[a]) && SubMap(AllButLast(pending[a]), pending[a]) && AllButLast(pending[a]) != map[]
  {
    assert OwnedBy(pending[a], a);
    LowestFacts(pending[a], |pending[a]| - 1);
  }

  /** The lowest nonces of a gapless list are gapless. */
  lemma LowestInterval(m: map<nat, Tx>, n: nat, k: nat)
    requires Keyed(m) && Interval(m, n, n + |m|)
    ensures var low := Lowest(m, k); Interval(low, n, n + |low|)
  {
    LowestFacts(m, k);
    forall x | x in m ensures |Below(m, x)| == x - n {
      IntervalSize(Before(m, x), n, x);
      assert Before(m, x).Keys == Below(m, x);
    }
  }

  /** Cutting to a positive level leaves every account based. */
  lemma LevelledBased(b: Book, locals: set<Address>, c: nat, stateNonce: Address -> nat, nonces: map<Address, nat>,
                      nonces': map<Address, nat>)
    requires BookOk(b) && c >= 1 && AllBased(b, nonces, stateNonce)
    requires forall a :: a !in b ==> VirtualNonce(nonces', stateNonce, a) == VirtualNonce(nonces, stateNonce, a)
    ensures AllBased(Levelled(b, locals, c), nonces', stateNonce)
  {
    hide BasedAt, Levelled;
    forall a ensures BasedAt(Levelled(b, locals, c), nonces', stateNonce, a) {
      assert BasedAt(b, nonces, stateNonce, a);
      LevelledBasedAt(b, locals, c, stateNonce, nonces, nonces', a);
    }
  }

  lemma LevelledBasedAt(b: Book, locals: set<Address>, c: nat, stateNonce: Address -> nat, nonces: map<Address, nat>,
                        nonces': map<Address, nat>, a: Address)
    requires BookOk(b) && c >= 1 && BasedAt(b, nonces, stateNonce, a)
    requires a !in b ==> VirtualNonce(nonces', stateNonce, a) == VirtualNonce(nonces, stateNonce, a)
    ensures BasedAt(Levelled(b, locals, c), nonces', stateNonce, a)
  {
    hide Lowest;
    if a in b && a !in locals {
      assert OwnedBy(b[a], a) && b[a] != map[];
      LowestInterval(b[a], stateNonce(a), c);
      LowestFacts(b[a], c);
    }
  }

  lemma LevelledFunded(b: Book, locals: set<Address>, c: nat, balance: Address -> int, maxGas: nat)
    requires AllFunded(b, balance, maxGas)
    ensures AllFunded(Levelled(b, locals, c), balance, maxGas)
  {
    forall a ensures FundedAt(Levelled(b, locals, c), balance, maxGas, a) {
      assert FundedAt(b, balance, maxGas, a);
    }
  }

  /** The accounts of `cut` have at least c transactions, the other ones that are not
      local at most t. */
  ghost predicate Parted(b: Book, locals: set<Address>, cut: set<Address>, c: nat, t: nat) {
    && (forall a :: a in cut ==> a in b && a !in locals && |b[a]| >= c)
    && (forall a :: a in b && a !in locals && a !in cut ==> |b[a]| <= t)
  }

  /** What truncation arrives at: all lists cut to one level that is not below the
      guaranteed slots, low enough to meet the limit or else at the guaranteed slots,
      and no lower than needed. */
  ghost predicate TruncatedTo(b: Book, b': Book, locals: set<Address>, slots: nat, limit: nat, c: nat) {
    && b' == Levelled(b, locals, c) && c >= slots
    && (TotalLen(b') <= limit || c == slots)
    && (b' != b ==> TotalLen(Levelled(b, locals, c + 1)) > limit)
  }

  /** The lists of the cut accounts are all as long as the level. */
  lemma CutLength(b: Book, locals: set<Address>, cut: set<Address>, c: nat, t: nat, a: Address)
    requires BookOk(b) && Parted(b, locals, cut, c, t) && a in cut
    ensures a in Levelled(b, locals, c) && |Levelled(b, locals, c)[a]| == c
  {
    assert OwnedBy(b[a], a);
    LowestFacts(b[a], c);
  }

  /** The other lists are still whole. */
  lemma UncutLength(b: Book, locals: set<Address>, cut: set<Address>, c: nat, t: nat, a: Address)
    requires Parted(b, locals, cut, c, t) && t <= c && a in b && a !in locals && a !in cut
    ensures a in Levelled(b, locals, c) && Levelled(b, locals, c)[a] == b[a]
  {
    AllLowest(b[a], c);
  }

  /** A round over the accounts above the others lowers the level by one. */
  lemma PartedRound(b: Book, locals: set<Address>, cut: set<Address>, c: nat, t: nat)
    requires BookOk(b) && Parted(b, locals, cut, c, t) && t < c
    ensures Lowered(Levelled(b, locals, c), cut) == Levelled(b, locals, c - 1)
    ensures Parted(b, locals, cut, c - 1, t)
  {
    hide Lowered, Levelled;
    RoundLowers(b, locals, c, cut);
  }

  /** One of the longest lists among some accounts. */
  method PopLongest(b: Book, from: set<Address>) returns (longest: Address)
    requires from != {} && forall a :: a in from ==> a in b
    ensures longest in from && forall a :: a in from ==> |b[a]| <= |b[longest]|
  {
    longest :| longest in from;
    var todo := from;
    while todo != {}
      invariant todo <= from && longest in from
      invariant forall a :: a in from && a !in todo ==> |b[a]| <= |b[longest]|
      decreases |todo|
    {
      var a :| a in todo;
      if |b[a]| > |b[longest]| {
        longest := a;
      }
      todo := todo - {a};
    }
  }

  lemma LengthBelowTotal(b: Book, a: Address)
    requires a in b
    ensures |b[a]| <= TotalLen(b)
  {
    TotalWithout(b, a);
  }

  /** Above the total nothing is cut. */
  lemma LevelAbove(b: Book, locals: set<Address>, c: nat)
    requires c >= TotalLen(b)
    ensures Levelled(b, locals, c) == b && Parted(b, locals, {}, c, c)
  {
    forall a | a in b ensures |b[a]| <= c {
      LengthBelowTotal(b, a);
    }
    NothingCut(b, locals, c);
  }

  lemma PendingOk(pending: Book, queue: Book, l: Lookup)
    requires PoolOk(pending, queue, l)
    ensures BookOk(pending)
  {
  }

  /** The accounts above the guaranteed slots are those cut so far and those to come. */
  ghost predicate Spam(b: Book, locals: set<Address>, slots: nat, cut: set<Address>, spammers: set<Address>) {
    && (forall a :: a in spammers ==> a in b && a !in locals && |b[a]| > slots && a !in cut)
    && (forall a :: a in b && a !in locals && a !in cut && a !in spammers ==> |b[a]| <= slots)
  }

  lemma SpamStarts(b: Book, locals: set<Address>, slots: nat)
    ensures Members([]) == {} && AllDistinct([])
    ensures Spam(b, locals, slots, {}, set a | a in b && a !in locals && |b[a]| > slots)
  {
  }

  lemma SpamUncut(b: Book, locals: set<Address>, slots: nat, cut: set<Address>, spammers: set<Address>, c: nat)
    requires Spam(b, locals, slots, cut, spammers) && Parted(b, locals, cut, c, c)
    ensures forall a :: a in spammers ==> a in b && a in Levelled(b, locals, c) && Levelled(b, locals, c)[a] == b[a]
  {
    forall a | a in spammers ensures a in Levelled(b, locals, c) && Levelled(b, locals, c)[a] == b[a] {
      UncutLength(b, locals, cut, c, c, a);
    }
  }

  /** Nothing but what is cut already is longer than the longest list to come. */
  lemma SpamPop(b: Book, locals: set<Address>, slots: nat, cut: set<Address>, spammers: set<Address>, c: nat,
                a: Address)
    requires Spam(b, locals, slots, cut, spammers) && Parted(b, locals, cut, c, c)
    requires a in spammers && forall x :: x in spammers ==> x in b && |b[x]| <= |b[a]|
    ensures slots < |b[a]| <= c && Parted(b, locals, cut, c, |b[a]|)
    ensures Spam(b, locals, slots, cut + {a}, spammers - {a})
  {
  }

  lemma PartedUncut(b: Book, locals: set<Address>, cut: set<Address>, c: nat, t: nat)
    requires cut == {} && Parted(b, locals, cut, c, t)
    ensures Levelled(b, locals, t) == b && Parted(b, locals, cut, t, t)
  {
    NothingCut(b, locals, t);
  }

  lemma PartedJoins(b: Book, locals: set<Address>, cut: set<Address>, t: nat, a: Address)
    requires a in b && a !in locals && |b[a]| == t
    ensures Parted(b, locals, cut, t, t) ==> Parted(b, locals, cut + {a}, t, t)
  {
  }

  lemma SpamDone(b: Book, locals: set<Address>, slots: nat, cut: set<Address>, c: nat)
    requires Spam(b, locals, slots, cut, {}) && Parted(b, locals, cut, c, c)
    ensures Parted(b, locals, cut, c, slots)
  {
  }

  /** Picks the account with the longest list still to come. */
  method PickOffender(p: Book, ghost offenders: seq<Address>, spammers: set<Address>,
                      ghost b: Book, ghost locals: set<Address>, ghost slots: nat, ghost c: nat)
    returns (offender: Address, threshold: nat)
    requires p == Levelled(b, locals, c) && spammers != {} && AllDistinct(offenders)
    requires Spam(b, locals, slots, Members(offenders), spammers) && Parted(b, locals, Members(offenders), c, c)
    ensures offender in spammers && offender in p && threshold == |p[offender]| && slots < threshold <= c
    ensures Parted(b, locals, Members(offenders), c, threshold)
    ensures Spam(b, locals, slots, Members(offenders + [offender]), spammers - {offender})
    ensures AllDistinct(offenders + [offender])
    ensures Parted(b, locals, Members(offenders), threshold, threshold) ==>
              Parted(b, locals, Members(offenders + [offender]), threshold, threshold)
    ensures offenders == [] ==>
              Levelled(b, locals, threshold) == b && Parted(b, locals, Members(offenders), threshold, threshold)
  {
    hide Levelled, Parted;
    ghost var cut := Members(offenders);
    SpamUncut(b, locals, slots, cut, spammers, c);
    offender := PopLongest(p, spammers);
    threshold := |p[offender]|;
    assert Members(offenders + [offender]) == cut + {offender};
    SpamPop(b, locals, slots, cut, spammers, c, offender);
    PartedJoins(b, locals, cut, threshold, offender);
    if offenders == [] {
      PartedUncut(b, locals, cut, c, threshold);
    }
  }

  lemma PendingNonEmpty(pending: Book, queue: Book, l: Lookup, a: Address)
    requires PoolOk(pending, queue, l) && a in pending
    ensures |pending[a]| > 0
  {
    assert pending[a] != map[];
  }

  /** At the guaranteed slots no list that is not local is longer than those. */
  lemma LevelBound(b: Book, locals: set<Address>, slots: nat)
    requires BookOk(b)
    ensures var b' := Levelled(b, locals, slots); forall a :: a in b' && a !in locals ==> |b'[a]| <= slots
  {
    forall a | a in b && a !in locals ensures |Lowest(b[a], slots)| <= slots {
      assert OwnedBy(b[a], a);
      LowestFacts(b[a], slots);
    }
  }

  /** A list cut to at most c transactions keeps its first ones. */
  ghost predicate CutShort(m: map<nat, Tx>, m': map<nat, Tx>, c: nat) {
    |m'| == (if |m| < c then |m| else c) && Flat(m') <= Flat(m)
  }

  lemma LevelCutsShort(m: map<nat, Tx>, c: nat)
    requires Keyed(m)
    ensures CutShort(m, Lowest(m, c), c) && |Lowest(m, c)| <= c && (Lowest(m, c) != m ==> |Lowest(m, c)| == c)
  {
    hide Lowest, Flat;
    LowestFacts(m, c);
    if c >= |m| {
      AllLowest(m, c);
      LowestFacts(m, |m|);
    }
  }

  /** What one water level means: local lists are whole; every other list loses only its
      last transactions, down to a length common to all that are cut and passed by no
      uncut one; and the limit is met or no list is above the guaranteed slots. */
  lemma TruncationIsFair(b: Book, b': Book, locals: set<Address>, slots: nat, limit: nat, c: nat)
    requires BookOk(b) && TruncatedTo(b, b', locals, slots, limit, c)
    ensures b'.Keys == b.Keys && forall a :: a in b && a in locals ==> b'[a] == b[a]
    ensures forall a :: a in b && a !in locals ==> CutShort(b[a], b'[a], c)
    ensures forall a :: a in b && b'[a] != b[a] ==> |b'[a]| == c >= slots
    ensures TotalLen(b') <= limit || forall a :: a in b && a !in locals ==> |b'[a]| <= slots
  {
    hide TotalLen, Lowest, CutShort;
    forall a | a in b && a !in locals
      ensures CutShort(b[a], b'[a], c) && |b'[a]| <= c && (b'[a] != b[a] ==> |b'[a]| == c)
    {
      assert OwnedBy(b[a], a);
      LevelCutsShort(b[a], c);
    }
  }
}
