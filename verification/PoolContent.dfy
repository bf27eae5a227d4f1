/** What the transaction pool holds (core/tx_pool.go): pending and queued
    transactions by account and nonce, and the lookup of all of them.
 */
module PoolContent {
  import opened Options
  import opened Transactions
  import opened TxSortedMaps
  import opened TxLists
  import Heap

  /** Lists of transactions by account; only what they hold, since the caps of a list
      never change what its operations do. */
  type Book = map<Address, map<nat, Tx>>

  function Items(b: Book, a: Address): map<nat, Tx> {
    if a in b then b[a] else map[]
  }

  /** The book with the list of a replaced; an empty list is deleted. */
  function WithItems(b: Book, a: Address, m: map<nat, Tx>): (b': Book)
    ensures Items(b', a) == m && forall x :: x != a ==> Items(b', x) == Items(b, x)
    ensures forall x :: x in b' <==> (if x == a then m != map[] else x in b)
  {
    if m == map[] then b - {a} else b[a := m]
  }

  /** The list holds transactions of a, each under its nonce. */
  ghost predicate OwnedBy(m: map<nat, Tx>, a: Address) {
    forall n :: n in m ==> m[n].nonce == n && m[n].from == a
  }

  /** No stored list is empty or holds foreign transactions. */
  ghost predicate BookOk(b: Book) {
    forall a :: a in b ==> b[a] != map[] && OwnedBy(b[a], a)
  }

  predicate InBook(b: Book, tx: Tx) {
    Holds(Items(b, tx.from), tx)
  }

  /** txLookup: all pooled transactions, split into local and remote ones. */
  datatype Lookup = Lookup(locals: set<Tx>, remotes: set<Tx>, slots: int)

  predicate Known(l: Lookup, tx: Tx) {
    tx in l.locals || tx in l.remotes
  }

  ghost function SlotsOf(s: set<Tx>): nat {
    if s == {} then 0 else var tx :| tx in s; tx.slots + SlotsOf(s - {tx})
  }

  lemma {:induction false} SlotsWithout(s: set<Tx>, tx: Tx)
    requires tx in s
    ensures SlotsOf(s) == tx.slots + SlotsOf(s - {tx})
    decreases |s|
  {
    var y :| y in s && SlotsOf(s) == y.slots + SlotsOf(s - {y});
    if y != tx {
      SlotsWithout(s - {y}, tx);
      SlotsWithout(s - {tx}, y);
      assert s - {y} - {tx} == s - {tx} - {y};
    }
  }

  ghost predicate LookupOk(l: Lookup) {
    l.locals !! l.remotes && l.slots == SlotsOf(l.locals + l.remotes)
  }

  /** The lookup with a new transaction on one side. */
  function Entered(l: Lookup, tx: Tx, local: bool): Lookup {
    if local then Lookup(l.locals + {tx}, l.remotes, l.slots + tx.slots)
    else Lookup(l.locals, l.remotes + {tx}, l.slots + tx.slots)
  }

  /** The lookup without tx, if it had it. */
  function Left(l: Lookup, tx: Tx): Lookup {
    if Known(l, tx) then Lookup(l.locals - {tx}, l.remotes - {tx}, l.slots - tx.slots) else l
  }

  /** The lookup with tx in the place of an older transaction. */
  function SwapOf(l: Lookup, older: Option<Tx>, tx: Tx, local: bool): Lookup {
    Entered(if older.Some? then Left(l, older.value) else l, tx, local)
  }

  /** The lookup after all transactions of some accounts became local. */
  function Localised(l: Lookup, accounts: set<Address>): Lookup {
    var moved := set tx | tx in l.remotes && tx.from in accounts;
    Lookup(l.locals + moved, l.remotes - moved, l.slots)
  }

  /** txLookup.Add of a transaction the lookup does not have. */
  method LookupAdd(l: Lookup, tx: Tx, local: bool) returns (l': Lookup)
    requires LookupOk(l) && !Known(l, tx)
    ensures LookupOk(l') && l'.locals + l'.remotes == l.locals + l.remotes + {tx}
    ensures l' == Entered(l, tx, local)
  {
    SlotsWithout(l.locals + l.remotes + {tx}, tx);
    assert l.locals + l.remotes + {tx} - {tx} == l.locals + l.remotes;
    if local {
      l' := Lookup(l.locals + {tx}, l.remotes, l.slots + tx.slots);
      assert l'.locals + l'.remotes == l.locals + l.remotes + {tx};
    } else {
      l' := Lookup(l.locals, l.remotes + {tx}, l.slots + tx.slots);
      assert l'.locals + l'.remotes == l.locals + l.remotes + {tx};
    }
  }

  /** txLookup.Remove; a transaction the lookup does not have is left alone. */
  method LookupRemove(l: Lookup, tx: Tx) returns (l': Lookup)
    requires LookupOk(l)
    ensures LookupOk(l') && l'.locals == l.locals - {tx} && l'.remotes == l.remotes - {tx} && l'.slots <= l.slots
    ensures l' == Left(l, tx)
  {
    if !Known(l, tx) {
      assert l.locals == l.locals - {tx} && l.remotes == l.remotes - {tx};
      return l;
    }
    SlotsWithout(l.locals + l.remotes, tx);
    l' := Lookup(l.locals - {tx}, l.remotes - {tx}, l.slots - tx.slots);
    assert l'.locals + l'.remotes == l.locals + l.remotes - {tx};
  }

  method LookupRemoveAll(l: Lookup, txs: seq<Tx>) returns (l': Lookup)
    requires LookupOk(l)
    ensures LookupOk(l') && l'.locals == l.locals - (set tx | tx in txs)
    ensures l'.remotes == l.remotes - (set tx | tx in txs)
  {
    l' := l;
    for i := 0 to |txs|
      invariant LookupOk(l')
      invariant l'.locals == l.locals - (set tx | tx in txs[..i]) && l'.remotes == l.remotes - (set tx | tx in txs[..i])
    {
      assert txs[..i + 1] == txs[..i] + [txs[i]];
      l' := LookupRemove(l', txs[i]);
    }
    assert txs[..|txs|] == txs;
  }

  /** txLookup.RemoteToLocals */
  method RemoteToLocals(l: Lookup, accounts: set<Address>) returns (l': Lookup, migrated: nat)
    requires LookupOk(l)
    ensures LookupOk(l') && l'.locals + l'.remotes == l.locals + l.remotes
    ensures l'.remotes == set tx | tx in l.remotes && tx.from !in accounts
    ensures migrated == |l.remotes| - |l'.remotes| && l' == Localised(l, accounts)
  {
    var moved := set tx | tx in l.remotes && tx.from in accounts;
    l' := Lookup(l.locals + moved, l.remotes - moved, l.slots);
    migrated := |moved|;
    assert l'.locals + l'.remotes == l.locals + l.remotes;
    assert l.remotes == (l.remotes - moved) + moved;
    assert l'.remotes == set tx | tx in l.remotes && tx.from !in accounts;
  }

  /** No nonce of an account is both pending and queued. */
  ghost predicate Apart(pending: Book, queue: Book) {
    forall a, n {:trigger n in Items(pending, a)} {:trigger n in Items(queue, a)} ::
      n in Items(pending, a) ==> n !in Items(queue, a)
  }

  /** The lookup has exactly the pending and the queued transactions. */
  ghost predicate Accounted(pending: Book, queue: Book, l: Lookup) {
    forall tx :: Known(l, tx) <==> InBook(pending, tx) || InBook(queue, tx)
  }

  ghost predicate PoolOk(pending: Book, queue: Book, l: Lookup) {
    BookOk(pending) && BookOk(queue) && Apart(pending, queue) && LookupOk(l) && Accounted(pending, queue, l)
  }

  /** What a consistent pool says about one account: pm and qm are its pending and
      queued transactions, and the lookup has those. */
  ghost predicate AccountOf(l: Lookup, a: Address, pm: map<nat, Tx>, qm: map<nat, Tx>) {
    && OwnedBy(pm, a) && OwnedBy(qm, a) && pm.Keys !! qm.Keys
    && forall tx: Tx :: tx.from == a ==> (Known(l, tx) <==> Holds(pm, tx) || Holds(qm, tx))
  }

  lemma AccountView(pending: Book, queue: Book, l: Lookup, a: Address)
    requires PoolOk(pending, queue, l)
    ensures AccountOf(l, a, Items(pending, a), Items(queue, a)) && LookupOk(l)
  {
    assert forall n :: n in Items(pending, a) ==> n !in Items(queue, a);
    assert forall tx :: Known(l, tx) <==> InBook(pending, tx) || InBook(queue, tx);
  }

  /** The lookup changed for no other account. */
  ghost predicate OthersSame(l: Lookup, l': Lookup, a: Address) {
    forall tx: Tx :: tx.from != a ==> (Known(l', tx) <==> Known(l, tx))
  }

  /** Changing the lists of one account, and the lookup to match, keeps the pool consistent. */
  lemma AccountChanged(pending: Book, queue: Book, l: Lookup, a: Address, pm: map<nat, Tx>, qm: map<nat, Tx>,
                       l': Lookup)
    requires PoolOk(pending, queue, l) && LookupOk(l') && AccountOf(l', a, pm, qm) && OthersSame(l, l', a)
    ensures PoolOk(WithItems(pending, a, pm), WithItems(queue, a, qm), l')
  {
    var p', q' := WithItems(pending, a, pm), WithItems(queue, a, qm);
    forall x | x in p' ensures p'[x] != map[] && OwnedBy(p'[x], x) {
      assert p'[x] == Items(p', x);
      if x != a { assert p'[x] == Items(pending, x) == pending[x]; }
    }
    forall x | x in q' ensures q'[x] != map[] && OwnedBy(q'[x], x) {
      assert q'[x] == Items(q', x);
      if x != a { assert q'[x] == Items(queue, x) == queue[x]; }
    }
    forall tx ensures Known(l', tx) <==> InBook(p', tx) || InBook(q', tx) {
      assert tx.from != a ==>
               Items(p', tx.from) == Items(pending, tx.from) && Items(q', tx.from) == Items(queue, tx.from);
      assert Known(l, tx) <==> InBook(pending, tx) || InBook(queue, tx);
    }
  }

  /** enqueueTx on the list of one account: an older transaction with the same nonce
      stays unless the new one replaces it. */
  method EnqueueItem(m: map<nat, Tx>, tx: Tx, priceBump: nat)
    returns (inserted: bool, older: Option<Tx>, m': map<nat, Tx>)
    ensures inserted == (tx.nonce in m ==> Replaces(m[tx.nonce], tx, priceBump))
    ensures m' == if inserted then m[tx.nonce := tx] else m
    ensures older == if inserted && tx.nonce in m then Some(m[tx.nonce]) else None
  {
    if tx.nonce in m && !Replaces(m[tx.nonce], tx, priceBump) {
      return false, None, m;
    }
    older := if tx.nonce in m then Some(m[tx.nonce]) else None;
    inserted, m' := true, m[tx.nonce := tx];
  }

  /** Queueing transactions whose nonces are free: each is inserted, none replaced. */
  method EnqueueAll(m0: map<nat, Tx>, txs: seq<Tx>, priceBump: nat, ghost more: map<nat, Tx>) returns (m: map<nat, Tx>)
    requires Keyed(more) && Lists(txs, more) && m0.Keys !! more.Keys
    ensures m == m0 + more
  {
    ListsMembers(txs, more);
    m := m0;
    for i := 0 to |txs|
      invariant Filled(m0, more, txs[..i], m)
    {
      FilledMore(m0, more, txs, i, m);
      var inserted, older;
      inserted, older, m := EnqueueItem(m, txs[i], priceBump);
    }
    assert txs[..|txs|] == txs;
    forall n | n in more ensures more[n] in txs {
      assert Holds(more, more[n]);
    }
  }

  /** m0 with the listed part of more. */
  ghost predicate Filled(m0: map<nat, Tx>, more: map<nat, Tx>, txs: seq<Tx>, m: map<nat, Tx>) {
    && (forall n :: n in m <==> n in m0 || (n in more && more[n] in txs))
    && (forall n :: n in m ==> n in m0 || n in more)
    && (forall n :: n in m ==> m[n] == if n in m0 then m0[n] else more[n])
  }

  lemma FilledMore(m0: map<nat, Tx>, more: map<nat, Tx>, txs: seq<Tx>, i: nat, m: map<nat, Tx>)
    requires Keyed(more) && Lists(txs, more) && m0.Keys !! more.Keys && i < |txs| && Filled(m0, more, txs[..i], m)
    ensures txs[i].nonce !in m && Filled(m0, more, txs[..i + 1], m[txs[i].nonce := txs[i]])
  {
    ListsMembers(txs, more);
    assert txs[i] in txs && Holds(more, txs[i]);
    assert forall j :: 0 <= j < i ==> txs[j] in txs && Holds(more, txs[j]);
    assert txs[..i + 1] == txs[..i] + [txs[i]];
    assert txs[i] !in txs[..i];
  }

  /** The virtual nonce of an account: set by the pool, or else that of the state. */
  function VirtualNonce(nonces: map<Address, nat>, stateNonce: Address -> nat, a: Address): nat {
    if a in nonces then nonces[a] else stateNonce(a)
  }

  /** txNoncer.setIfLower */
  function SetIfLower(nonces: map<Address, nat>, stateNonce: Address -> nat, a: Address, n: nat): (r: map<Address, nat>)
    ensures VirtualNonce(r, stateNonce, a) <= n && VirtualNonce(r, stateNonce, a) <= VirtualNonce(nonces, stateNonce, a)
    ensures VirtualNonce(r, stateNonce, a) in {n, VirtualNonce(nonces, stateNonce, a)}
    ensures forall x :: x != a ==> VirtualNonce(r, stateNonce, x) == VirtualNonce(nonces, stateNonce, x)
  {
    nonces[a := if VirtualNonce(nonces, stateNonce, a) <= n then VirtualNonce(nonces, stateNonce, a) else n]
  }

  /** The pending transactions of an account run from the state nonce, without a gap,
      up to the virtual nonce. */
  ghost predicate GaplessAt(pending: Book, nonces: map<Address, nat>, stateNonce: Address -> nat, a: Address) {
    Interval(Items(pending, a), stateNonce(a), VirtualNonce(nonces, stateNonce, a))
  }

  ghost predicate AllGapless(pending: Book, nonces: map<Address, nat>, stateNonce: Address -> nat) {
    forall a :: GaplessAt(pending, nonces, stateNonce, a)
  }

  /** The transactions before nonce n. */
  function Before(m: map<nat, Tx>, n: nat): map<nat, Tx> {
    map k | k in m && k < n :: m[k]
  }

  /** removeTx without the lookup: a pending transaction takes the later ones of its
      account back to the queue, and the virtual nonce down to its own. */
  method RemoveFromLists(pending: Book, queue: Book, nonces: map<Address, nat>, stateNonce: Address -> nat, tx: Tx,
                         priceBump: nat)
    returns (pending': Book, queue': Book, nonces': map<Address, nat>)
    requires BookOk(pending) && BookOk(queue) && Apart(pending, queue) && (InBook(pending, tx) || InBook(queue, tx))
    ensures InBook(pending, tx) ==>
      && pending' == WithItems(pending, tx.from, Before(Items(pending, tx.from), tx.nonce))
      && queue' == WithItems(queue, tx.from, Items(queue, tx.from) + Above(Items(pending, tx.from), tx.nonce))
      && nonces' == SetIfLower(nonces, stateNonce, tx.from, tx.nonce)
    ensures InBook(queue, tx) ==>
      && pending' == pending && nonces' == nonces
      && queue' == WithItems(queue, tx.from, Items(queue, tx.from) - {tx.nonce})
  {
    pending', queue', nonces' := pending, queue, nonces;
    var pm, qm := Items(pending, tx.from), Items(queue, tx.from);
    assert OwnedBy(pm, tx.from) && OwnedBy(qm, tx.from);
    if tx.from in pending && tx.nonce in pm {
      var invalids := Unordered(Above(pm, tx.nonce));
      pending' := WithItems(pending, tx.from, Before(pm, tx.nonce));
      var grown := EnqueueAll(qm, invalids, priceBump, Above(pm, tx.nonce));
      queue' := WithItems(queue, tx.from, grown);
      nonces' := SetIfLower(nonces, stateNonce, tx.from, tx.nonce);
      return;
    }
    if tx.from in queue {
      queue' := WithItems(queue, tx.from, qm - {tx.nonce});
    }
  }

  /** Removing a transaction keeps the pool consistent and pending gapless. */
  lemma RemovalKeeps(pending: Book, queue: Book, l: Lookup, nonces: map<Address, nat>, stateNonce: Address -> nat,
                     tx: Tx,
                     pending': Book, queue': Book, l': Lookup, nonces': map<Address, nat>)
    requires PoolOk(pending, queue, l) && Known(l, tx) && LookupOk(l')
    requires l'.locals == l.locals - {tx} && l'.remotes == l.remotes - {tx}
    requires InBook(pending, tx) ==>
      && pending' == WithItems(pending, tx.from, Before(Items(pending, tx.from), tx.nonce))
      && queue' == WithItems(queue, tx.from, Items(queue, tx.from) + Above(Items(pending, tx.from), tx.nonce))
      && nonces' == SetIfLower(nonces, stateNonce, tx.from, tx.nonce)
    requires InBook(queue, tx) ==>
      && pending' == pending && nonces' == nonces
      && queue' == WithItems(queue, tx.from, Items(queue, tx.from) - {tx.nonce})
    ensures PoolOk(pending', queue', l')
    ensures AllGapless(pending, nonces, stateNonce) ==> AllGapless(pending', nonces', stateNonce)
  {
    if InBook(pending, tx) {
      PendingRemoved(pending, queue, l, tx, l');
      if AllGapless(pending, nonces, stateNonce) {
        forall x ensures GaplessAt(pending', nonces', stateNonce, x) {
          assert GaplessAt(pending, nonces, stateNonce, x);
        }
      }
    } else {
      assert Known(l, tx);
      QueuedRemoved(pending, queue, l, tx, l');
    }
  }

  lemma PendingRemoved(pending: Book, queue: Book, l: Lookup, tx: Tx, l': Lookup)
    requires PoolOk(pending, queue, l) && InBook(pending, tx) && LookupOk(l')
    requires l'.locals == l.locals - {tx} && l'.remotes == l.remotes - {tx}
    ensures PoolOk(WithItems(pending, tx.from, Before(Items(pending, tx.from), tx.nonce)),
                   WithItems(queue, tx.from, Items(queue, tx.from) + Above(Items(pending, tx.from), tx.nonce)), l')
  {
    var a, n, pm, qm := tx.from, tx.nonce, Items(pending, tx.from), Items(queue, tx.from);
    AccountView(pending, queue, l, a);
    RemovedAccount(l, l', pm, qm, tx);
    AccountChanged(pending, queue, l, a, Before(pm, n), qm + Above(pm, n), l');
  }

  lemma RemovedAccount(l: Lookup, l': Lookup, pm: map<nat, Tx>, qm: map<nat, Tx>, tx: Tx)
    requires AccountOf(l, tx.from, pm, qm) && Holds(pm, tx)
    requires l'.locals == l.locals - {tx} && l'.remotes == l.remotes - {tx}
    ensures AccountOf(l', tx.from, Before(pm, tx.nonce), qm + Above(pm, tx.nonce)) && OthersSame(l, l', tx.from)
  {
    var pm', qm' := Before(pm, tx.nonce), qm + Above(pm, tx.nonce);
    forall y: Tx | y.from == tx.from ensures Known(l', y) <==> Holds(pm', y) || Holds(qm', y) {
      assert Known(l, y) <==> Holds(pm, y) || Holds(qm, y);
    }
  }

  lemma QueuedRemoved(pending: Book, queue: Book, l: Lookup, tx: Tx, l': Lookup)
    requires PoolOk(pending, queue, l) && InBook(queue, tx) && LookupOk(l')
    requires l'.locals == l.locals - {tx} && l'.remotes == l.remotes - {tx}
    ensures PoolOk(pending, WithItems(queue, tx.from, Items(queue, tx.from) - {tx.nonce}), l')
  {
    var a, n, pm, qm := tx.from, tx.nonce, Items(pending, tx.from), Items(queue, tx.from);
    AccountView(pending, queue, l, a);
    SameItems(pending, a);
    AccountChanged(pending, queue, l, a, pm, qm - {n}, l');
  }

  lemma SameItems(b: Book, a: Address)
    requires BookOk(b)
    ensures WithItems(b, a, Items(b, a)) == b
  {
    if a in b { assert b[a] != map[]; }
  }

  lemma QueueSame(pending: Book, queue: Book, l: Lookup, a: Address)
    requires PoolOk(pending, queue, l)
    ensures WithItems(queue, a, Items(queue, a)) == queue
  {
    SameItems(queue, a);
  }

  /** What promoteExecutables keeps of a queue before promoting: nothing below the
      state nonce, nothing unpayable. */
  function Executable(qm: map<nat, Tx>, stateNonce: nat, balance: int, maxGas: nat): map<nat, Tx> {
    Payable(false, From(qm, stateNonce), balance, maxGas)
  }

  /** What stays queued after `run` was promoted; only local accounts may keep any number. */
  function StillQueued(m: map<nat, Tx>, run: map<nat, Tx>, local: bool, accountQueue: nat): map<nat, Tx> {
    if local then m - run.Keys else Lowest(m - run.Keys, accountQueue)
  }

  /** The run promoteExecutables moves to pending. */
  function ReadyRun(qm: map<nat, Tx>, stateNonce: nat, virtualNonce: nat, balance: int, maxGas: nat): map<nat, Tx> {
    Run(Executable(qm, stateNonce, balance, maxGas), virtualNonce)
  }

  /** What it leaves queued. */
  function QueueLeft(qm: map<nat, Tx>, stateNonce: nat, virtualNonce: nat, balance: int, maxGas: nat, local: bool,
                     accountQueue: nat): map<nat, Tx>
  {
    StillQueued(Executable(qm, stateNonce, balance, maxGas), ReadyRun(qm, stateNonce, virtualNonce, balance, maxGas),
                local, accountQueue)
  }

  /** The virtual nonce after promoting a run. */
  function PromotedNonce(nonces: map<Address, nat>, stateNonce: Address -> nat, a: Address,
                         promoted: seq<Tx>): map<Address, nat>
  {
    nonces[a := if promoted == [] then VirtualNonce(nonces, stateNonce, a) else promoted[|promoted| - 1].nonce + 1]
  }

  /** Moving a run from the queue to pending, and forgetting what the queue drops. */
  lemma PromotionKeeps(pending: Book, queue: Book, l: Lookup, a: Address, run: map<nat, Tx>, rest: map<nat, Tx>,
                       l': Lookup)
    requires PoolOk(pending, queue, l) && LookupOk(l')
    requires Forgotten(l, l', a, Items(queue, a), run, rest)
    ensures PoolOk(WithItems(pending, a, Items(pending, a) + run), WithItems(queue, a, rest), l')
  {
    var pm, qm := Items(pending, a), Items(queue, a);
    AccountView(pending, queue, l, a);
    PromotedAccount(l, l', a, pm, qm, run, rest);
    AccountChanged(pending, queue, l, a, pm + run, rest, l');
  }

  /** The lookup lost exactly what was in the queue qm of account a and is neither in
      run nor in rest. */
  ghost predicate Forgotten(l: Lookup, l': Lookup, a: Address, qm: map<nat, Tx>, run: map<nat, Tx>, rest: map<nat, Tx>)
  {
    && SubMap(run, qm) && SubMap(rest, qm) && run.Keys !! rest.Keys
    && forall tx: Tx :: Known(l', tx) <==>
        Known(l, tx) && (tx.from == a && Holds(qm, tx) ==> Holds(run, tx) || Holds(rest, tx))
  }

  lemma PromotedAccount(l: Lookup, l': Lookup, a: Address, pm: map<nat, Tx>, qm: map<nat, Tx>, run: map<nat, Tx>,
                        rest: map<nat, Tx>)
    requires AccountOf(l, a, pm, qm) && Forgotten(l, l', a, qm, run, rest)
    ensures AccountOf(l', a, pm + run, rest) && OthersSame(l, l', a)
  {
  }

  /** Forgets the transactions of a list. */
  method ForgetItems(l: Lookup, m: map<nat, Tx>) returns (l': Lookup)
    requires LookupOk(l) && Keyed(m)
    ensures LookupOk(l') && l'.locals <= l.locals && l'.remotes <= l.remotes
    ensures forall tx :: tx in l'.locals <==> tx in l.locals && !Holds(m, tx)
    ensures forall tx :: tx in l'.remotes <==> tx in l.remotes && !Holds(m, tx)
  {
    var txs := Unordered(m);
    ListsMembers(txs, m);
    l' := LookupRemoveAll(l, txs);
  }

  /** Forgetting the old, the unpayable and the capped transactions of a queue leaves
      the promoted run and what stays queued. */
  lemma StagesForget(l: Lookup, l': Lookup, a: Address, qm: map<nat, Tx>, stateNonce: nat, balance: int, maxGas: nat,
                     run: map<nat, Tx>, rest: map<nat, Tx>)
    requires OwnedBy(qm, a)
    requires SubMap(run, Executable(qm, stateNonce, balance, maxGas))
    requires SubMap(rest, Executable(qm, stateNonce, balance, maxGas) - run.Keys)
    requires forall tx :: Known(l', tx) <==>
      (&& Known(l, tx) && !Holds(Before(qm, stateNonce), tx)
       && !Holds(Unfunded(From(qm, stateNonce), balance, maxGas), tx)
       && !Holds((Executable(qm, stateNonce, balance, maxGas) - run.Keys) - rest.Keys, tx))
    ensures Forgotten(l, l', a, qm, run, rest)
  {
    var ready := Executable(qm, stateNonce, balance, maxGas);
    forall tx: Tx
      ensures Known(l', tx) <==> Known(l, tx) && (tx.from == a && Holds(qm, tx) ==> Holds(run, tx) || Holds(rest, tx))
    {
      var caps := (ready - run.Keys) - rest.Keys;
      if Holds(qm, tx) {
        var n: nat := tx.nonce;
        assert tx.from == a && qm[n] == tx;
        assert n in ready <==> n >= stateNonce && !Unpayable(tx, balance, maxGas);
        assert n in ready ==> (n in run || n in rest || n in caps);
      }
    }
  }

  /** The stages of promoteExecutables on the lists of one account: drop the old, drop
      the unpayable, promote the ready, cap the rest. */
  method PromoteItems(l: Lookup, pm: map<nat, Tx>, qm: map<nat, Tx>, a: Address, stateNonce: nat, virtualNonce: nat,
                      balance: int, maxGas: nat, local: bool, accountQueue: nat, priceBump: nat)
    returns (l': Lookup, pm': map<nat, Tx>, rest: map<nat, Tx>, readies: seq<Tx>, gone: nat)
    requires AccountOf(l, a, pm, qm) && LookupOk(l)
    ensures LookupOk(l') && l'.locals <= l.locals && l'.remotes <= l.remotes
    ensures var ready := Executable(qm, stateNonce, balance, maxGas);
      var run := Run(ready, virtualNonce);
      && Forgotten(l, l', a, qm, run, rest) && pm' == pm + run && rest == StillQueued(ready, run, local, accountQueue)
      && readies == Flat(run)
  {
    var forwards, kept := Before(qm, stateNonce), From(qm, stateNonce);
    l' := ForgetItems(l, forwards);
    var drops, ready := Unfunded(kept, balance, maxGas), Payable(false, kept, balance, maxGas);
    l' := ForgetItems(l', drops);
    var run := Run(ready, virtualNonce);
    readies := Sorted(run);
    pm' := EnqueueAll(pm, readies, priceBump, run);
    rest := StillQueued(ready, run, local, accountQueue);
    var caps := (ready - run.Keys) - rest.Keys;
    l' := ForgetItems(l', caps);
    gone := |forwards| + |drops| + |caps|;
    StagesForget(l, l', a, qm, stateNonce, balance, maxGas, run, rest);
  }

  /** Promoting account a: exactly the ready run moves to pending, by rising nonce,
      exactly what is left stays queued, and the virtual nonce follows the run. */
  ghost predicate PromotedTo(pending: Book, queue: Book, nonces: map<Address, nat>, stateNonce: Address -> nat,
                             balance: int, maxGas: nat, local: bool, accountQueue: nat, a: Address,
                             pending': Book, queue': Book, nonces': map<Address, nat>, promoted: seq<Tx>) {
    var qm, n, v := Items(queue, a), stateNonce(a), VirtualNonce(nonces, stateNonce, a);
    && promoted == Flat(ReadyRun(qm, n, v, balance, maxGas))
    && pending' == WithItems(pending, a, Items(pending, a) + ReadyRun(qm, n, v, balance, maxGas))
    && queue' == WithItems(queue, a, QueueLeft(qm, n, v, balance, maxGas, local, accountQueue))
    && nonces' == PromotedNonce(nonces, stateNonce, a, promoted)
  }

  /** promoteExecutables for one account. */
  method PromoteAccount(pending: Book, queue: Book, l: Lookup, nonces: map<Address, nat>, stateNonce: Address -> nat,
                        balance: int, maxGas: nat, local: bool, accountQueue: nat, priceBump: nat, a: Address)
    returns (pending': Book, queue': Book, l': Lookup, nonces': map<Address, nat>, promoted: seq<Tx>, gone: nat)
    requires PoolOk(pending, queue, l) && a in queue
    ensures PoolOk(pending', queue', l') && l'.locals <= l.locals && l'.remotes <= l.remotes
    ensures PromotedTo(pending, queue, nonces, stateNonce, balance, maxGas, local, accountQueue, a, pending', queue',
                       nonces', promoted)
  {
    hide PoolOk, LookupOk, Forgotten, AccountOf;
    AccountView(pending, queue, l, a);
    var grown, rest;
    l', grown, rest, promoted, gone :=
      PromoteItems(l, Items(pending, a), queue[a], a, stateNonce(a), VirtualNonce(nonces, stateNonce, a),
                   balance, maxGas, local, accountQueue, priceBump);
    PromotionKeeps(pending, queue, l, a,
                   ReadyRun(queue[a], stateNonce(a), VirtualNonce(nonces, stateNonce, a), balance, maxGas), rest, l');
    nonces' := PromotedNonce(nonces, stateNonce, a, promoted);
    pending', queue' := WithItems(pending, a, grown), WithItems(queue, a, rest);
  }

  /** The transactions of a list by rising nonce. */
  method Sorted(m: map<nat, Tx>) returns (txs: seq<Tx>)
    requires Keyed(m)
    ensures txs == Flat(m) && Lists(txs, m)
  {
    txs := Unordered(m);
    NonceOrder();
    txs := Heap.Sort(txs, TxNonceLess);
    SortedIsFlat(txs, m);
  }

  /** What demoteUnexecutables keeps pending: from the state nonce on, up to the first
      unpayable transaction, and nothing at all if the state nonce itself is missing. */
  function StillPending(pm: map<nat, Tx>, stateNonce: nat, balance: int, maxGas: nat): map<nat, Tx> {
    var m := Payable(true, From(pm, stateNonce), balance, maxGas);
    if m != map[] && stateNonce !in m then map[] else m
  }

  /** What it moves back to the queue. */
  function Demoted(pm: map<nat, Tx>, stateNonce: nat, balance: int, maxGas: nat): map<nat, Tx> {
    var m := From(pm, stateNonce);
    var kept := Payable(true, m, balance, maxGas);
    Invalidated(true, m, balance, maxGas) + (if kept != map[] && stateNonce !in kept then kept else map[])
  }

  /** Demotion splits what is executable and payable between the two lists. */
  lemma DemotionSplits(pm: map<nat, Tx>, stateNonce: nat, balance: int, maxGas: nat)
    ensures var pm', down := StillPending(pm, stateNonce, balance, maxGas), Demoted(pm, stateNonce, balance, maxGas);
      && SubMap(pm', pm) && SubMap(down, pm) && down.Keys !! pm'.Keys
      && forall n :: n in pm ==> (n in pm' || n in down <==> n >= stateNonce && !Unpayable(pm[n], balance, maxGas))
  {
  }

  lemma DemotionForgets(l: Lookup, l': Lookup, a: Address, pm: map<nat, Tx>, stateNonce: nat, balance: int, maxGas: nat)
    requires OwnedBy(pm, a)
    requires forall tx :: Known(l', tx) <==>
      (Known(l, tx) && !Holds(Before(pm, stateNonce), tx)
       && !Holds(Unfunded(From(pm, stateNonce), balance, maxGas), tx))
    ensures Forgotten(l, l', a, pm, Demoted(pm, stateNonce, balance, maxGas),
                      StillPending(pm, stateNonce, balance, maxGas))
  {
    var down, pm' := Demoted(pm, stateNonce, balance, maxGas), StillPending(pm, stateNonce, balance, maxGas);
    DemotionSplits(pm, stateNonce, balance, maxGas);
    forall tx: Tx
      ensures Known(l', tx) <==> Known(l, tx) && (tx.from == a && Holds(pm, tx) ==> Holds(down, tx) || Holds(pm', tx))
    {
      if Holds(pm, tx) {
        var n: nat := tx.nonce;
        assert pm[n] == tx && tx.from == a;
        assert Holds(down, tx) <==> n in down;
        assert Holds(pm', tx) <==> n in pm';
      }
    }
  }

  /** The stages of demoteUnexecutables on the lists of one account. */
  method DemoteItems(l: Lookup, pm: map<nat, Tx>, qm: map<nat, Tx>, a: Address, stateNonce: nat, balance: int,
                     maxGas: nat, priceBump: nat)
    returns (l': Lookup, pm': map<nat, Tx>, qm': map<nat, Tx>)
    requires OwnedBy(pm, a) && pm.Keys !! qm.Keys && LookupOk(l)
    ensures LookupOk(l') && l'.locals <= l.locals && l'.remotes <= l.remotes
    ensures forall tx :: Known(l', tx) <==>
      (Known(l, tx) && !Holds(Before(pm, stateNonce), tx)
       && !Holds(Unfunded(From(pm, stateNonce), balance, maxGas), tx))
    ensures pm' == StillPending(pm, stateNonce, balance, maxGas)
    ensures qm' == qm + Demoted(pm, stateNonce, balance, maxGas)
  {
    l' := ForgetItems(l, Before(pm, stateNonce));
    l' := ForgetItems(l', Unfunded(From(pm, stateNonce), balance, maxGas));
    pm', qm' := DemoteLists(pm, qm, stateNonce, balance, maxGas, priceBump);
  }

  method DemoteLists(pm: map<nat, Tx>, qm: map<nat, Tx>, stateNonce: nat, balance: int, maxGas: nat, priceBump: nat)
    returns (pm': map<nat, Tx>, qm': map<nat, Tx>)
    requires Keyed(pm) && pm.Keys !! qm.Keys
    ensures pm' == StillPending(pm, stateNonce, balance, maxGas)
    ensures qm' == qm + Demoted(pm, stateNonce, balance, maxGas)
  {
    var kept := From(pm, stateNonce);
    var invalids := Invalidated(true, kept, balance, maxGas);
    pm' := Payable(true, kept, balance, maxGas);
    qm' := Requeue(qm, invalids, priceBump);
    if pm' != map[] && stateNonce !in pm' {
      qm' := Requeue(qm', pm', priceBump);
      assert qm + invalids + pm' == qm + (invalids + pm');
      pm' := map[];
    } else {
      assert invalids + map[] == invalids;
    }
  }

  /** Queues the transactions of a list in the list's arbitrary order. */
  method Requeue(qm: map<nat, Tx>, m: map<nat, Tx>, priceBump: nat) returns (qm': map<nat, Tx>)
    requires Keyed(m) && qm.Keys !! m.Keys
    ensures qm' == qm + m
  {
    var listed := Unordered(m);
    qm' := EnqueueAll(qm, listed, priceBump, m);
  }

  /** demoteUnexecutables for one account. */
  method DemoteAccount(pending: Book, queue: Book, l: Lookup, stateNonce: nat, balance: int, maxGas: nat,
                       priceBump: nat, a: Address)
    returns (pending': Book, queue': Book, l': Lookup)
    requires PoolOk(pending, queue, l) && a in pending
    ensures PoolOk(pending', queue', l') && l'.locals <= l.locals && l'.remotes <= l.remotes
    ensures DemotedTo(pending, queue, stateNonce, balance, maxGas, a, pending', queue')
  {
    AccountView(pending, queue, l, a);
    var pm', qm';
    l', pm', qm' := DemoteItems(l, pending[a], Items(queue, a), a, stateNonce, balance, maxGas, priceBump);
    DemotionForgets(l, l', a, pending[a], stateNonce, balance, maxGas);
    PromotedAccount(l, l', a, Items(queue, a), pending[a], Demoted(pending[a], stateNonce, balance, maxGas), pm');
    AccountChanged(pending, queue, l, a, pm', qm', l');
    pending', queue' := WithItems(pending, a, pm'), WithItems(queue, a, qm');
  }

  /** Demoting account a keeps exactly what is executable and payable pending and moves
      the rest of what is payable to the queue. */
  ghost predicate DemotedTo(pending: Book, queue: Book, stateNonce: nat, balance: int, maxGas: nat, a: Address,
                            pending': Book, queue': Book)
  {
    && pending' == WithItems(pending, a, StillPending(Items(pending, a), stateNonce, balance, maxGas))
    && queue' == WithItems(queue, a, Items(queue, a) + Demoted(Items(pending, a), stateNonce, balance, maxGas))
  }

  /** Cuts the pending list of an account to a non-empty part of it. */
  method TrimAccount(pending: Book, queue: Book, l: Lookup, a: Address, keep: map<nat, Tx>)
    returns (pending': Book, l': Lookup)
    requires PoolOk(pending, queue, l) && a in pending && SubMap(keep, pending[a]) && keep != map[]
    ensures PoolOk(pending', queue, l') && l'.locals <= l.locals && l'.remotes <= l.remotes
    ensures pending' == pending[a := keep]
  {
    hide PoolOk, LookupOk, Forgotten;
    AccountView(pending, queue, l, a);
    l' := ForgetItems(l, pending[a] - keep.Keys);
    TrimForgets(l, l', a, pending[a], keep);
    PromotedAccount(l, l', a, Items(queue, a), pending[a], map[], keep);
    assert Items(queue, a) + map[] == Items(queue, a);
    assert WithItems(queue, a, Items(queue, a)) == queue by { QueueSame(pending, queue, l, a); }
    AccountChanged(pending, queue, l, a, keep, Items(queue, a), l');
    pending' := pending[a := keep];
  }

  lemma TrimForgets(l: Lookup, l': Lookup, a: Address, pm: map<nat, Tx>, keep: map<nat, Tx>)
    requires OwnedBy(pm, a) && SubMap(keep, pm)
    requires forall tx :: Known(l', tx) <==> Known(l, tx) && !Holds(pm - keep.Keys, tx)
    ensures Forgotten(l, l', a, pm, map[], keep)
  {
  }

  /** l' is l with tx in place of the older transaction with its nonce, if m has one. */
  ghost predicate Swapped(l: Lookup, l': Lookup, m: map<nat, Tx>, tx: Tx) {
    forall y :: Known(l', y) <==> y == tx || (Known(l, y) && !(tx.nonce in m && y == m[tx.nonce]))
  }

  /** A new transaction takes the place of a pending one. */
  lemma PendingReplaced(pending: Book, queue: Book, l: Lookup, tx: Tx, l': Lookup)
    requires PoolOk(pending, queue, l) && LookupOk(l') && tx.nonce in Items(pending, tx.from)
    requires Swapped(l, l', Items(pending, tx.from), tx)
    ensures PoolOk(WithItems(pending, tx.from, Items(pending, tx.from)[tx.nonce := tx]), queue, l')
  {
    var a, pm, qm := tx.from, Items(pending, tx.from), Items(queue, tx.from);
    AccountView(pending, queue, l, a);
    AccountSwapped(l, l', pm, qm, tx);
    SameItems(queue, a);
    AccountChanged(pending, queue, l, a, pm[tx.nonce := tx], qm, l');
  }

  /** A new transaction is queued, possibly in the place of a queued one. */
  lemma QueuedInserted(pending: Book, queue: Book, l: Lookup, tx: Tx, l': Lookup)
    requires PoolOk(pending, queue, l) && LookupOk(l') && tx.nonce !in Items(pending, tx.from)
    requires Swapped(l, l', Items(queue, tx.from), tx)
    ensures PoolOk(pending, WithItems(queue, tx.from, Items(queue, tx.from)[tx.nonce := tx]), l')
  {
    var a, pm, qm := tx.from, Items(pending, tx.from), Items(queue, tx.from);
    AccountView(pending, queue, l, a);
    AccountSwapped(l, l', qm, pm, tx);
    SameItems(pending, a);
    AccountChanged(pending, queue, l, a, pm, qm[tx.nonce := tx], l');
  }

  lemma AccountSwapped(l: Lookup, l': Lookup, m: map<nat, Tx>, other: map<nat, Tx>, tx: Tx)
    requires AccountOf(l, tx.from, m, other) && tx.nonce !in other && Swapped(l, l', m, tx)
    ensures AccountOf(l', tx.from, m[tx.nonce := tx], other) && OthersSame(l, l', tx.from)
  {
    var m' := m[tx.nonce := tx];
    forall y: Tx | y.from == tx.from ensures Known(l', y) <==> Holds(m', y) || Holds(other, y) {
      assert Known(l, y) <==> Holds(m, y) || Holds(other, y);
    }
  }

  /** Swaps a transaction into the lookup. */
  method LookupSwap(l: Lookup, older: Option<Tx>, tx: Tx, local: bool) returns (l': Lookup)
    requires LookupOk(l) && !Known(l, tx)
    ensures LookupOk(l') && forall y :: Known(l', y) <==> y == tx || (Known(l, y) && older != Some(y))
    ensures l'.remotes == (l.remotes - (if older.Some? then {older.value} else {})) + (if local then {} else {tx})
    ensures l'.slots <= l.slots + tx.slots && l' == SwapOf(l, older, tx, local)
  {
    var l1 := l;
    if older.Some? {
      l1 := LookupRemove(l, older.value);
    }
    l' := LookupAdd(l1, tx, local);
    forall y ensures Known(l', y) <==> y == tx || (Known(l, y) && older != Some(y)) {
      assert Known(l', y) <==> y in l'.locals + l'.remotes;
      assert Known(l1, y) <==> y in l1.locals + l1.remotes;
    }
  }

  /** Puts tx into a list and the lookup, unless an older transaction with its nonce
      is not to be replaced. */
  method SwapIn(m: map<nat, Tx>, l: Lookup, tx: Tx, local: bool, priceBump: nat)
    returns (inserted: bool, older: Option<Tx>, m': map<nat, Tx>, l': Lookup)
    requires LookupOk(l) && !Known(l, tx)
    ensures inserted == (tx.nonce in m ==> Replaces(m[tx.nonce], tx, priceBump))
    ensures older == if inserted && tx.nonce in m then Some(m[tx.nonce]) else None
    ensures !inserted ==> m' == m && l' == l
    ensures inserted ==>
              m' == m[tx.nonce := tx] && LookupOk(l') && Swapped(l, l', m, tx) && l'.slots <= l.slots + tx.slots
    ensures inserted ==> l' == SwapOf(l, older, tx, local)
    ensures inserted ==>
              l'.remotes == (l.remotes - (if older.Some? then {older.value} else {})) + (if local then {} else {tx})
  {
    l' := l;
    inserted, older, m' := EnqueueItem(m, tx, priceBump);
    if inserted {
      l' := LookupSwap(l, older, tx, local);
    }
  }

  lemma PoolLookup(pending: Book, queue: Book, l: Lookup)
    requires PoolOk(pending, queue, l)
    ensures LookupOk(l)
  {
  }
}
