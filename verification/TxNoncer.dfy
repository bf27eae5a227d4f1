/** The virtual nonces of the pool (core/tx_noncer.go): a map that is filled from the
    state on first use.
 */
module TxNoncers {
  import opened Transactions
  import PoolContent

  class TxNoncer {
    const fallback: Address -> nat
    var nonces: map<Address, nat>

    /** What the pool sees, whether or not it has been looked up before. */
    ghost function Nonce(a: Address): nat
      reads this
    {
      PoolContent.VirtualNonce(nonces, fallback, a)
    }

    constructor (fallback: Address -> nat)
      ensures this.fallback == fallback && forall a :: Nonce(a) == fallback(a)
    {
      this.fallback, nonces := fallback, map[];
    }

    /** Looking a nonce up stores it and changes none. */
    method Get(a: Address) returns (n: nat)
      modifies this
      ensures n == old(Nonce(a)) && forall x :: Nonce(x) == old(Nonce(x))
    {
      if a !in nonces {
        nonces := nonces[a := fallback(a)];
      }
      return nonces[a];
    }

    method Set(a: Address, n: nat)
      modifies this
      ensures Nonce(a) == n && forall x :: x != a ==> Nonce(x) == old(Nonce(x))
    {
      nonces := nonces[a := n];
    }

    /** Lowers a nonce, even one that was only in the state; never raises it. */
    method SetIfLower(a: Address, n: nat)
      modifies this
      ensures nonces == PoolContent.SetIfLower(old(nonces), fallback, a, n)
      ensures Nonce(a) == if old(Nonce(a)) <= n then old(Nonce(a)) else n
      ensures forall x :: x != a ==> Nonce(x) == old(Nonce(x))
    {
      if a !in nonces {
        nonces := nonces[a := fallback(a)];
      }
      if nonces[a] <= n {
        return;
      }
      nonces := nonces[a := n];
    }
  }
}
