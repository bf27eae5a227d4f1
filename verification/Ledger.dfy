/** Account balances and their total. */
module Ledger {
  type Account = nat

  /** Balances by account; one that is missing has nothing. */
  type Balances = map<Account, int>

  function BalanceOf(b: Balances, a: Account): int {
    if a in b then b[a] else 0
  }

  /** AddBalance; SubBalance is a negative credit. */
  function Credit(b: Balances, a: Account, amount: int): (b': Balances)
    ensures BalanceOf(b', a) == BalanceOf(b, a) + amount
    ensures forall x :: x != a ==> BalanceOf(b', x) == BalanceOf(b, x)
  {
    b[a := BalanceOf(b, a) + amount]
  }

  ghost function Total(b: Balances): int {
    if b == map[] then 0 else var a :| a in b; b[a] + Total(b - {a})
  }

  lemma {:induction false} TotalWithout(b: Balances, a: Account)
    ensures Total(b) == BalanceOf(b, a) + Total(b - {a})
    decreases |b|
  {
    if a !in b {
      assert b - {a} == b;
    } else {
      var y :| y in b && Total(b) == b[y] + Total(b - {y});
      if y != a {
        assert (b - {y}).Keys == b.Keys - {y} && (b - {a}).Keys == b.Keys - {a};
        TotalWithout(b - {y}, a);
        TotalWithout(b - {a}, y);
        assert b - {y} - {a} == b - {a} - {y};
      }
    }
  }

  /** A credit raises the total by its amount. */
  lemma TotalCredit(b: Balances, a: Account, amount: int)
    ensures Total(Credit(b, a, amount)) == Total(b) + amount
  {
    TotalWithout(b, a);
    TotalWithout(Credit(b, a, amount), a);
    assert Credit(b, a, amount) - {a} == b - {a};
  }

  ghost predicate NonNegative(b: Balances) {
    forall a :: BalanceOf(b, a) >= 0
  }
}
