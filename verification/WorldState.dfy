/** Accounts: balances, nonces and which addresses carry code. */
module WorldState {
  type Address = nat

  /** Balances are big integers in the source and could go negative; that they do not is proved. */
  datatype World = World(balances: map<Address, int>, nonces: map<Address, nat>, code: set<Address>)

  function Balance(w: World, a: Address): (b: int)
  {
    if a in w.balances then w.balances[a] else 0
  }

  function Nonce(w: World, a: Address): (n: nat)
  {
    if a in w.nonces then w.nonces[a] else 0
  }

  function AddBalance(w: World, a: Address, amount: int): (r: World)
  {
    w.(balances := w.balances[a := Balance(w, a) + amount])
  }

  function BumpNonce(w: World, a: Address): (r: World)
  {
    w.(nonces := w.nonces[a := Nonce(w, a) + 1])
  }

  /** No account is overdrawn. */
  ghost predicate Solvent(w: World)
  {
    forall a: Address :: Balance(w, a) >= 0
  }

  /** All the wei there is. */
  ghost function Total(w: World): (t: int)
  {
    Sum(w.balances)
  }

  ghost function Sum(m: map<Address, int>): (t: int)
  {
    if m == map[] then 0
    else
      var a :| a in m;
      m[a] + Sum(m - {a})
  }

  /** The sum does not depend on the order in which accounts are counted. */
  lemma {:induction false} SumRemove(m: map<Address, int>, a: Address)
    requires a in m
    ensures Sum(m) == m[a] + Sum(m - {a})
    decreases |m|
  {
    var b :| b in m && Sum(m) == m[b] + Sum(m - {b});
    if b != a {
      SumRemove(m - {b}, a);
      SumRemove(m - {a}, b);
      assert m - {a} - {b} == m - {b} - {a};
    }
  }

  /** Crediting an account raises the total by the amount. */
  lemma AddBalanceTotal(w: World, a: Address, amount: int)
    ensures Total(AddBalance(w, a, amount)) == Total(w) + amount
  {
    var more := AddBalance(w, a, amount).balances;
    SumRemove(more, a);
    assert more - {a} == w.balances - {a};
    if a in w.balances {
      SumRemove(w.balances, a);
    } else {
      assert w.balances - {a} == w.balances;
    }
  }

  lemma AddBalanceSolvent(w: World, a: Address, amount: int)
    requires Solvent(w) && Balance(w, a) + amount >= 0
    ensures Solvent(AddBalance(w, a, amount))
  {
    forall b: Address ensures Balance(AddBalance(w, a, amount), b) >= 0 {
      assert Balance(w, b) >= 0;
    }
  }
}
