/** Account balances as 256-bit words, and their sum over all accounts. */
module Ledger {
  const WORD: nat := 0x1_0000_0000_0000_0000_0000_0000_0000_0000_0000_0000_0000_0000_0000_0000_0000_0000

  type Address = nat

  /** Balances by address; an absent account has balance zero. */
  type Balances = map<Address, nat>

  function BalanceOf(b: Balances, a: Address): (n: nat) {
    if a in b then b[a] else 0
  }

  /** Additions and subtractions wrap around at 256 bits, as the machine words do. */
  function AddBalance(b: Balances, a: Address, amount: nat): (r: Balances) {
    b[a := (BalanceOf(b, a) + amount) % WORD]
  }

  function SubBalance(b: Balances, a: Address, amount: nat): (r: Balances) {
    b[a := (BalanceOf(b, a) - amount) % WORD]
  }

  ghost function Total(b: Balances): (n: nat) {
    if b == map[] then 0
    else
      var a :| a in b;
      b[a] + Total(b - {a})
  }

  /** The sum does not depend on which account is counted first. */
  lemma {:induction false} TotalRemove(b: Balances, a: Address)
    requires a in b
    ensures Total(b) == b[a] + Total(b - {a})
    decreases |b|
  {
    var c :| c in b && Total(b) == b[c] + Total(b - {c});
    if c != a {
      assert |b - {c}| < |b| && |b - {a}| < |b|;
      TotalRemove(b - {c}, a);
      TotalRemove(b - {a}, c);
      assert b - {c} - {a} == b - {a} - {c};
    }
  }

  /** Setting one balance changes the sum by the difference. */
  lemma TotalUpdate(b: Balances, a: Address, n: nat)
    ensures Total(b[a := n]) == Total(b) - BalanceOf(b, a) + n
  {
    TotalRemove(b[a := n], a);
    if a in b {
      TotalRemove(b, a);
      assert b[a := n] - {a} == b - {a};
    } else {
      assert b[a := n] - {a} == b;
    }
  }

  /** No account holds more than everything. */
  lemma BalanceBounded(b: Balances, a: Address)
    ensures BalanceOf(b, a) <= Total(b)
  {
    if a in b { TotalRemove(b, a); }
  }

  /** As long as the supply fits a word, an addition is exact. */
  lemma AddExact(b: Balances, a: Address, amount: nat)
    requires Total(b) + amount < WORD
    ensures Total(AddBalance(b, a, amount)) == Total(b) + amount
    ensures forall c :: BalanceOf(AddBalance(b, a, amount), c) == BalanceOf(b, c) + if c == a then amount else 0
  {
    BalanceBounded(b, a);
    TotalUpdate(b, a, BalanceOf(b, a) + amount);
  }

  /** A subtraction of no more than the balance is exact. */
  lemma SubExact(b: Balances, a: Address, amount: nat)
    requires amount <= BalanceOf(b, a) < WORD
    ensures Total(SubBalance(b, a, amount)) == Total(b) - amount
    ensures forall c :: BalanceOf(SubBalance(b, a, amount), c) == BalanceOf(b, c) - if c == a then amount else 0
  {
    TotalUpdate(b, a, BalanceOf(b, a) - amount);
  }

  /** One account gained the amount and nothing else changed. */
  ghost predicate Gained(b: Balances, after: Balances, account: Address, amount: nat) {
    && Total(after) == Total(b) + amount
    && forall a :: BalanceOf(after, a) == BalanceOf(b, a) + if a == account then amount else 0
  }

  /** One account lost the amount, which it had, and nothing else changed. */
  ghost predicate Lost(b: Balances, after: Balances, account: Address, amount: nat) {
    Gained(after, b, account, amount)
  }

  /** The balances of the state database. */
  class StateDb {
    var balances: Balances

    constructor(b: Balances)
      ensures balances == b
    {
      balances := b;
    }

    method Add(account: Address, amount: nat)
      requires Total(balances) + amount < WORD
      modifies this
      ensures Gained(old(balances), balances, account, amount)
    {
      AddExact(balances, account, amount);
      balances := AddBalance(balances, account, amount);
    }

    method Sub(account: Address, amount: nat)
      requires amount <= BalanceOf(balances, account) && Total(balances) < WORD
      modifies this
      ensures Lost(old(balances), balances, account, amount)
    {
      BalanceBounded(balances, account);
      SubExact(balances, account, amount);
      balances := SubBalance(balances, account, amount);
    }
  }
}
