/** Code delegations of EIP-7702: applying a transaction's authorization list, with the runtime charges of Amsterdam. */
module Authorizations {
  import opened Basics
  import opened GasBudgets
  import opened Ledger

  const NO_TARGET: Address := 0
  const MAX_NONCE: nat := 0xffff_ffff_ffff_ffff
  const REFUND_EXISTING: nat := 25000 - 12500
  const ACCOUNT_WRITE: nat := 8000
  const ACCOUNT_CREATION: nat := 120 * 1530
  const INDICATOR: nat := 23 * 1530

  datatype Code = Empty | Delegation(target: Address) | Contract

  datatype Account = Account(nonce: nat, code: Code, funded: bool)

  type Accounts = map<Address, Account>

  /** An authorization tuple with the signer its signature recovers, if it does. */
  datatype Authorization = Authorization(chainId: nat, address: Address, nonce: nat, signer: Option<Address>)

  /** What the charges depend on besides the list. */
  datatype Env = Env(chainId: nat, from: Address, to: Address, hasValue: bool, amsterdam: bool)

  function At(accounts: Accounts, a: Address): (r: Account) {
    if a in accounts then accounts[a] else Account(0, Empty, false)
  }

  predicate IsEmpty(acct: Account) {
    acct.nonce == 0 && acct.code == Empty && !acct.funded
  }

  /** Validate an authorization against the state; its signer if it is valid. */
  function Validate(auth: Authorization, accounts: Accounts, chainId: nat): (r: Option<Address>) {
    if auth.chainId != 0 && auth.chainId != chainId then None
    else if auth.nonce >= MAX_NONCE then None
    else if auth.signer.None? then None
    else
      var acct := At(accounts, auth.signer.value);
      if acct.code == Contract then None
      else if acct.nonce != auth.nonce then None
      else auth.signer
  }

  /** The account an entry warms, valid or not: its signer, once chain and nonce range are in order. */
  function Touched(auth: Authorization, chainId: nat): (s: set<Address>) {
    if (auth.chainId == 0 || auth.chainId == chainId) && auth.nonce < MAX_NONCE && auth.signer.Some? then {auth.signer.value} else {}
  }

  function TouchedBy(auths: seq<Authorization>, chainId: nat): (s: set<Address>) {
    if auths == [] then {} else TouchedBy(auths[..|auths|-1], chainId) + Touched(auths[|auths|-1], chainId)
  }

  lemma TouchedOneMore(auths: seq<Authorization>, auth: Authorization, chainId: nat)
    ensures TouchedBy(auths + [auth], chainId) == TouchedBy(auths, chainId) + Touched(auth, chainId)
  {
    assert (auths + [auth])[..|auths|] == auths;
  }

  /** The warm accounts are the signers of the entries for this chain with a nonce that can still be raised. */
  lemma {:induction false} WarmExactly(auths: seq<Authorization>, a: Address, chainId: nat)
    ensures a in TouchedBy(auths, chainId) <==>
              exists i :: 0 <= i < |auths| && auths[i].signer == Some(a)
                          && (auths[i].chainId == 0 || auths[i].chainId == chainId) && auths[i].nonce + 1 < 0x1_0000_0000_0000_0000
  {
    if auths != [] {
      var rest := auths[..|auths|-1];
      WarmExactly(rest, a, chainId);
      assert forall i | 0 <= i < |rest| :: rest[i] == auths[i];
    }
  }

  /** Every account that is written is warm. */
  lemma {:induction false} WrittenIsWarm(auths: seq<Authorization>, a: Address, start: Account, chainId: nat)
    ensures Count(auths, a, start, chainId) > 0 ==> a in TouchedBy(auths, chainId)
  {
    if auths != [] { WrittenIsWarm(auths[..|auths|-1], a, start, chainId); }
  }

  // The reference: an authority's fate follows from its own entries alone.

  /** The entry is valid for the authority when this many of its earlier entries were. */
  predicate Matches(auth: Authorization, a: Address, start: Account, count: nat, chainId: nat) {
    && auth.signer == Some(a) && (auth.chainId == 0 || auth.chainId == chainId)
    && auth.nonce < MAX_NONCE && start.code != Contract && auth.nonce == start.nonce + count
  }

  /** How many of the authority's entries are valid. */
  function Count(auths: seq<Authorization>, a: Address, start: Account, chainId: nat): (n: nat) {
    if auths == [] then 0
    else
      var n := Count(auths[..|auths|-1], a, start, chainId);
      if Matches(auths[|auths|-1], a, start, n, chainId) then n + 1 else n
  }

  predicate LastMatches(auths: seq<Authorization>, a: Address, start: Account, chainId: nat)
    requires auths != []
  {
    Matches(auths[|auths|-1], a, start, Count(auths[..|auths|-1], a, start, chainId), chainId)
  }

  /** The authority's last valid entry. */
  function Last(auths: seq<Authorization>, a: Address, start: Account, chainId: nat): (r: Option<Authorization>)
    ensures r.Some? <==> Count(auths, a, start, chainId) > 0
  {
    if auths == [] then None
    else if LastMatches(auths, a, start, chainId) then Some(auths[|auths|-1])
    else Last(auths[..|auths|-1], a, start, chainId)
  }

  /** Some valid entry of the authority installs a delegation. */
  predicate Installs(auths: seq<Authorization>, a: Address, start: Account, chainId: nat) {
    auths != [] &&
    (|| (LastMatches(auths, a, start, chainId) && auths[|auths|-1].address != NO_TARGET)
     || Installs(auths[..|auths|-1], a, start, chainId))
  }

  function Target(address: Address): (c: Code) {
    if address == NO_TARGET then Empty else Delegation(address)
  }

  /** The account an authority ends with: its nonce raised by its valid entries, its code as the last one says. */
  function Final(auths: seq<Authorization>, a: Address, start: Account, chainId: nat): (r: Account) {
    var last := Last(auths, a, start, chainId);
    Account(start.nonce + Count(auths, a, start, chainId),
            if last.Some? then Target(last.value.address) else start.code,
            start.funded)
  }

  /** An entry counts for an authority exactly when it is signed by it, for this chain or any, with the nonce the
      authority has by then, which can still be raised, and the authority is not a contract. */
  lemma CountsExactly(auths: seq<Authorization>, k: nat, a: Address, start: Account, chainId: nat)
    requires k < |auths|
    ensures var before := Count(auths[..k], a, start, chainId);
            Count(auths[..k + 1], a, start, chainId) ==
              before + if && auths[k].signer == Some(a) && auths[k].chainId in {0, chainId} && start.code != Contract
                          && auths[k].nonce == start.nonce + before && auths[k].nonce + 1 < 0x1_0000_0000_0000_0000 then 1 else 0
  {
    assert auths[..k + 1][..k] == auths[..k];
  }

  /** An authority ends as its last valid entry says: that entry's nonce raised by one, and the code it names, or none
      if it names the zero address. Without a valid entry nothing changes. */
  lemma {:induction false} LastEntryDecides(auths: seq<Authorization>, a: Address, start: Account, chainId: nat)
    ensures Count(auths, a, start, chainId) == 0 ==> Final(auths, a, start, chainId) == start
    ensures Count(auths, a, start, chainId) > 0 ==>
              exists k :: 0 <= k < |auths| && Decides(auths, k, a, start, chainId, Final(auths, a, start, chainId))
  {
    if auths != [] {
      var rest, last := auths[..|auths|-1], |auths| - 1;
      if LastMatches(auths, a, start, chainId) {
        assert auths[..last + 1] == auths;
        assert Decides(auths, last, a, start, chainId, Final(auths, a, start, chainId));
      } else {
        LastEntryDecides(rest, a, start, chainId);
        if Count(rest, a, start, chainId) > 0 {
          var k :| 0 <= k < |rest| && Decides(rest, k, a, start, chainId, Final(rest, a, start, chainId));
          assert rest[..k + 1] == auths[..k + 1] && rest[k] == auths[k];
          assert Decides(auths, k, a, start, chainId, Final(auths, a, start, chainId));
        }
      }
    }
  }

  /** Entry `k` is the authority's, no later one is valid, and the account is as it says. */
  ghost predicate Decides(auths: seq<Authorization>, k: nat, a: Address, start: Account, chainId: nat, end: Account)
    requires k < |auths|
  {
    && auths[k].signer == Some(a) && Count(auths[..k + 1], a, start, chainId) == Count(auths, a, start, chainId)
    && end == Account(auths[k].nonce + 1, if auths[k].address == 0 then Empty else Delegation(auths[k].address), start.funded)
  }

  ghost predicate Reflects(accounts: Accounts, start: Accounts, auths: seq<Authorization>, chainId: nat) {
    forall a: Address ::
      && At(accounts, a) == Final(auths, a, At(start, a), chainId)
      && (a in accounts <==> a in start || Count(auths, a, At(start, a), chainId) > 0)
  }

  /** One entry changes no other authority. */
  lemma OtherSigner(auths: seq<Authorization>, auth: Authorization, a: Address, start: Account, chainId: nat)
    requires !Matches(auth, a, start, Count(auths, a, start, chainId), chainId)
    ensures Count(auths + [auth], a, start, chainId) == Count(auths, a, start, chainId)
    ensures Last(auths + [auth], a, start, chainId) == Last(auths, a, start, chainId)
    ensures Installs(auths + [auth], a, start, chainId) == Installs(auths, a, start, chainId)
  {
    assert (auths + [auth])[..|auths|] == auths;
  }

  lemma OwnEntry(auths: seq<Authorization>, auth: Authorization, a: Address, start: Account, chainId: nat)
    requires Matches(auth, a, start, Count(auths, a, start, chainId), chainId)
    ensures Count(auths + [auth], a, start, chainId) == Count(auths, a, start, chainId) + 1
    ensures Last(auths + [auth], a, start, chainId) == Some(auth)
    ensures Installs(auths + [auth], a, start, chainId) <==> Installs(auths, a, start, chainId) || auth.address != NO_TARGET
  {
    assert (auths + [auth])[..|auths|] == auths;
  }

  /** The validation against the evolving state agrees with the reference. */
  lemma ValidateMatches(accounts: Accounts, start: Accounts, auths: seq<Authorization>, auth: Authorization, a: Address, chainId: nat)
    requires Reflects(accounts, start, auths, chainId)
    ensures Validate(auth, accounts, chainId) == Some(a) <==>
              Matches(auth, a, At(start, a), Count(auths, a, At(start, a), chainId), chainId)
  {
    assert At(accounts, a) == Final(auths, a, At(start, a), chainId);
    NeverContract(auths, a, At(start, a), chainId);
  }

  lemma {:induction false} NeverContract(auths: seq<Authorization>, a: Address, start: Account, chainId: nat)
    ensures Final(auths, a, start, chainId).code == Contract <==> start.code == Contract
    ensures start.code == Contract ==> Count(auths, a, start, chainId) == 0
  {
    if auths != [] { NeverContract(auths[..|auths|-1], a, start, chainId); }
  }

  lemma ReflectsSkip(accounts: Accounts, start: Accounts, auths: seq<Authorization>, auth: Authorization, chainId: nat)
    requires Reflects(accounts, start, auths, chainId) && Validate(auth, accounts, chainId).None?
    ensures Reflects(accounts, start, auths + [auth], chainId)
  {
    forall a: Address
      ensures At(accounts, a) == Final(auths + [auth], a, At(start, a), chainId)
      ensures a in accounts <==> a in start || Count(auths + [auth], a, At(start, a), chainId) > 0
    {
      ValidateMatches(accounts, start, auths, auth, a, chainId);
      OtherSigner(auths, auth, a, At(start, a), chainId);
    }
  }

  lemma ReflectsApply(accounts: Accounts, start: Accounts, auths: seq<Authorization>, auth: Authorization, chainId: nat, b: Address)
    requires Reflects(accounts, start, auths, chainId) && Validate(auth, accounts, chainId) == Some(b)
    ensures Reflects(accounts[b := Account(auth.nonce + 1, Target(auth.address), At(accounts, b).funded)], start, auths + [auth], chainId)
  {
    var after := accounts[b := Account(auth.nonce + 1, Target(auth.address), At(accounts, b).funded)];
    forall a: Address
      ensures At(after, a) == Final(auths + [auth], a, At(start, a), chainId)
      ensures a in after <==> a in start || Count(auths + [auth], a, At(start, a), chainId) > 0
    {
      ValidateMatches(accounts, start, auths, auth, a, chainId);
      if a == b {
        OwnEntry(auths, auth, a, At(start, a), chainId);
      } else {
        OtherSigner(auths, auth, a, At(start, a), chainId);
      }
    }
  }

  /** The accounts whose write is already paid for: the sender, and a recipient of value. */
  predicate Prepaid(a: Address, env: Env) {
    a == env.from || (a == env.to && env.hasValue)
  }

  /** What an entry of the authority costs after the given ones: the account write for its first valid entry,
      the growth of a new account, and the indicator for its first installation on a plain account. */
  function EntryCost(auths: seq<Authorization>, auth: Authorization, a: Address, start: Account, env: Env): (c: (nat, nat)) {
    var n := Count(auths, a, start, env.chainId);
    if !env.amsterdam || !Matches(auth, a, start, n, env.chainId) then (0, 0)
    else
      (if n == 0 && !Prepaid(a, env) then ACCOUNT_WRITE else 0,
       (if n == 0 && IsEmpty(start) then ACCOUNT_CREATION else 0)
       + (if auth.address != NO_TARGET && !start.code.Delegation? && !Installs(auths, a, start, env.chainId) then INDICATOR else 0))
  }

  /** What one authority's entries cost together. */
  function CostOf(auths: seq<Authorization>, a: Address, start: Account, env: Env): (c: (nat, nat)) {
    if auths == [] then (0, 0)
    else
      var rest := auths[..|auths|-1];
      var before, entry := CostOf(rest, a, start, env), EntryCost(rest, auths[|auths|-1], a, start, env);
      (before.0 + entry.0, before.1 + entry.1)
  }

  /** However many entries an authority signs, it pays the account write (unless the transaction has), the creation of
      an empty account (120 bytes) and the delegation indicator (23 bytes) at most once each. */
  lemma {:induction false} ChargedOnce(auths: seq<Authorization>, a: Address, start: Account, env: Env)
    requires env.amsterdam
    ensures var valid := Count(auths, a, start, env.chainId) > 0;
            CostOf(auths, a, start, env) ==
              (if valid && a != env.from && (a != env.to || !env.hasValue) then 8000 else 0,
               (if valid && start.nonce == 0 && start.code == Empty && !start.funded then 183600 else 0)
               + (if Installs(auths, a, start, env.chainId) && !start.code.Delegation? then 35190 else 0))
  {
    if auths != [] {
      var rest, last := auths[..|auths|-1], auths[|auths|-1];
      ChargedOnce(rest, a, start, env);
      assert auths == rest + [last];
      if LastMatches(auths, a, start, env.chainId) {
        OwnEntry(rest, last, a, start, env.chainId);
      } else {
        OtherSigner(rest, last, a, start, env.chainId);
      }
    }
  }

  /** What the whole list costs. */
  function Cost(auths: seq<Authorization>, start: Accounts, env: Env): (c: (nat, nat)) {
    if auths == [] then (0, 0)
    else
      var rest, last := auths[..|auths|-1], auths[|auths|-1];
      var before := Cost(rest, start, env);
      var entry := if last.signer.None? then (0, 0)
                   else EntryCost(rest, last, last.signer.value, At(start, last.signer.value), env);
      (before.0 + entry.0, before.1 + entry.1)
  }

  /** The refunds before Amsterdam: one for each valid entry whose authority exists by then. */
  function Refunds(auths: seq<Authorization>, start: Accounts, chainId: nat): (n: nat) {
    if auths == [] then 0
    else
      var rest, last := auths[..|auths|-1], auths[|auths|-1];
      Refunds(rest, start, chainId) +
      (if last.signer.None? then 0
       else
         var a := last.signer.value;
         var n := Count(rest, a, At(start, a), chainId);
         if Matches(last, a, At(start, a), n, chainId) && (a in start || n > 0) then REFUND_EXISTING else 0)
  }

  lemma CostOneMore(auths: seq<Authorization>, auth: Authorization, start: Accounts, env: Env)
    ensures var entry := if auth.signer.None? then (0, 0)
                         else EntryCost(auths, auth, auth.signer.value, At(start, auth.signer.value), env);
            && Cost(auths + [auth], start, env).0 == Cost(auths, start, env).0 + entry.0
            && Cost(auths + [auth], start, env).1 == Cost(auths, start, env).1 + entry.1
  {
    assert (auths + [auth])[..|auths|] == auths;
  }

  lemma {:induction false} CostGrows(auths: seq<Authorization>, k: nat, start: Accounts, env: Env)
    requires k <= |auths|
    ensures Cost(auths[..k], start, env).0 <= Cost(auths, start, env).0
    ensures Cost(auths[..k], start, env).1 <= Cost(auths, start, env).1
  {
    if k == |auths| {
      assert auths[..k] == auths;
    } else {
      CostGrows(auths[..|auths|-1], k, start, env);
      assert auths[..|auths|-1][..k] == auths[..k];
    }
  }

  function Excess(a: int, b: int): (n: nat) {
    if a > b then a - b else 0
  }

  /** A budget after paying a list's cost: state gas first from the reservoir, then from the regular gas. */
  function Spent(g: Budget, cost: (nat, nat)): (r: Budget) {
    Budget(g.regular - cost.0 - Excess(cost.1, g.state), Excess(g.state, cost.1),
           g.usedRegular + cost.0, g.usedState + cost.1, g.spilled + Excess(cost.1, g.state))
  }

  predicate Affords(g: Budget, cost: (nat, nat)) {
    cost.0 + Excess(cost.1, g.state) <= g.regular
  }

  /** A list is not affordable when a prefix of it is not. */
  lemma PrefixTooDear(auths: seq<Authorization>, k: nat, start: Accounts, env: Env, g: Budget)
    requires k <= |auths| && !Affords(g, Cost(auths[..k], start, env))
    ensures !Affords(g, Cost(auths, start, env))
  {
    CostGrows(auths, k, start, env);
  }

  /** Paying in steps is paying at once. */
  lemma SpendInSteps(g: Budget, first: (nat, nat), second: (nat, nat))
    requires g.state >= 0 && Affords(g, first)
    ensures ChargeGas(Spent(g, first), second.0, second.1) ==
              var both := (first.0 + second.0, first.1 + second.1);
              if Affords(g, both) then Some(Spent(g, both)) else None
  {
  }

  /** A sum over a set of addresses. */
  ghost function SumOver(s: set<Address>, f: Address -> nat): (n: nat) {
    if s == {} then 0
    else
      var a :| a in s;
      f(a) + SumOver(s - {a}, f)
  }

  lemma {:induction false} SumChange(s: set<Address>, f: Address -> nat, g: Address -> nat, a: Address, d: nat)
    requires forall b | b in s && b != a :: g(b) == f(b)
    requires a in s ==> g(a) == f(a) + d
    ensures SumOver(s, g) == SumOver(s, f) + if a in s then d else 0
  {
    if s != {} {
      var x :| x in s && SumOver(s, f) == f(x) + SumOver(s - {x}, f) && SumOver(s, g) == g(x) + SumOver(s - {x}, g);
      SumChange(s - {x}, f, g, a, d);
    }
  }

  ghost function RegularCosts(auths: seq<Authorization>, start: Accounts, env: Env): Address -> nat {
    a => CostOf(auths, a, At(start, a), env).0
  }

  ghost function StateCosts(auths: seq<Authorization>, start: Accounts, env: Env): Address -> nat {
    a => CostOf(auths, a, At(start, a), env).1
  }

  lemma NothingYet(s: set<Address>, start: Accounts, env: Env)
    ensures SumOver(s, RegularCosts([], start, env)) == 0 && SumOver(s, StateCosts([], start, env)) == 0
    decreases s
  {
    if s != {} {
      var f, g := RegularCosts([], start, env), StateCosts([], start, env);
      var x :| x in s && SumOver(s, f) == f(x) + SumOver(s - {x}, f) && SumOver(s, g) == g(x) + SumOver(s - {x}, g);
      NothingYet(s - {x}, start, env);
    }
  }

  /** An entry adds to what its signer owes, and to nobody else's. */
  lemma OwedOneMore(auths: seq<Authorization>, b: Address, start: Account, env: Env)
    requires auths != []
    ensures var rest, last := auths[..|auths|-1], auths[|auths|-1];
            var entry := if last.signer == Some(b) then EntryCost(rest, last, b, start, env) else (0, 0);
            && CostOf(auths, b, start, env).0 == CostOf(rest, b, start, env).0 + entry.0
            && CostOf(auths, b, start, env).1 == CostOf(rest, b, start, env).1 + entry.1
  {
  }

  /** What the last entry of a list adds to the cost. */
  ghost function LastCost(auths: seq<Authorization>, start: Accounts, env: Env): (c: (nat, nat))
    requires auths != []
  {
    var rest, last := auths[..|auths|-1], auths[|auths|-1];
    if last.signer.None? then (0, 0) else EntryCost(rest, last, last.signer.value, At(start, last.signer.value), env)
  }

  /** One more entry, by a signer in the set or by nobody, moves the sum of regular costs by its own. */
  lemma RegularOneMore(auths: seq<Authorization>, start: Accounts, env: Env, s: set<Address>)
    requires auths != [] && (auths[|auths|-1].signer.Some? ==> auths[|auths|-1].signer.value in s)
    ensures SumOver(s, RegularCosts(auths, start, env)) ==
              SumOver(s, RegularCosts(auths[..|auths|-1], start, env)) + LastCost(auths, start, env).0
  {
    var last, d := auths[|auths|-1], LastCost(auths, start, env).0;
    var f, g := RegularCosts(auths[..|auths|-1], start, env), RegularCosts(auths, start, env);
    forall b: Address ensures g(b) == f(b) + (if last.signer == Some(b) then d else 0) {
      OwedOneMore(auths, b, At(start, b), env);
    }
    SumChange(s, f, g, if last.signer.Some? then last.signer.value else 0, d);
  }

  lemma StateOneMore(auths: seq<Authorization>, start: Accounts, env: Env, s: set<Address>)
    requires auths != [] && (auths[|auths|-1].signer.Some? ==> auths[|auths|-1].signer.value in s)
    ensures SumOver(s, StateCosts(auths, start, env)) ==
              SumOver(s, StateCosts(auths[..|auths|-1], start, env)) + LastCost(auths, start, env).1
  {
    var last, d := auths[|auths|-1], LastCost(auths, start, env).1;
    var f, g := StateCosts(auths[..|auths|-1], start, env), StateCosts(auths, start, env);
    forall b: Address ensures g(b) == f(b) + (if last.signer == Some(b) then d else 0) {
      OwedOneMore(auths, b, At(start, b), env);
    }
    SumChange(s, f, g, if last.signer.Some? then last.signer.value else 0, d);
  }

  /** The cost of the list is the sum of what each authority owes, over any set holding all signers. */
  lemma {:induction false} CostPerAuthority(auths: seq<Authorization>, start: Accounts, env: Env, s: set<Address>)
    requires forall i | 0 <= i < |auths| :: auths[i].signer.Some? ==> auths[i].signer.value in s
    ensures Cost(auths, start, env).0 == SumOver(s, RegularCosts(auths, start, env))
    ensures Cost(auths, start, env).1 == SumOver(s, StateCosts(auths, start, env))
  {
    if auths == [] {
      NothingYet(s, start, env);
    } else {
      var rest, last := auths[..|auths|-1], auths[|auths|-1];
      CostPerAuthority(rest, start, env, s);
      RegularOneMore(auths, start, env, s);
      StateOneMore(auths, start, env, s);
    }
  }

  /** What one authority's entries refund before Amsterdam: a fixed amount for each valid one, except the one that
      creates the account. */
  ghost function RefundOf(auths: seq<Authorization>, start: Accounts, chainId: nat): Address -> nat {
    a =>
      var n := Count(auths, a, At(start, a), chainId);
      12500 * if n > 0 && a !in start then n - 1 else n
  }

  lemma NoRefundYet(s: set<Address>, start: Accounts, chainId: nat)
    ensures SumOver(s, RefundOf([], start, chainId)) == 0
    decreases s
  {
    if s != {} {
      var f := RefundOf([], start, chainId);
      var x :| x in s && SumOver(s, f) == f(x) + SumOver(s - {x}, f);
      NoRefundYet(s - {x}, start, chainId);
    }
  }

  /** The refunds of the list are the sum of each authority's. */
  lemma {:induction false} RefundsPerAuthority(auths: seq<Authorization>, start: Accounts, chainId: nat, s: set<Address>)
    requires forall i | 0 <= i < |auths| :: auths[i].signer.Some? ==> auths[i].signer.value in s
    ensures Refunds(auths, start, chainId) == SumOver(s, RefundOf(auths, start, chainId))
  {
    if auths == [] {
      NoRefundYet(s, start, chainId);
    } else {
      var rest, last := auths[..|auths|-1], auths[|auths|-1];
      RefundsPerAuthority(rest, start, chainId, s);
      var d := Refunds(auths, start, chainId) - Refunds(rest, start, chainId);
      var f, g := RefundOf(rest, start, chainId), RefundOf(auths, start, chainId);
      forall b: Address ensures g(b) == f(b) + (if last.signer == Some(b) then d else 0) {
        RefundOneMore(auths, b, start, chainId);
      }
      SumChange(s, f, g, if last.signer.Some? then last.signer.value else 0, d);
    }
  }

  lemma RefundOneMore(auths: seq<Authorization>, b: Address, start: Accounts, chainId: nat)
    requires auths != []
    ensures var rest, last := auths[..|auths|-1], auths[|auths|-1];
            RefundOf(auths, start, chainId)(b) == RefundOf(rest, start, chainId)(b) +
              if last.signer == Some(b) then Refunds(auths, start, chainId) - Refunds(rest, start, chainId) else 0
  {
  }

  /** The charges an authority has already paid in this transaction. */
  datatype Track = Track(written: bool, covered: bool)

  ghost predicate Tracks(tracking: map<Address, Track>, done: seq<Authorization>, start: Accounts, env: Env) {
    forall a: Address :: TracksOne(tracking, done, a, At(start, a), env)
  }

  ghost predicate TracksOne(tracking: map<Address, Track>, done: seq<Authorization>, a: Address, start: Account, env: Env) {
    && (a in tracking <==> Count(done, a, start, env.chainId) > 0)
    && (a in tracking ==>
          && (tracking[a].written <==> !Prepaid(a, env))
          && (tracking[a].covered <==> start.code.Delegation? || Installs(done, a, start, env.chainId)))
  }

  lemma TracksSkip(tracking: map<Address, Track>, done: seq<Authorization>, auth: Authorization, accounts: Accounts, start: Accounts, env: Env)
    requires Tracks(tracking, done, start, env) && Reflects(accounts, start, done, env.chainId)
    requires Validate(auth, accounts, env.chainId).None?
    ensures Tracks(tracking, done + [auth], start, env)
  {
    forall a: Address ensures TracksOne(tracking, done + [auth], a, At(start, a), env) {
      assert TracksOne(tracking, done, a, At(start, a), env);
      ValidateMatches(accounts, start, done, auth, a, env.chainId);
      OtherSigner(done, auth, a, At(start, a), env.chainId);
    }
  }

  lemma TracksApply(
      tracking: map<Address, Track>, done: seq<Authorization>, auth: Authorization, accounts: Accounts, start: Accounts, env: Env,
      b: Address, track: Track)
    requires Tracks(tracking, done, start, env) && Reflects(accounts, start, done, env.chainId)
    requires Validate(auth, accounts, env.chainId) == Some(b)
    requires track.written <==> !Prepaid(b, env)
    requires track.covered <==>
               At(start, b).code.Delegation? || Installs(done, b, At(start, b), env.chainId) || auth.address != NO_TARGET
    ensures Tracks(tracking[b := track], done + [auth], start, env)
  {
    forall a: Address ensures TracksOne(tracking[b := track], done + [auth], a, At(start, a), env) {
      assert TracksOne(tracking, done, a, At(start, a), env);
      ValidateMatches(accounts, start, done, auth, a, env.chainId);
      if a == b {
        OwnEntry(done, auth, b, At(start, b), env.chainId);
      } else {
        OtherSigner(done, auth, a, At(start, a), env.chainId);
      }
    }
  }

  /** The cost of a valid entry, read off the current state and the charges tracked so far, is the reference cost. */
  method Price(
      auth: Authorization, a: Address, accounts: Accounts, tracking: map<Address, Track>, env: Env,
      ghost done: seq<Authorization>, ghost start: Accounts)
    returns (cost: (nat, nat), track: Track)
    requires env.amsterdam && Validate(auth, accounts, env.chainId) == Some(a)
    requires Reflects(accounts, start, done, env.chainId) && Tracks(tracking, done, start, env)
    ensures cost == EntryCost(done, auth, a, At(start, a), env)
    ensures track.written <==> !Prepaid(a, env)
    ensures track.covered <==>
              At(start, a).code.Delegation? || Installs(done, a, At(start, a), env.chainId) || auth.address != NO_TARGET
  {
    ValidateMatches(accounts, start, done, auth, a, env.chainId);
    assert At(accounts, a) == Final(done, a, At(start, a), env.chainId);
    assert TracksOne(tracking, done, a, At(start, a), env);
    NoneInstalled(done, a, At(start, a), env.chainId);
    track := if a in tracking then tracking[a] else Track(false, At(accounts, a).code.Delegation?);
    var regular, state := 0, 0;
    if !track.written && a != env.from && (a != env.to || !env.hasValue) {
      regular := regular + ACCOUNT_WRITE;
      track := track.(written := true);
    }
    if IsEmpty(At(accounts, a)) {
      state := state + ACCOUNT_CREATION;
    }
    if auth.address != NO_TARGET && !track.covered {
      state := state + INDICATOR;
      track := track.(covered := true);
    }
    cost := (regular, state);
  }

  lemma {:induction false} NoneInstalled(auths: seq<Authorization>, a: Address, start: Account, chainId: nat)
    ensures Installs(auths, a, start, chainId) ==> Count(auths, a, start, chainId) > 0
  {
    if auths != [] { NoneInstalled(auths[..|auths|-1], a, start, chainId); }
  }

  /** The refund of one entry. */
  lemma RefundsOneMore(auths: seq<Authorization>, auth: Authorization, start: Accounts, accounts: Accounts, chainId: nat)
    requires Reflects(accounts, start, auths, chainId)
    ensures Refunds(auths + [auth], start, chainId) ==
              Refunds(auths, start, chainId) +
              var valid := Validate(auth, accounts, chainId);
              if valid.Some? && valid.value in accounts then REFUND_EXISTING else 0
  {
    assert (auths + [auth])[..|auths|] == auths;
    if auth.signer.Some? { ValidateMatches(accounts, start, auths, auth, auth.signer.value, chainId); }
  }

  /** An invalid entry costs nothing, a valid one its reference cost. */
  lemma CostStep(auths: seq<Authorization>, auth: Authorization, start: Accounts, accounts: Accounts, env: Env)
    requires Reflects(accounts, start, auths, env.chainId)
    ensures var valid := Validate(auth, accounts, env.chainId);
            var entry := if valid.None? then (0, 0) else EntryCost(auths, auth, valid.value, At(start, valid.value), env);
            && Cost(auths + [auth], start, env).0 == Cost(auths, start, env).0 + entry.0
            && Cost(auths + [auth], start, env).1 == Cost(auths, start, env).1 + entry.1
  {
    CostOneMore(auths, auth, start, env);
    if auth.signer.Some? { ValidateMatches(accounts, start, auths, auth, auth.signer.value, env.chainId); }
  }

  /** The state an authorization list is applied to. */
  class Authorizer {
    const env: Env
    var accounts: Accounts
    var refund: nat
    var gas: Budget
    var tracking: map<Address, Track>
    var accessed: set<Address>

    constructor (env: Env, accounts: Accounts, refund: nat, gas: Budget, accessed: set<Address>)
      ensures this.env == env && this.accounts == accounts && this.refund == refund && this.gas == gas
      ensures tracking == map[] && this.accessed == accessed
    {
      this.env, this.accounts, this.refund, this.gas := env, accounts, refund, gas;
      tracking, this.accessed := map[], accessed;
    }

    /** The entries so far have been applied, from this state, refund counter and budget. */
    ghost predicate Applied(done: seq<Authorization>, start: Accounts, refund0: nat, gas0: Budget)
      reads this`accounts, this`refund, this`gas, this`tracking
    {
      && Reflects(accounts, start, done, env.chainId)
      && (env.amsterdam ==>
            && Tracks(tracking, done, start, env) && refund == refund0
            && gas == Spent(gas0, Cost(done, start, env)) && Affords(gas0, Cost(done, start, env)))
      && (!env.amsterdam ==> gas == gas0 && refund == refund0 + Refunds(done, start, env.chainId))
    }

    /** The entries so far have been applied and paid, and the next one does not fit the budget after them. */
    ghost predicate RanOut(done: seq<Authorization>, next: Authorization, start: Accounts, refund0: nat, gas0: Budget)
      reads this`accounts, this`refund, this`gas
    {
      && env.amsterdam && Reflects(accounts, start, done, env.chainId) && refund == refund0
      && gas == Spent(gas0, Cost(done, start, env)) && Affords(gas0, Cost(done, start, env))
      && !Affords(gas0, Cost(done + [next], start, env))
    }

    /** Pay for a valid entry, or find that the budget does not cover it. */
    method Pay(auth: Authorization, a: Address, ghost done: seq<Authorization>, ghost start: Accounts, ghost gas0: Budget)
      returns (paid: bool)
      requires env.amsterdam && gas0.state >= 0 && Validate(auth, accounts, env.chainId) == Some(a)
      requires Reflects(accounts, start, done, env.chainId) && Tracks(tracking, done, start, env)
      requires gas == Spent(gas0, Cost(done, start, env)) && Affords(gas0, Cost(done, start, env))
      modifies this`gas, this`tracking
      ensures paid <==> Affords(gas0, Cost(done + [auth], start, env))
      ensures !paid ==> gas == old(gas)
      ensures paid ==>
                && gas == Spent(gas0, Cost(done + [auth], start, env))
                && Tracks(tracking, done + [auth], start, env)
    {
      var cost, track := Price(auth, a, accounts, tracking, env, done, start);
      CostStep(done, auth, start, accounts, env);
      SpendInSteps(gas0, Cost(done, start, env), cost);
      TracksApply(tracking, done, auth, accounts, start, env, a, track);
      tracking := tracking[a := track];
      match ChargeGas(gas, cost.0, cost.1)
      case None => return false;
      case Some(charged) =>
        gas := charged;
        return true;
    }

    /** Raise the authority's nonce and clear, install or keep its delegation. */
    method Write(a: Address, auth: Authorization)
      requires At(accounts, a).code != Contract
      modifies this`accounts
      ensures accounts == old(accounts)[a := Account(auth.nonce + 1, Target(auth.address), At(old(accounts), a).funded)]
    {
      var acct := At(accounts, a);
      acct := acct.(nonce := auth.nonce + 1);
      if auth.address == NO_TARGET {
        if acct.code.Delegation? {
          acct := acct.(code := Empty);
        }
      } else if acct.code != Delegation(auth.address) {
        acct := acct.(code := Delegation(auth.address));
      }
      accounts := accounts[a := acct];
    }

    /** An invalid entry changes nothing. */
    lemma SkipInvalid(auth: Authorization, done: seq<Authorization>, start: Accounts, refund0: nat, gas0: Budget)
      requires Applied(done, start, refund0, gas0) && Validate(auth, accounts, env.chainId).None?
      ensures Applied(done + [auth], start, refund0, gas0)
      ensures Cost(done + [auth], start, env) == Cost(done, start, env)
    {
      RefundsOneMore(done, auth, start, accounts, env.chainId);
      CostStep(done, auth, start, accounts, env);
      ReflectsSkip(accounts, start, done, auth, env.chainId);
      if env.amsterdam {
        TracksSkip(tracking, done, auth, accounts, start, env);
      }
    }

    /** Refund or charge a valid entry, then write it. */
    method ApplyValid(
        auth: Authorization, a: Address, ghost done: seq<Authorization>, ghost start: Accounts, ghost refund0: nat, ghost gas0: Budget)
      returns (ok: bool)
      requires Applied(done, start, refund0, gas0) && gas0.state >= 0 && Validate(auth, accounts, env.chainId) == Some(a)
      modifies this`accounts, this`refund, this`gas, this`tracking
      ensures ok ==> Applied(done + [auth], start, refund0, gas0)
      ensures !ok <==> env.amsterdam && !Affords(gas0, Cost(done + [auth], start, env))
      ensures !ok ==> RanOut(done, auth, start, refund0, gas0)
    {
      ReflectsApply(accounts, start, done, auth, env.chainId, a);
      if !env.amsterdam {
        RefundsOneMore(done, auth, start, accounts, env.chainId);
        if a in accounts {
          refund := refund + REFUND_EXISTING;
        }
      } else {
        var paid := Pay(auth, a, done, start, gas0);
        if !paid {
          return false;
        }
      }
      Write(a, auth);
      return true;
    }

    /** Apply one authorization; false only when its charge does not fit the budget. */
    method Apply(auth: Authorization, ghost done: seq<Authorization>, ghost start: Accounts, ghost refund0: nat, ghost gas0: Budget)
      returns (ok: bool)
      requires Applied(done, start, refund0, gas0) && gas0.state >= 0
      modifies this
      ensures accessed == old(accessed) + Touched(auth, env.chainId)
      ensures ok ==> Applied(done + [auth], start, refund0, gas0)
      ensures !ok <==> env.amsterdam && !Affords(gas0, Cost(done + [auth], start, env))
      ensures !ok ==> RanOut(done, auth, start, refund0, gas0)
    {
      accessed := accessed + Touched(auth, env.chainId);
      match Validate(auth, accounts, env.chainId)
      case None =>
        SkipInvalid(auth, done, start, refund0, gas0);
        return true;
      case Some(a) =>
        ok := ApplyValid(auth, a, done, start, refund0, gas0);
    }

    /** The next entry of a list. */
    method ApplyNext(
        auths: seq<Authorization>, i: nat, ghost start: Accounts, ghost refund0: nat, ghost gas0: Budget, ghost accessed0: set<Address>)
      returns (ok: bool)
      requires i < |auths| && Applied(auths[..i], start, refund0, gas0) && gas0.state >= 0
      requires accessed == accessed0 + TouchedBy(auths[..i], env.chainId)
      modifies this
      ensures accessed == accessed0 + TouchedBy(auths[..i + 1], env.chainId)
      ensures ok ==> Applied(auths[..i + 1], start, refund0, gas0)
      ensures !ok ==> RanOut(auths[..i], auths[i], start, refund0, gas0) && !Affords(gas0, Cost(auths, start, env))
    {
      assert auths[..i + 1] == auths[..i] + [auths[i]];
      TouchedOneMore(auths[..i], auths[i], env.chainId);
      ok := Apply(auths[i], auths[..i], start, refund0, gas0);
      if !ok { PrefixTooDear(auths, i + 1, start, env, gas0); }
    }

    lemma NothingApplied()
      requires gas.regular >= 0 && gas.state >= 0 && tracking == map[]
      ensures Applied([], accounts, refund, gas)
    {
    }

    /** Apply a whole list. It is covered exactly when the budget affords the sum of its charges, and then every
        authority ends as the reference says. Otherwise the first `n` entries are applied and the next one is not
        affordable after them. */
    method ApplyAll(auths: seq<Authorization>) returns (covered: bool, ghost n: nat)
      requires gas.regular >= 0 && gas.state >= 0 && tracking == map[]
      modifies this
      ensures covered <==> !env.amsterdam || Affords(old(gas), Cost(auths, old(accounts), env))
      ensures covered ==> Applied(auths, old(accounts), old(refund), old(gas))
      ensures covered ==> accessed == old(accessed) + TouchedBy(auths, env.chainId)
      ensures !covered ==>
                && n < |auths| && RanOut(auths[..n], auths[n], old(accounts), old(refund), old(gas))
                && accessed == old(accessed) + TouchedBy(auths[..n + 1], env.chainId)
    {
      NothingApplied();
      assert auths[..0] == [];
      for i := 0 to |auths|
        invariant Applied(auths[..i], old(accounts), old(refund), old(gas))
        invariant accessed == old(accessed) + TouchedBy(auths[..i], env.chainId)
      {
        var ok := ApplyNext(auths, i, old(accounts), old(refund), old(gas), old(accessed));
        if !ok {
          return false, i;
        }
      }
      assert auths[..|auths|] == auths;
      return true, |auths|;
    }
  }
}
