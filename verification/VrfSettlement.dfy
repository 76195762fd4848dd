/** Native settlement of Rabbit VRF fees: the basis-point split and the debits and
    credits that pay it out. */
module VrfSettlement {
  import opened Ledger
  import Bytes

  const BPS_DENOMINATOR: nat := 10000
  const MAX_PARTICIPANTS: nat := 128
  const NO_ADDRESS: Address := 0
  const NO_ID: nat := 0

  /** The basis points of the producer and of all participants together; the rest is allocation. */
  datatype Shares = Shares(producer: nat, participants: nat)

  const V1 := Shares(3000, 5000)
  const V2 := Shares(2000, 3000)

  datatype Error =
    | InvalidSplitInput | BrokenConservation | InvalidProducer | InvalidFinalization | NotAscending
    | InvalidParticipant | DuplicateParticipant | CallFailed | BadFeeReturn | ZeroFee | CoordinatorShort

  datatype Split = Split(producer: int, each: int, allocation: int)

  datatype SplitResult = SplitOk(split: Split) | SplitErr(error: Error)

  /** Both versions of the split differ only in their shares. A missing fee is rejected like a negative one. */
  function SplitFee(shares: Shares, fee: int, participants: int): (r: SplitResult) {
    if fee < 0 || participants <= 0 then SplitErr(InvalidSplitInput)
    else
      var producer := fee * shares.producer / BPS_DENOMINATOR;
      var pool := fee * shares.participants / BPS_DENOMINATOR;
      var each := pool / participants;
      var allocation := fee - producer - each * participants;
      if allocation < 0 then SplitErr(BrokenConservation) else SplitOk(Split(producer, each, allocation))
  }

  lemma FloorShare(fee: nat, bps: nat)
    ensures fee * bps / BPS_DENOMINATOR * BPS_DENOMINATOR <= fee * bps < fee * bps / BPS_DENOMINATOR * BPS_DENOMINATOR + BPS_DENOMINATOR
  {
  }

  lemma EqualParts(pool: nat, count: nat)
    requires count > 0
    ensures 0 <= pool / count * count <= pool < pool / count * count + count
  {
    assert pool == pool / count * count + pool % count;
  }

  /** The producer gets its share of the fee, the participants theirs in equal parts, each rounded down. */
  ghost predicate SharedOut(fee: nat, split: Split, participants: nat, producerBps: nat, participantBps: nat) {
    var paid := split.each * participants;
    && split.producer * 10000 <= fee * producerBps < (split.producer + 1) * 10000
    && paid * 10000 <= fee * participantBps < (paid + participants) * 10000
  }

  /** On every valid fee both splits pay out exactly the fee: 30 and 50 percent in the first version, 20 and 30 in the
      second. The allocation gets at least its base share, and exceeds it by less than one unit per rounding. */
  lemma SplitPaysExactly(shares: Shares, fee: nat, participants: nat)
    requires participants > 0 && (shares == V1 || shares == V2)
    ensures var r := SplitFee(shares, fee, participants);
            var base := BPS_DENOMINATOR - shares.producer - shares.participants;
            && r.SplitOk?
            && r.split.producer >= 0 && r.split.each >= 0
            && r.split.producer + r.split.each * participants + r.split.allocation == fee
            && fee * base <= r.split.allocation * BPS_DENOMINATOR < fee * base + (participants + 1) * BPS_DENOMINATOR
            && r.split.producer <= fee && r.split.each <= fee && r.split.allocation <= fee
            && (shares == V1 ==> SharedOut(fee, r.split, participants, 3000, 5000))
            && (shares == V2 ==> SharedOut(fee, r.split, participants, 2000, 3000))
  {
    var producer := fee * shares.producer / BPS_DENOMINATOR;
    var pool := fee * shares.participants / BPS_DENOMINATOR;
    var paid := pool / participants * participants;
    FloorShare(fee, shares.producer);
    FloorShare(fee, shares.participants);
    EqualParts(pool, participants);
    assert pool / participants <= paid by { EqualsOrMore(pool / participants, participants); }
  }

  /** Nothing but a negative fee or no participant makes a split fail. */
  lemma SplitRefuses(shares: Shares, fee: int, participants: int)
    requires shares == V1 || shares == V2
    ensures SplitFee(shares, fee, participants).SplitErr? <==> fee < 0 || participants <= 0
    ensures SplitFee(shares, fee, participants).SplitErr? ==> SplitFee(shares, fee, participants).error == InvalidSplitInput
  {
    if fee >= 0 && participants > 0 { SplitPaysExactly(shares, fee, participants); }
  }

  lemma EqualsOrMore(each: nat, count: nat)
    requires count > 0
    ensures each <= each * count
  {
  }

  /** A consensus-selected finalization; hashes are numbers, zero is the empty one. */
  datatype Finalization = Finalization(
    requestId: nat, epoch: nat, round: nat, randomness: nat, proofHash: nat, participants: seq<Address>)

  datatype Outcome = Settled | Failed(error: Error)

  /** What the coordinator's system call did: whether it failed, the bytes it returned and the balances it left. */
  datatype CallResult = CallResult(failed: bool, returned: seq<Bytes.Byte>, balances: Balances)

  /** The call made for the finalization at an index, from the balances at that point. */
  type SystemCall = (nat, Balances) -> CallResult

  ghost predicate Preserves(call: SystemCall, index: nat, b: Balances) {
    Total(call(index, b).balances) == Total(b)
  }

  ghost predicate Distinct(xs: seq<Address>) {
    forall i, j | 0 <= i < j < |xs| :: xs[i] != xs[j]
  }

  /** The participants that pass: present, and each one only once. */
  ghost predicate Acceptable(participants: seq<Address>) {
    NO_ADDRESS !in participants && Distinct(participants)
  }

  /** The loop over a finalization's participants finds the first one that is absent or repeated. */
  method CheckParticipants(participants: seq<Address>) returns (r: Outcome)
    ensures r.Settled? <==> Acceptable(participants)
    ensures r.Failed? ==>
              exists k | 0 <= k < |participants| ::
                && Acceptable(participants[..k])
                && (participants[k] == NO_ADDRESS || participants[k] in participants[..k])
                && r.error == if participants[k] == NO_ADDRESS then InvalidParticipant else DuplicateParticipant
  {
    var seen: set<Address> := {};
    for k := 0 to |participants|
      invariant Acceptable(participants[..k])
      invariant forall a :: a in seen <==> a in participants[..k]
    {
      if participants[k] == NO_ADDRESS {
        return Failed(InvalidParticipant);
      }
      if participants[k] in seen {
        return Failed(DuplicateParticipant);
      }
      seen := seen + {participants[k]};
      assert participants[..k+1] == participants[..k] + [participants[k]];
    }
    assert participants[..|participants|] == participants;
    return Settled;
  }

  /** The parts of a finalization that must be present. */
  predicate WellFormed(v: Finalization) {
    && v.requestId != NO_ID && v.epoch != 0 && v.round != 0 && v.randomness != NO_ID && v.proofHash != NO_ID
    && 0 < |v.participants| <= MAX_PARTICIPANTS
  }

  /** What one account gains and loses when a split fee is paid out, whichever roles it plays. */
  function Change(a: Address, parties: Parties, participants: seq<Address>, fee: nat, split: Split): (delta: int) {
    (if a == parties.producer then split.producer else 0)
    + (if a in participants then split.each else 0)
    + (if a == parties.allocation then split.allocation else 0)
    - (if a == parties.coordinator then fee else 0)
  }

  /** The fixed parties of a settlement; nothing keeps them apart from each other or from participants. */
  datatype Parties = Parties(coordinator: Address, producer: Address, allocation: Address)

  ghost predicate PaidOut(b: Balances, after: Balances, parties: Parties, participants: seq<Address>, fee: nat, split: Split) {
    && Total(after) == Total(b)
    && forall a :: BalanceOf(after, a) == BalanceOf(b, a) + Change(a, parties, participants, fee, split)
  }

  /** One finalization settled: everything about it was in order, and its fee, no more than the
      coordinator held after the system call, was paid out by the split. */
  ghost predicate Settles(v: Finalization, shares: Shares, parties: Parties, called: CallResult, after: Balances) {
    && WellFormed(v) && Acceptable(v.participants)
    && !called.failed && |called.returned| == 32
    && var fee := Bytes.Decode(called.returned);
    && 0 < fee <= BalanceOf(called.balances, parties.coordinator)
    && SplitFee(shares, fee, |v.participants|).SplitOk?
    && PaidOut(called.balances, after, parties, v.participants, fee, SplitFee(shares, fee, |v.participants|).split)
  }

  /** The settlement of a value is refused with this error, given its predecessor's identifier. */
  ghost predicate Refused(v: Finalization, previous: seq<Finalization>, called: CallResult, coordinator: Address, e: Error) {
    if !WellFormed(v) then e == InvalidFinalization
    else if previous != [] && previous[|previous|-1].requestId >= v.requestId then e == NotAscending
    else if !Acceptable(v.participants) then e == InvalidParticipant || e == DuplicateParticipant
    else if called.failed then e == CallFailed
    else if |called.returned| != 32 then e == BadFeeReturn
    else if Bytes.Decode(called.returned) == 0 then e == ZeroFee
    else e == CoordinatorShort && BalanceOf(called.balances, coordinator) < Bytes.Decode(called.returned)
  }

  /** The checks before the system call pass, so it is made. */
  ghost predicate CallMade(v: Finalization, previous: seq<Finalization>) {
    && WellFormed(v) && Acceptable(v.participants)
    && (previous != [] ==> previous[|previous|-1].requestId < v.requestId)
  }

  /** A refusal leaves the balances as they were, or as the system call left them if that was made. */
  ghost predicate RefusedLeaving(
      v: Finalization, previous: seq<Finalization>, called: CallResult, coordinator: Address, e: Error, before: Balances, after: Balances)
  {
    && Refused(v, previous, called, coordinator, e)
    && after == if CallMade(v, previous) then called.balances else before
  }

  ghost predicate Ascending(values: seq<Finalization>) {
    forall i, j | 0 <= i < j < |values| :: values[i].requestId < values[j].requestId
  }

  /** Every listed account gained the amount, once for each time it is listed; nothing else changed. */
  ghost predicate Credited(b: Balances, after: Balances, accounts: seq<Address>, amount: nat) {
    && Total(after) == Total(b) + amount * |accounts|
    && forall a :: BalanceOf(after, a) == BalanceOf(b, a) + if a in accounts then amount else 0
  }

  lemma CreditedOneMore(b: Balances, mid: Balances, after: Balances, accounts: seq<Address>, last: Address, amount: nat)
    requires Credited(b, mid, accounts, amount) && last !in accounts && Gained(mid, after, last, amount)
    ensures Credited(b, after, accounts + [last], amount)
  {
    MulSplits(amount, |accounts|, 1);
    forall a ensures BalanceOf(after, a) == BalanceOf(b, a) + if a in accounts + [last] then amount else 0 {
      assert BalanceOf(after, a) == BalanceOf(mid, a) + if a == last then amount else 0;
    }
  }

  lemma GainOf(b: Balances, after: Balances, account: Address, amount: nat, a: Address)
    requires Gained(b, after, account, amount)
    ensures BalanceOf(after, a) == BalanceOf(b, a) + if a == account then amount else 0
  {
  }

  lemma LossOf(b: Balances, after: Balances, account: Address, amount: nat, a: Address)
    requires Lost(b, after, account, amount)
    ensures BalanceOf(after, a) == BalanceOf(b, a) - if a == account then amount else 0
  {
  }

  lemma CreditOf(b: Balances, after: Balances, accounts: seq<Address>, amount: nat, a: Address)
    requires Credited(b, after, accounts, amount)
    ensures BalanceOf(after, a) == BalanceOf(b, a) + if a in accounts then amount else 0
  {
  }

  /** The four movements of a settlement add up to its stated effect. */
  lemma PaidInSteps(
      b: Balances, debited: Balances, produced: Balances, shared: Balances, after: Balances,
      parties: Parties, participants: seq<Address>, fee: nat, split: Split)
    requires split.producer >= 0 && split.each >= 0 && split.allocation >= 0
    requires split.producer + split.each * |participants| + split.allocation == fee
    requires Lost(b, debited, parties.coordinator, fee)
    requires Gained(debited, produced, parties.producer, split.producer)
    requires Credited(produced, shared, participants, split.each)
    requires Gained(shared, after, parties.allocation, split.allocation)
    ensures PaidOut(b, after, parties, participants, fee, split)
  {
    forall a ensures BalanceOf(after, a) == BalanceOf(b, a) + Change(a, parties, participants, fee, split) {
      LossOf(b, debited, parties.coordinator, fee, a);
      GainOf(debited, produced, parties.producer, split.producer, a);
      CreditOf(produced, shared, participants, split.each, a);
      GainOf(shared, after, parties.allocation, split.allocation, a);
    }
  }

  /** The first values are settled, one state after another. */
  ghost predicate Progress(values: seq<Finalization>, shares: Shares, parties: Parties, call: SystemCall, states: seq<Balances>) {
    && 0 < |states| <= |values| + 1
    && Ascending(values[..|states|-1])
    && forall i | 0 <= i < |states| - 1 :: Settles(values[i], shares, parties, call(i, states[i]), states[i + 1])
  }

  /** The value after the settled ones is refused. */
  ghost predicate RefusedAt(
      values: seq<Finalization>, parties: Parties, call: SystemCall, states: seq<Balances>, after: Balances, e: Error)
  {
    && 0 < |states| <= |values|
    && var k := |states| - 1;
       RefusedLeaving(values[k], values[..k], call(k, states[k]), parties.coordinator, e, states[k], after)
  }

  lemma ProgressOneMore(
      values: seq<Finalization>, shares: Shares, parties: Parties, call: SystemCall, states: seq<Balances>, after: Balances)
    requires Progress(values, shares, parties, call, states) && |states| <= |values|
    requires var k := |states| - 1;
             && (k > 0 ==> values[k-1].requestId < values[k].requestId)
             && Settles(values[k], shares, parties, call(k, states[k]), after)
    ensures Progress(values, shares, parties, call, states + [after])
  {
    var k := |states| - 1;
    var more := states + [after];
    forall i, j | 0 <= i < j < k + 1 ensures values[i].requestId < values[j].requestId {
      if j == k && i < k - 1 { assert values[..k][i].requestId < values[..k][k-1].requestId; }
      if j < k { assert values[..k][i].requestId < values[..k][j].requestId; }
    }
    forall i | 0 <= i < k + 1 ensures Settles(values[i], shares, parties, call(i, more[i]), more[i + 1]) {
      assert more[i] == states[i];
      if i < k { assert more[i + 1] == states[i + 1]; }
    }
  }

  lemma PartOfWhole(amount: nat, k: nat, n: nat)
    requires k < n
    ensures amount * k + amount <= amount * n
  {
    MulSplits(amount, k, 1);
    MulSplits(amount, k + 1, n - k - 1);
  }

  lemma MulSplits(amount: nat, x: nat, y: nat)
    ensures amount * (x + y) == amount * x + amount * y && amount * y >= 0
  {
  }

  /** Credit the same amount to every listed account. */
  method CreditAll(db: StateDb, accounts: seq<Address>, amount: nat)
    requires Total(db.balances) + amount * |accounts| < WORD && Distinct(accounts)
    modifies db
    ensures Credited(old(db.balances), db.balances, accounts, amount)
  {
    for k := 0 to |accounts|
      invariant Credited(old(db.balances), db.balances, accounts[..k], amount)
    {
      PartOfWhole(amount, k, |accounts|);
      ghost var mid := db.balances;
      db.Add(accounts[k], amount);
      CreditedOneMore(old(db.balances), mid, db.balances, accounts[..k], accounts[k], amount);
      assert accounts[..k+1] == accounts[..k] + [accounts[k]];
    }
    assert accounts[..|accounts|] == accounts;
  }

  /** The debit and the credits of one settlement. Whatever roles coincide, every account ends with
      exactly its own gains and losses, and the sum of all balances stays. */
  method Pay(db: StateDb, parties: Parties, participants: seq<Address>, fee: nat, split: Split)
    requires Total(db.balances) < WORD && Distinct(participants)
    requires fee <= BalanceOf(db.balances, parties.coordinator)
    requires split.producer >= 0 && split.each >= 0 && split.allocation >= 0
    requires split.producer + split.each * |participants| + split.allocation == fee
    modifies db
    ensures PaidOut(old(db.balances), db.balances, parties, participants, fee, split)
  {
    BalanceBounded(db.balances, parties.coordinator);
    assert 0 <= split.each * |participants| <= fee;
    db.Sub(parties.coordinator, fee);
    ghost var debited := db.balances;
    if split.producer != 0 {
      db.Add(parties.producer, split.producer);
    }
    ghost var produced := db.balances;
    if split.each != 0 {
      CreditAll(db, participants, split.each);
    }
    ghost var shared := db.balances;
    if split.allocation != 0 {
      db.Add(parties.allocation, split.allocation);
    }
    PaidInSteps(old(db.balances), debited, produced, shared, db.balances, parties, participants, fee, split);
  }

  /** Settle what the system call returned for one well-formed finalization. */
  method SettleCall(db: StateDb, v: Finalization, shares: Shares, parties: Parties, called: CallResult) returns (r: Outcome)
    requires WellFormed(v) && Acceptable(v.participants)
    requires shares == V1 || shares == V2
    requires Total(called.balances) < WORD
    modifies db
    ensures r.Settled? ==> Settles(v, shares, parties, called, db.balances)
    ensures r.Failed? ==> db.balances == called.balances
    ensures r.Failed? ==>
              r.error == if called.failed then CallFailed
                         else if |called.returned| != 32 then BadFeeReturn
                         else if Bytes.Decode(called.returned) == 0 then ZeroFee
                         else CoordinatorShort
    ensures r == Failed(CoordinatorShort) ==> BalanceOf(called.balances, parties.coordinator) < Bytes.Decode(called.returned)
  {
    db.balances := called.balances;
    if called.failed {
      return Failed(CallFailed);
    }
    if |called.returned| != 32 {
      return Failed(BadFeeReturn);
    }
    var fee := Bytes.Decode(called.returned);
    if fee == 0 {
      return Failed(ZeroFee);
    }
    if BalanceOf(db.balances, parties.coordinator) < fee {
      return Failed(CoordinatorShort);
    }
    SplitPaysExactly(shares, fee, |v.participants|);
    var split := SplitFee(shares, fee, |v.participants|).split;
    Pay(db, parties, v.participants, fee, split);
    return Settled;
  }

  /** Check one finalization against its predecessor and settle it. */
  method SettleNext(db: StateDb, values: seq<Finalization>, k: nat, shares: Shares, parties: Parties, called: CallResult) returns (r: Outcome)
    requires k < |values|
    requires shares == V1 || shares == V2
    requires Total(called.balances) == Total(db.balances) < WORD
    modifies db
    ensures Total(db.balances) == old(Total(db.balances))
    ensures r.Settled? ==>
              && Settles(values[k], shares, parties, called, db.balances)
              && (k > 0 ==> values[k-1].requestId < values[k].requestId)
    ensures r.Failed? ==>
              RefusedLeaving(values[k], values[..k], called, parties.coordinator, r.error, old(db.balances), db.balances)
    ensures r.Failed? ==> r.error != InvalidProducer
    ensures var v := values[k];
            r == Failed(InvalidFinalization) <==>
              || v.requestId == 0 || v.epoch == 0 || v.round == 0 || v.randomness == 0 || v.proofHash == 0
              || v.participants == [] || |v.participants| > 128
  {
    var v := values[k];
    if !WellFormed(v) {
      return Failed(InvalidFinalization);
    }
    if k > 0 && values[k-1].requestId >= v.requestId {
      return Failed(NotAscending);
    }
    r := CheckParticipants(v.participants);
    if r.Failed? {
      return;
    }
    r := SettleCall(db, v, shares, parties, called);
  }

  /** Settle a block's finalizations in order. The sum of all balances never changes, on success or on
      failure. Success means every request was settled, each once; a failure names the first request
      that could not be, after the ones before it were. */
  method Process(db: StateDb, values: seq<Finalization>, shares: Shares, parties: Parties, call: SystemCall)
    returns (r: Outcome, ghost states: seq<Balances>)
    requires Total(db.balances) < WORD
    requires shares == V1 || shares == V2
    requires forall i, b :: Preserves(call, i, b)
    modifies db
    ensures Total(db.balances) == old(Total(db.balances))
    ensures values != [] && parties.producer == NO_ADDRESS <==> r == Failed(InvalidProducer)
    ensures Progress(values, shares, parties, call, states) && states[0] == old(db.balances)
    ensures r.Settled? ==> |states| == |values| + 1 && states[|values|] == db.balances && Ascending(values)
    ensures r == Failed(InvalidProducer) ==> |states| == 1 && db.balances == old(db.balances)
    ensures r.Failed? && r.error != InvalidProducer ==> RefusedAt(values, parties, call, states, db.balances, r.error)
  {
    if |values| > 0 && parties.producer == NO_ADDRESS {
      return Failed(InvalidProducer), [db.balances];
    }
    r, states := SettleAll(db, values, shares, parties, call);
  }

  /** The loop over the finalizations. */
  method SettleAll(db: StateDb, values: seq<Finalization>, shares: Shares, parties: Parties, call: SystemCall)
    returns (r: Outcome, ghost states: seq<Balances>)
    requires Total(db.balances) < WORD
    requires shares == V1 || shares == V2
    requires forall i, b :: Preserves(call, i, b)
    modifies db
    ensures Total(db.balances) == old(Total(db.balances))
    ensures r != Failed(InvalidProducer)
    ensures Progress(values, shares, parties, call, states) && states[0] == old(db.balances)
    ensures r.Settled? ==> |states| == |values| + 1 && states[|values|] == db.balances && Ascending(values)
    ensures r.Failed? ==> RefusedAt(values, parties, call, states, db.balances, r.error)
  {
    states := [db.balances];
    for k := 0 to |values|
      invariant |states| == k + 1 && states[0] == old(db.balances) && states[k] == db.balances
      invariant Total(db.balances) == old(Total(db.balances))
      invariant Progress(values, shares, parties, call, states)
    {
      assert Preserves(call, k, db.balances);
      r := SettleNext(db, values, k, shares, parties, call(k, db.balances));
      if r.Failed? {
        return r, states;
      }
      ProgressOneMore(values, shares, parties, call, states, db.balances);
      states := states + [db.balances];
    }
    assert values[..|values|] == values;
    return Settled, states;
  }
}
