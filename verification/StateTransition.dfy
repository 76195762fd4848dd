/** One message applied to the state: buy gas, run the top frame, settle and pay. */
module StateTransition {
  import opened Basics
  import opened Ledger
  import opened GasBudgets
  import opened GasPools

  const MAX_TX_GAS: nat := 0x100_0000
  const BLOB_GAS: nat := 0x2_0000
  const REFUND_QUOTIENT: nat := 5

  /** A transaction's fields that gas and balances depend on. */
  datatype Message = Message(
    from: Address, gasLimit: nat, feeCap: nat, tipCap: nat, value: nat, blobs: nat, blobFeeCap: nat)

  /** The forks in force; London always is. */
  datatype Rules = Rules(cancun: bool, prague: bool, osaka: bool, amsterdam: bool)

  datatype Context = Context(coinbase: Address, baseFee: nat, blobBaseFee: nat)

  /** What the top frame does: how it handles gas and leaves, how it moves balances, and the refund counter it ends with. */
  datatype Frame = Frame(ops: seq<Op>, exit: Exit, effect: Balances -> Balances, refund: nat)

  datatype Failure =
    | GasLimitTooHigh | TipAboveFeeCap | FeeCapTooLow | BlobFeeCapTooLow | PoolRefused(error: GasPools.Error)
    | CostTooBig | InvalidBlobBaseFee | InsufficientFunds | IntrinsicGas | FloorDataGas | InsufficientForTransfer
    | NegativeStateGas | NegativeRegularGas | InvalidBaseFee

  datatype Result<T> = Done(result: T) | Rejected(failure: Failure)

  /** A message's numbers fit the machine words they are kept in. */
  ghost predicate Fits(m: Message) {
    && m.gasLimit < U64 && m.blobs * BLOB_GAS < U64
    && m.feeCap < WORD && m.tipCap < WORD && m.value < WORD && m.blobFeeCap < WORD
  }

  /** The price a transaction pays per gas. */
  function Price(m: Message, baseFee: nat): (p: nat)
    ensures p <= m.feeCap && p <= baseFee + m.tipCap && (p == m.feeCap || p == baseFee + m.tipCap)
    ensures baseFee <= m.feeCap ==> baseFee <= p
  {
    var effective := baseFee + m.tipCap;
    if effective > m.feeCap then m.feeCap else effective
  }

  function BlobGas(m: Message): (n: nat) {
    m.blobs * BLOB_GAS
  }

  function BlobFee(m: Message, rules: Rules, context: Context): (n: nat) {
    if rules.cancun then BlobGas(m) * context.blobBaseFee else 0
  }

  /** What is debited up front. */
  function Prepaid(m: Message, rules: Rules, context: Context): (n: nat) {
    m.gasLimit * Price(m, context.baseFee) + BlobFee(m, rules, context)
  }

  /** What the sender may need at worst, and must hold. */
  function WorstCase(m: Message, rules: Rules): (n: nat) {
    m.gasLimit * m.feeCap + m.value + if rules.cancun then BlobGas(m) * m.blobFeeCap else 0
  }

  /** What a message that used this gas takes out of circulation. */
  function Burnt(m: Message, rules: Rules, context: Context, gasUsed: nat): (n: nat) {
    gasUsed * context.baseFee + BlobFee(m, rules, context)
  }

  lemma MulMonotone(a: nat, b: nat, c: nat)
    requires b <= c
    ensures a * b <= a * c
  {
  }

  lemma MulPositive(a: nat, b: nat)
    ensures a * b >= 0
  {
  }

  /** The fee checks a message has passed make its caps bound its prices. */
  ghost predicate FeesOk(m: Message, rules: Rules, context: Context) {
    && m.tipCap <= m.feeCap && context.baseFee <= m.feeCap
    && (rules.cancun && BlobGas(m) > 0 ==> context.blobBaseFee <= m.blobFeeCap)
  }

  /** After the up-front debit, what is left of the worst case covers the value. */
  lemma WorstCaseCovers(m: Message, rules: Rules, context: Context)
    requires FeesOk(m, rules, context)
    ensures Prepaid(m, rules, context) + m.value <= WorstCase(m, rules)
  {
    MulMonotone(m.gasLimit, Price(m, context.baseFee), m.feeCap);
    if rules.cancun && BlobGas(m) > 0 {
      MulMonotone(BlobGas(m), context.blobBaseFee, m.blobFeeCap);
    }
  }

  /** The prepaid gas is exactly what is returned, paid as a tip and burnt. */
  lemma PrepaidSplits(limit: nat, left: nat, used: nat, price: nat, baseFee: nat)
    requires left + used == limit && baseFee <= price
    ensures limit * price == left * price + used * (price - baseFee) + used * baseFee
    ensures left * price >= 0 && used * (price - baseFee) >= 0 && used * baseFee >= 0
  {
    assert limit * price == left * price + used * price;
    assert used * price == used * (price - baseFee) + used * baseFee;
  }

  /** A message without blob charges has no blob terms. */
  lemma NoBlobs(m: Message, rules: Rules, context: Context)
    requires !rules.cancun || BlobGas(m) == 0
    ensures BlobFee(m, rules, context) == 0 && WorstCase(m, rules) == m.gasLimit * m.feeCap + m.value
  {
  }

  /** The overflow checks of the gas purchase, on the products it adds up: the debit and the required
      balance. The products of the base fees are no larger than those of the caps. */
  method CheckedSums(gasCost: nat, gasRequired: nat, value: nat, blobs: bool, blobCost: nat, blobRequired: nat, blobBaseFee: nat)
    returns (r: Result<(nat, nat)>)
    requires gasCost <= gasRequired && blobCost <= blobRequired && blobBaseFee < WORD
    requires !blobs ==> blobRequired == 0
    ensures r.Done? <==> gasRequired + value + blobRequired < WORD
    ensures r.Done? ==> r.result == (gasCost + blobCost, gasRequired + value + blobRequired)
    ensures r.Rejected? ==> r.failure == CostTooBig
  {
    if gasCost >= WORD || gasRequired >= WORD {
      return Rejected(CostTooBig);
    }
    var cost, required := gasCost, gasRequired + value;
    if required >= WORD {
      return Rejected(CostTooBig);
    }
    if blobs {
      if blobRequired >= WORD || required + blobRequired >= WORD {
        return Rejected(CostTooBig);
      }
      required := required + blobRequired;
      if blobBaseFee >= WORD {
        return Rejected(InvalidBlobBaseFee);
      }
      if blobCost >= WORD || cost + blobCost >= WORD {
        return Rejected(CostTooBig);
      }
      cost := cost + blobCost;
    }
    return Done((cost, required));
  }

  method Quote(m: Message, rules: Rules, context: Context) returns (r: Result<(nat, nat)>)
    requires Fits(m) && FeesOk(m, rules, context)
    ensures r.Done? <==> WorstCase(m, rules) < WORD
    ensures r.Done? ==> r.result == (Prepaid(m, rules, context), WorstCase(m, rules))
    ensures r.Rejected? ==> r.failure == CostTooBig
  {
    var gasCost, gasRequired := m.gasLimit * Price(m, context.baseFee), m.gasLimit * m.feeCap;
    MulMonotone(m.gasLimit, Price(m, context.baseFee), m.feeCap);
    if rules.cancun && BlobGas(m) > 0 {
      var blobCost, blobRequired := BlobGas(m) * context.blobBaseFee, BlobGas(m) * m.blobFeeCap;
      MulMonotone(BlobGas(m), context.blobBaseFee, m.blobFeeCap);
      r := CheckedSums(gasCost, gasRequired, m.value, true, blobCost, blobRequired, context.blobBaseFee);
    } else {
      NoBlobs(m, rules, context);
      r := CheckedSums(gasCost, gasRequired, m.value, false, 0, 0, 0);
    }
  }

  /** Charge for the gas limit up front. It succeeds exactly when the sender holds the worst case. */
  method BuyGas(db: StateDb, m: Message, rules: Rules, context: Context) returns (r: Result<()>)
    requires Fits(m) && FeesOk(m, rules, context) && Total(db.balances) < WORD
    modifies db
    ensures r.Done? <==> WorstCase(m, rules) <= old(BalanceOf(db.balances, m.from))
    ensures r.Done? ==>
              && Lost(old(db.balances), db.balances, m.from, Prepaid(m, rules, context))
              && m.value <= BalanceOf(db.balances, m.from)
    ensures r.Rejected? ==>
              && db.balances == old(db.balances)
              && r.failure == if WorstCase(m, rules) >= WORD then CostTooBig else InsufficientFunds
  {
    BalanceBounded(db.balances, m.from);
    WorstCaseCovers(m, rules, context);
    var quote := Quote(m, rules, context);
    if quote.Rejected? {
      return Rejected(quote.failure);
    }
    var (cost, required) := quote.result;
    if BalanceOf(db.balances, m.from) < required {
      return Rejected(InsufficientFunds);
    }
    db.Sub(m.from, cost);
    return Done(());
  }

  /** The pool as it is between messages. */
  ghost predicate PoolOk(p: Pool, rules: Rules) {
    if rules.amsterdam then TwoDimensional(p) else Legacy(p)
  }

  /** The pool has room for the message. */
  ghost predicate Room(p: Pool, m: Message, rules: Rules) {
    if rules.amsterdam
    then p.cumulativeRegular + Min(m.gasLimit, MAX_TX_GAS) <= p.initial && p.cumulativeState + m.gasLimit <= p.initial
    else m.gasLimit <= p.remaining
  }

  /** The pool while the message runs. */
  ghost function Reserved(p: Pool, m: Message, rules: Rules): (q: Pool)
    requires Room(p, m, rules)
  {
    if rules.amsterdam then p else p.(remaining := p.remaining - m.gasLimit)
  }

  /** Reserve room in the block. */
  method Reserve(pool: GasPool, m: Message, rules: Rules) returns (r: Outcome)
    requires PoolOk(pool.Contents(), rules)
    modifies pool
    ensures r.Ok? <==> Room(old(pool.Contents()), m, rules)
    ensures r.Ok? ==> pool.Contents() == Reserved(old(pool.Contents()), m, rules)
    ensures r.Failed? ==> r.error == GasLimitReached
  {
    if rules.amsterdam {
      r := pool.CheckGasAmsterdam(Min(m.gasLimit, MAX_TX_GAS), m.gasLimit);
    } else {
      r := pool.CheckGasLegacy(m.gasLimit);
    }
  }

  /** Everything the message must meet before it runs. */
  ghost predicate Admissible(m: Message, rules: Rules, context: Context, p: Pool, balance: nat) {
    && (rules.osaka && !rules.amsterdam ==> m.gasLimit <= 0x100_0000)
    && FeesOk(m, rules, context) && Room(p, m, rules) && WorstCase(m, rules) <= balance
  }

  /** A message rejected before it runs deserves the failure. */
  ghost predicate Deserves(f: Failure, m: Message, rules: Rules, context: Context, p: Pool, balance: nat) {
    match f
    case GasLimitTooHigh => rules.osaka && !rules.amsterdam && m.gasLimit > 0x100_0000
    case TipAboveFeeCap => m.feeCap < m.tipCap
    case FeeCapTooLow => m.feeCap < context.baseFee
    case BlobFeeCapTooLow => rules.cancun && m.blobs > 0 && m.blobFeeCap < context.blobBaseFee
    case PoolRefused(error) => error == GasLimitReached && !Room(p, m, rules)
    case CostTooBig => WorstCase(m, rules) >= WORD
    case InsufficientFunds => balance < WorstCase(m, rules) < WORD
    case _ => false
  }

  /** The checks before a message runs, ending with the gas purchase. */
  method PreCheck(db: StateDb, pool: GasPool, m: Message, rules: Rules, context: Context) returns (r: Result<()>)
    requires Fits(m) && Total(db.balances) < WORD && PoolOk(pool.Contents(), rules)
    modifies db, pool
    ensures r.Done? <==> Admissible(m, rules, context, old(pool.Contents()), old(BalanceOf(db.balances, m.from)))
    ensures r.Done? ==>
              && pool.Contents() == Reserved(old(pool.Contents()), m, rules)
              && Lost(old(db.balances), db.balances, m.from, Prepaid(m, rules, context))
              && m.value <= BalanceOf(db.balances, m.from)
    ensures r.Rejected? ==> Deserves(r.failure, m, rules, context, old(pool.Contents()), old(BalanceOf(db.balances, m.from)))
  {
    if !rules.amsterdam && rules.osaka && m.gasLimit > MAX_TX_GAS {
      return Rejected(GasLimitTooHigh);
    }
    if m.feeCap < m.tipCap {
      return Rejected(TipAboveFeeCap);
    }
    if m.feeCap < context.baseFee {
      return Rejected(FeeCapTooLow);
    }
    if rules.cancun && BlobGas(m) > 0 && m.blobFeeCap < context.blobBaseFee {
      return Rejected(BlobFeeCapTooLow);
    }
    var reserved := Reserve(pool, m, rules);
    if reserved.Failed? {
      return Rejected(PoolRefused(reserved.error));
    }
    r := BuyGas(db, m, rules, context);
  }

  /** The gas that runs the top frame: what is left after the intrinsic cost, with the regular part capped. */
  function InitialBudget(m: Message, rules: Rules, intrinsic: nat): (g: Budget)
    requires intrinsic <= m.gasLimit && (rules.amsterdam ==> intrinsic <= MAX_TX_GAS)
    ensures g.regular >= 0 && g.state >= 0 && g.regular + g.state + intrinsic == m.gasLimit
    ensures rules.amsterdam ==> g.regular + intrinsic <= MAX_TX_GAS && (g.state > 0 ==> g.regular + intrinsic == MAX_TX_GAS)
    ensures !rules.amsterdam ==> g.state == 0
    ensures g.usedRegular == 0 && g.usedState == 0 && g.spilled == 0
  {
    var execution := m.gasLimit - intrinsic;
    var left := if rules.amsterdam then Min(MAX_TX_GAS - intrinsic, execution) else execution;
    Fresh(left, execution - left)
  }

  /** The budget the message is left with when its top frame is done. */
  function FinalBudget(m: Message, rules: Rules, intrinsic: nat, frame: Frame): (g: Budget)
    requires intrinsic <= m.gasLimit && (rules.amsterdam ==> intrinsic <= MAX_TX_GAS)
  {
    RunFrame(InitialBudget(m, rules, intrinsic), frame.ops, frame.exit)
  }

  /** What is true of that budget whatever the frame did. */
  lemma BudgetLeft(m: Message, rules: Rules, intrinsic: nat, frame: Frame)
    requires intrinsic <= m.gasLimit && (rules.amsterdam ==> intrinsic <= MAX_TX_GAS)
    ensures var g := FinalBudget(m, rules, intrinsic, frame);
            && Unsigned(g)
            && g.regular + g.state + g.usedRegular + g.usedState + intrinsic == m.gasLimit
            && (rules.amsterdam ==> g.usedRegular + intrinsic <= MAX_TX_GAS)
  {
    var start := InitialBudget(m, rules, intrinsic);
    FrameContract(start.regular, start.state, frame.ops, frame.exit);
    RunKeeps(start, frame.ops);
  }

  /** The figures of a settled message. */
  datatype Usage = Usage(used: nat, left: nat, peak: nat, regular: nat, state: nat)

  function CalcRefund(usedBefore: nat, counter: nat): (n: nat)
    ensures n <= counter && 5 * n <= usedBefore
    ensures n < counter ==> usedBefore < 5 * (n + 1)
  {
    Min(usedBefore / REFUND_QUOTIENT, counter)
  }

  /** The receipt's gas is what was used, less a refund of at most a fifth, but at least the floor. The block is charged
      the state gas, and the regular gas or the floor. */
  ghost predicate Figures(m: Message, g: Budget, intrinsic: nat, floor: nat, counter: nat, u: Usage) {
    var before := m.gasLimit - g.regular - g.state;
    && before >= 0 && g.usedRegular >= 0
    && u.used + u.left == m.gasLimit
    && u.used == Max(before - CalcRefund(before, counter), floor)
    && u.peak == Max(before, floor)
    && u.state == g.usedState
    && u.regular == Max(intrinsic + g.usedRegular, floor)
    && u.used <= u.regular + u.state
  }

  /** The gas arithmetic of a settlement: refund, calldata floor and the two block-level figures.
      Only a frame that refunded more state gas than it used makes it fail. */
  method Settle(m: Message, rules: Rules, g: Budget, intrinsic: nat, floor: nat, counter: nat) returns (r: Result<Usage>)
    requires Unsigned(g) && g.regular + g.state + g.usedRegular + g.usedState + intrinsic == m.gasLimit
    requires floor <= m.gasLimit && (!rules.prague ==> floor == 0)
    ensures r == Rejected(NegativeStateGas) <==> g.usedState < 0
    ensures r.Done? <==> g.usedState >= 0
    ensures r.Done? ==> Figures(m, g, intrinsic, floor, counter, r.result)
  {
    if g.usedState < 0 {
      return Rejected(NegativeStateGas);
    }
    var left := g.regular + g.state;
    var before := m.gasLimit - left;
    if before < g.usedState {
      return Rejected(NegativeRegularGas);
    }
    var regular := Max(before - g.usedState, floor);
    var refund := CalcRefund(before, counter);
    left := left + refund;
    var used, peak := before - refund, before;
    if rules.prague && used < floor {
      left := left - (floor - used);
      used := floor;
      peak := Max(peak, floor);
    }
    return Done(Usage(used, left, peak, regular, g.usedState));
  }

  /** The pool after a message: exactly the gas it used is gone, in the figures its scheme keeps. */
  ghost predicate Charged(p: Pool, q: Pool, rules: Rules, u: Usage) {
    && PoolOk(q, rules) && q.initial == p.initial
    && q.cumulativeUsed == p.cumulativeUsed + u.used
    && (rules.amsterdam ==>
          && q.cumulativeRegular == p.cumulativeRegular + u.regular
          && q.cumulativeState == p.cumulativeState + u.state)
    && (!rules.amsterdam ==> q.remaining == p.remaining - u.used)
  }

  /** Charge the pool at settlement. A message that had room cannot fail here. */
  method ChargePool(pool: GasPool, m: Message, rules: Rules, u: Usage, ghost before: Pool) returns (r: Result<Usage>)
    requires Fits(m) && PoolOk(before, rules) && Room(before, m, rules) && pool.Contents() == Reserved(before, m, rules)
    requires u.used + u.left == m.gasLimit && u.used <= u.regular + u.state
    requires rules.amsterdam ==> u.regular <= Min(m.gasLimit, MAX_TX_GAS) && u.state <= m.gasLimit
    modifies pool
    ensures r == Done(u)
    ensures Charged(before, pool.Contents(), rules, u)
  {
    var charged;
    if rules.amsterdam {
      charged := pool.ChargeGasAmsterdam(u.regular, u.state, u.used);
    } else {
      charged := pool.ChargeGasLegacy(u.left, u.used);
    }
    match charged
    case Ok => return Done(u);
    case Failed(error) => return Rejected(PoolRefused(error));
  }

  /** A 256-bit product. */
  function Product(a: nat, b: nat): (n: nat)
    ensures a * b < WORD ==> n == a * b
  {
    a * b % WORD
  }

  /** Two credits to accounts that may be the same one. */
  ghost predicate Repaid(b: Balances, after: Balances, from: Address, back: nat, coinbase: Address, tip: nat) {
    && Total(after) == Total(b) + back + tip
    && forall a :: BalanceOf(after, a) == BalanceOf(b, a) + (if a == from then back else 0) + (if a == coinbase then tip else 0)
  }

  lemma RepaidInSteps(b: Balances, mid: Balances, after: Balances, from: Address, back: nat, coinbase: Address, tip: nat)
    requires Gained(b, mid, from, back) && Gained(mid, after, coinbase, tip)
    ensures Repaid(b, after, from, back, coinbase, tip)
  {
  }

  /** Return the unused gas to the sender and pay the coinbase its tip. No 256-bit step wraps. */
  method PayOut(db: StateDb, from: Address, coinbase: Address, u: Usage, price: nat, baseFee: nat) returns (r: Result<Usage>)
    requires baseFee <= price < WORD
    requires Total(db.balances) + (u.left + u.used) * price < WORD
    modifies db
    ensures r == Done(u)
    ensures Repaid(old(db.balances), db.balances, from, u.left * price, coinbase, u.used * (price - baseFee))
  {
    PrepaidSplits(u.left + u.used, u.left, u.used, price, baseFee);
    ghost var start := db.balances;
    if u.left > 0 {
      db.Add(from, Product(u.left, price));
    }
    assert Gained(start, db.balances, from, u.left * price);
    if baseFee >= WORD {
      return Rejected(InvalidBaseFee);
    }
    ghost var mid := db.balances;
    db.Add(coinbase, Product(u.used, price - baseFee));
    RepaidInSteps(start, mid, db.balances, from, u.left * price, coinbase, u.used * (price - baseFee));
    return Done(u);
  }

  /** The frame moves balances around; it neither makes nor destroys any. */
  ghost predicate KeepsTotal(frame: Frame) {
    forall b: Balances :: Total(frame.effect(b)) == Total(b)
  }

  /** The intrinsic cost and the calldata floor fit the gas limit and, under Amsterdam, the cap on regular gas. */
  predicate Covered(m: Message, rules: Rules, intrinsic: nat, floor: nat) {
    intrinsic <= m.gasLimit && floor <= m.gasLimit && (rules.amsterdam ==> Max(intrinsic, floor) <= MAX_TX_GAS)
  }

  /** How a message changes balances: the prepaid amount leaves the sender, the frame runs, and the unused
      gas and the tip come back. */
  ghost predicate Moves(
      b: Balances, entered: Balances, after: Balances, m: Message, rules: Rules, context: Context, frame: Frame, u: Usage)
    requires FeesOk(m, rules, context)
  {
    var price := Price(m, context.baseFee);
    && Lost(b, entered, m.from, Prepaid(m, rules, context)) && m.value <= BalanceOf(entered, m.from)
    && Repaid(frame.effect(entered), after, m.from, u.left * price, context.coinbase, u.used * (price - context.baseFee))
  }

  /** What a message takes out of circulation is exactly the base fee on the gas it used and its blob fee. */
  lemma SupplyFalls(
      b: Balances, entered: Balances, after: Balances, m: Message, rules: Rules, context: Context, frame: Frame, u: Usage)
    requires FeesOk(m, rules, context) && KeepsTotal(frame)
    requires Moves(b, entered, after, m, rules, context, frame, u) && u.used + u.left == m.gasLimit
    ensures Total(after) == Total(b) - Burnt(m, rules, context, u.used)
  {
    PrepaidSplits(m.gasLimit, u.left, u.used, Price(m, context.baseFee), context.baseFee);
  }

  /** The frame leaves the sum as it is, so the prepaid gas can be paid back without wrapping. */
  lemma RoomToRepay(b: Balances, entered: Balances, m: Message, rules: Rules, context: Context, frame: Frame)
    requires Total(b) < WORD && KeepsTotal(frame) && Lost(b, entered, m.from, Prepaid(m, rules, context))
    ensures Total(frame.effect(entered)) + m.gasLimit * Price(m, context.baseFee) < WORD
  {
    MulPositive(BlobGas(m), context.blobBaseFee);
  }

  /** The settled figures of a message that was let in fit the room it reserved. */
  lemma UsageFits(m: Message, rules: Rules, intrinsic: nat, floor: nat, frame: Frame, u: Usage)
    requires Covered(m, rules, intrinsic, floor)
    requires var g := FinalBudget(m, rules, intrinsic, frame);
             g.usedRegular >= 0 && g.usedState >= 0 && u.state == g.usedState && u.regular == Max(intrinsic + g.usedRegular, floor)
    ensures u.state <= m.gasLimit && u.regular <= m.gasLimit && (rules.amsterdam ==> u.regular <= MAX_TX_GAS)
  {
    BudgetLeft(m, rules, intrinsic, frame);
  }

  /** A message is accepted exactly when it is admissible, its fixed costs are covered and its frame did not refund
      more state gas than it used. */
  ghost predicate Accepts(
      m: Message, rules: Rules, context: Context, intrinsic: nat, floor: nat, frame: Frame, p: Pool, b: Balances)
  {
    && Admissible(m, rules, context, p, BalanceOf(b, m.from))
    && Covered(m, rules, intrinsic, floor)
    && FinalBudget(m, rules, intrinsic, frame).usedState >= 0
  }

  /** Run the top frame of a message that passed its checks, settle its gas and pay. */
  method RunAndSettle(
      db: StateDb, pool: GasPool, m: Message, rules: Rules, context: Context, intrinsic: nat, floor: nat, frame: Frame,
      ghost before: Pool, ghost start: Balances)
    returns (r: Result<Usage>)
    requires Fits(m) && FeesOk(m, rules, context) && Covered(m, rules, intrinsic, floor) && (!rules.prague ==> floor == 0)
    requires Total(start) < WORD && KeepsTotal(frame)
    requires Lost(start, db.balances, m.from, Prepaid(m, rules, context)) && m.value <= BalanceOf(db.balances, m.from)
    requires PoolOk(before, rules) && Room(before, m, rules) && pool.Contents() == Reserved(before, m, rules)
    modifies db, pool
    ensures r.Done? <==> FinalBudget(m, rules, intrinsic, frame).usedState >= 0
    ensures r.Rejected? ==> r.failure == NegativeStateGas
    ensures r.Done? ==>
              && Figures(m, FinalBudget(m, rules, intrinsic, frame), intrinsic, floor, frame.refund, r.result)
              && Moves(start, old(db.balances), db.balances, m, rules, context, frame, r.result)
              && Charged(before, pool.Contents(), rules, r.result)
  {
    BudgetLeft(m, rules, intrinsic, frame);
    RoomToRepay(start, db.balances, m, rules, context, frame);
    db.balances := frame.effect(db.balances);
    r := Settle(m, rules, FinalBudget(m, rules, intrinsic, frame), intrinsic, floor, frame.refund);
    if r.Rejected? {
      return;
    }
    UsageFits(m, rules, intrinsic, floor, frame, r.result);
    r := ChargePool(pool, m, rules, r.result, before);
    if r.Rejected? {
      return;
    }
    r := PayOut(db, m.from, context.coinbase, r.result, Price(m, context.baseFee), context.baseFee);
  }

  /** Apply one message. The result says when it is accepted; an accepted message moves balances as stated and
      charges the pool with what it used. The transfer check, the base fee check, the second settlement check and
      the pool's refusal at settlement are never the reason of a rejection. */
  method Execute(
      db: StateDb, pool: GasPool, m: Message, rules: Rules, context: Context, intrinsic: nat, floorCost: nat, frame: Frame)
    returns (r: Result<Usage>, ghost entered: Balances)
    requires Fits(m) && Total(db.balances) < WORD && PoolOk(pool.Contents(), rules) && KeepsTotal(frame)
    modifies db, pool
    ensures r.Done? <==>
              var floor := if rules.prague then floorCost else 0;
              Accepts(m, rules, context, intrinsic, floor, frame, old(pool.Contents()), old(db.balances))
    ensures r.Done? ==>
              && FeesOk(m, rules, context)
              && Figures(m, FinalBudget(m, rules, intrinsic, frame), intrinsic, if rules.prague then floorCost else 0,
                         frame.refund, r.result)
              && Moves(old(db.balances), entered, db.balances, m, rules, context, frame, r.result)
              && Charged(old(pool.Contents()), pool.Contents(), rules, r.result)
              && Price(m, context.baseFee) - context.baseFee <= m.tipCap
              && Total(db.balances) == old(Total(db.balances)) - r.result.used * context.baseFee
                                       - if rules.cancun then m.blobs * 0x2_0000 * context.blobBaseFee else 0
    ensures r.Rejected? ==>
              var floor := if rules.prague then floorCost else 0;
              match r.failure
              case IntrinsicGas => m.gasLimit < intrinsic
              case FloorDataGas => m.gasLimit < floor || (rules.amsterdam && Max(intrinsic, floor) > 0x100_0000)
              case NegativeStateGas =>
                Covered(m, rules, intrinsic, floor) && FinalBudget(m, rules, intrinsic, frame).usedState < 0
              case _ => Deserves(r.failure, m, rules, context, old(pool.Contents()), old(BalanceOf(db.balances, m.from)))
  {
    entered := db.balances;
    ghost var before := pool.Contents();
    var checked := PreCheck(db, pool, m, rules, context);
    if checked.Rejected? {
      return Rejected(checked.failure), entered;
    }
    entered := db.balances;
    if m.gasLimit < intrinsic {
      return Rejected(IntrinsicGas), entered;
    }
    var floor := if rules.prague then floorCost else 0;
    if rules.prague && m.gasLimit < floor {
      return Rejected(FloorDataGas), entered;
    }
    if rules.amsterdam && Max(intrinsic, floor) > MAX_TX_GAS {
      return Rejected(FloorDataGas), entered;
    }
    if m.value != 0 && BalanceOf(db.balances, m.from) < m.value {
      return Rejected(InsufficientForTransfer), entered;
    }
    r := RunAndSettle(db, pool, m, rules, context, intrinsic, floor, frame, before, old(db.balances));
    if r.Done? {
      SupplyFalls(old(db.balances), entered, db.balances, m, rules, context, frame, r.result);
    }
  }

  /** A transaction offered to a block, with its costs and what its frame would do. */
  datatype Job = Job(message: Message, intrinsic: nat, floorCost: nat, frame: Frame)

  ghost predicate JobOk(job: Job) {
    Fits(job.message) && KeepsTotal(job.frame)
  }

  ghost predicate AcceptsJob(job: Job, rules: Rules, context: Context, p: Pool, b: Balances) {
    var floor := JobFloor(job, rules);
    Accepts(job.message, rules, context, job.intrinsic, floor, job.frame, p, b)
  }

  /** What one transaction at its turn does: accepted exactly when it may be, with its figures, its movements of
      balances and its charge to the pool; rejected, it changes nothing. */
  ghost predicate Turn(job: Job, rules: Rules, context: Context, r: Result<Usage>, p: Pool, b: Balances, q: Pool, after: Balances) {
    && (r.Done? <==> AcceptsJob(job, rules, context, p, b))
    && (r.Rejected? ==> q == p && after == b)
    && (r.Done? ==> AppliedAs(job, rules, context, r.result, p, b, q, after))
  }

  ghost predicate AppliedAs(job: Job, rules: Rules, context: Context, u: Usage, p: Pool, b: Balances, q: Pool, after: Balances) {
    var m := job.message;
    && FeesOk(m, rules, context) && Charged(p, q, rules, u)
    && Covered(m, rules, job.intrinsic, JobFloor(job, rules))
    && Figures(m, FinalBudget(m, rules, job.intrinsic, job.frame), job.intrinsic, JobFloor(job, rules), job.frame.refund, u)
    && Total(after) == Total(b) - Burnt(m, rules, context, u.used)
    && exists entered :: Moves(b, entered, after, m, rules, context, job.frame, u)
  }

  function JobFloor(job: Job, rules: Rules): (n: nat) {
    if rules.prague then job.floorCost else 0
  }

  /** The gas of a result, in the three figures the pool keeps. */
  datatype Gas = Gas(used: nat, regular: nat, state: nat)

  function GasOf(r: Result<Usage>): (g: Gas) {
    if r.Done? then Gas(r.result.used, r.result.regular, r.result.state) else Gas(0, 0, 0)
  }

  function SumGas(results: seq<Result<Usage>>): (g: Gas) {
    if results == [] then Gas(0, 0, 0)
    else
      var before, last := SumGas(results[..|results|-1]), GasOf(results[|results|-1]);
      Gas(before.used + last.used, before.regular + last.regular, before.state + last.state)
  }

  function BurntBy(job: Job, r: Result<Usage>, rules: Rules, context: Context): (n: nat) {
    if r.Done? then Burnt(job.message, rules, context, r.result.used) else 0
  }

  function SumBurnt(jobs: seq<Job>, results: seq<Result<Usage>>, rules: Rules, context: Context): (n: nat)
    requires |results| <= |jobs|
  {
    if results == [] then 0
    else
      var last := |results| - 1;
      SumBurnt(jobs, results[..last], rules, context) + BurntBy(jobs[last], results[last], rules, context)
  }

  /** The pool and the supply after some results, from a start. */
  ghost predicate Accounted(
      start: Pool, total: nat, p: Pool, b: Balances, jobs: seq<Job>, results: seq<Result<Usage>>, rules: Rules, context: Context)
    requires |results| <= |jobs|
  {
    var g := SumGas(results);
    && PoolOk(p, rules) && p.initial == start.initial
    && p.cumulativeUsed == start.cumulativeUsed + g.used
    && (rules.amsterdam ==>
          p.cumulativeRegular == start.cumulativeRegular + g.regular && p.cumulativeState == start.cumulativeState + g.state)
    && Total(b) == total - SumBurnt(jobs, results, rules, context)
  }

  lemma AccountedOneMore(
      start: Pool, total: nat, p: Pool, b: Balances, q: Pool, after: Balances,
      jobs: seq<Job>, results: seq<Result<Usage>>, r: Result<Usage>, rules: Rules, context: Context)
    requires |results| < |jobs| && Accounted(start, total, p, b, jobs, results, rules, context)
    requires Turn(jobs[|results|], rules, context, r, p, b, q, after)
    ensures Accounted(start, total, q, after, jobs, results + [r], rules, context)
  {
    assert (results + [r])[..|results|] == results;
  }

  /** Apply a transaction, or leave the state and the pool as they were. */
  method ApplyTransaction(db: StateDb, pool: GasPool, job: Job, rules: Rules, context: Context) returns (r: Result<Usage>)
    requires JobOk(job) && Total(db.balances) < WORD && PoolOk(pool.Contents(), rules)
    modifies db, pool
    ensures Turn(job, rules, context, r, old(pool.Contents()), old(db.balances), pool.Contents(), db.balances)
  {
    var state, gas := db.balances, pool.Contents();
    ghost var entered;
    r, entered := Execute(db, pool, job.message, rules, context, job.intrinsic, job.floorCost, job.frame);
    if r.Rejected? {
      db.balances := state;
      pool.Set(gas);
    }
  }

  /** Over any sequence of transactions, accepted or not, the pool accounts for exactly the gas of the accepted
      ones, in every figure it keeps, and the supply falls by exactly what they burn. Each takes its turn where the
      one before it left off. */
  method ApplyAll(db: StateDb, pool: GasPool, jobs: seq<Job>, rules: Rules, context: Context)
    returns (results: seq<Result<Usage>>, ghost turns: seq<(Pool, Balances)>)
    requires Total(db.balances) < WORD && PoolOk(pool.Contents(), rules)
    requires forall i | 0 <= i < |jobs| :: JobOk(jobs[i])
    modifies db, pool
    ensures |results| == |jobs| && |turns| == |jobs| + 1
    ensures turns[0] == (old(pool.Contents()), old(db.balances)) && turns[|jobs|] == (pool.Contents(), db.balances)
    ensures forall i, j | 0 <= i < j < |turns| && j == i + 1 ::
              Turn(jobs[i], rules, context, results[i], turns[i].0, turns[i].1, turns[j].0, turns[j].1)
    ensures Accounted(old(pool.Contents()), old(Total(db.balances)), pool.Contents(), db.balances, jobs, results, rules, context)
    ensures !rules.amsterdam ==> pool.initial - pool.remaining == pool.cumulativeUsed
  {
    results, turns := [], [(pool.Contents(), db.balances)];
    for i := 0 to |jobs|
      invariant |results| == i && |turns| == i + 1
      invariant turns[0] == (old(pool.Contents()), old(db.balances)) && turns[i] == (pool.Contents(), db.balances)
      invariant forall k, j | 0 <= k < j < |turns| && j == k + 1 ::
                  Turn(jobs[k], rules, context, results[k], turns[k].0, turns[k].1, turns[j].0, turns[j].1)
      invariant Accounted(old(pool.Contents()), old(Total(db.balances)), pool.Contents(), db.balances, jobs, results, rules, context)
    {
      ghost var p, b := pool.Contents(), db.balances;
      var r := ApplyTransaction(db, pool, jobs[i], rules, context);
      AccountedOneMore(old(pool.Contents()), old(Total(db.balances)), p, b, pool.Contents(), db.balances, jobs, results, r, rules, context);
      results := results + [r];
      turns := turns + [(pool.Contents(), db.balances)];
    }
  }
}
