/** The two-dimensional gas budget of an EVM frame: regular gas, a state-gas reservoir,
    and what a frame hands back to its caller. */
module GasBudgets {
  import opened Basics

  datatype Budget = Budget(regular: int, state: int, usedRegular: int, usedState: int, spilled: int)

  datatype Exit = Success | Revert | Halt

  /** What a frame does with its gas. A call forwards gas and the whole reservoir to a nested frame, and no more than
      the caller holds. The stipend that a call with value adds to the forwarded gas is part of what the call is
      charged: such a call is a charge smaller by the stipend, then a forward larger by it. */
  datatype Op =
    | Charge(chargeRegular: nat, chargeState: nat)
    | Refund(amount: nat)
    | Drain
    | Call(forward: nat, body: seq<Op>, exit: Exit)

  function Fresh(regular: int, state: int): (g: Budget) {
    Budget(regular, state, 0, 0, 0)
  }

  /** Charge both dimensions. State gas beyond the reservoir is borrowed from the regular gas. */
  function ChargeGas(g: Budget, regular: nat, state: nat): (r: Option<Budget>) {
    if g.regular < regular then None
    else
      var left := g.regular - regular;
      if state > g.state then
        var spillover := state - g.state;
        if spillover > left then None
        else Some(Budget(left - spillover, 0, g.usedRegular + regular, g.usedState + state, g.spilled + spillover))
      else Some(Budget(left, g.state - state, g.usedRegular + regular, g.usedState + state, g.spilled))
  }

  /** Give state gas back, first to the regular gas it was borrowed from. */
  function RefundState(g: Budget, amount: nat): (r: Budget) {
    var repay := if amount < g.spilled then amount else g.spilled;
    Budget(g.regular + repay, g.state + amount - repay, g.usedRegular, g.usedState - amount, g.spilled - repay)
  }

  function DrainRegular(g: Budget): (r: Budget) {
    g.(regular := 0, usedRegular := g.usedRegular + g.regular)
  }

  /** The caller's budget while a nested frame runs. */
  function Forwarded(g: Budget, regular: int): (r: Budget) {
    g.(regular := g.regular - regular, usedRegular := g.usedRegular + regular, state := 0)
  }

  function Reservoir(g: Budget): (n: int) {
    var n := g.state + g.usedState - g.spilled;
    if n < 0 then 0 else n
  }

  function Leave(g: Budget, exit: Exit): (r: Budget) {
    match exit
    case Success => g
    case Revert => Budget(g.regular + g.spilled, Reservoir(g), g.usedRegular, 0, 0)
    case Halt => Budget(0, Reservoir(g), g.usedRegular + g.regular + g.spilled, 0, 0)
  }

  function Absorb(g: Budget, child: Budget): (r: Budget) {
    Budget(
      g.regular + child.regular, child.state,
      g.usedRegular - child.regular - child.spilled, g.usedState + child.usedState, g.spilled + child.spilled)
  }

  /** Run a frame's operations, up to the first charge it cannot pay. */
  function Run(g: Budget, ops: seq<Op>): (r: (Budget, bool))
    decreases ops, 0
  {
    if ops == [] then (g, true)
    else
      match ops[0]
      case Charge(regular, state) =>
        (match ChargeGas(g, regular, state)
         case None => (g, false)
         case Some(charged) => Run(charged, ops[1..]))
      case Refund(amount) => Run(RefundState(g, amount), ops[1..])
      case Drain => Run(DrainRegular(g), ops[1..])
      case Call(forward, body, exit) =>
        var regular := if forward < g.regular then forward else g.regular;
        var child := RunFrame(Fresh(regular, g.state), body, exit);
        Run(Absorb(Forwarded(g, regular), child), ops[1..])
  }

  /** A frame that cannot pay halts; any other leaves as its code decided. */
  function RunFrame(g: Budget, ops: seq<Op>, exit: Exit): (r: Budget)
    decreases ops, 1
  {
    var (after, paid) := Run(g, ops);
    Leave(after, if paid then exit else Halt)
  }

  /** No field that the program keeps unsigned is negative. */
  ghost predicate Unsigned(g: Budget) {
    g.regular >= 0 && g.state >= 0 && g.usedRegular >= 0 && g.spilled >= 0
  }

  /** Regular gas and the reservoir, each with what was used or borrowed of it, add up as they did. */
  ghost predicate SameAccounts(g: Budget, h: Budget) {
    && g.regular + g.spilled + g.usedRegular == h.regular + h.spilled + h.usedRegular
    && g.state + g.usedState - g.spilled == h.state + h.usedState - h.spilled
  }

  /** A charge is paid exactly when the regular gas covers its regular part and both together cover it all. It borrows
      only once the reservoir is empty. */
  lemma ChargeKeeps(g: Budget, regular: nat, state: nat)
    requires Unsigned(g)
    ensures ChargeGas(g, regular, state).Some? <==> regular <= g.regular && regular + state <= g.regular + g.state
    ensures ChargeGas(g, regular, state).Some? ==>
              var r := ChargeGas(g, regular, state).value;
              && Unsigned(r) && SameAccounts(g, r)
              && r.usedRegular == g.usedRegular + regular && r.usedState == g.usedState + state
              && r.spilled >= g.spilled && (r.spilled > g.spilled ==> r.state == 0)
  {
  }

  /** A refund goes to the reservoir only once nothing is borrowed. */
  lemma RefundKeeps(g: Budget, amount: nat)
    requires Unsigned(g)
    ensures var r := RefundState(g, amount);
            && Unsigned(r) && SameAccounts(g, r)
            && r.usedRegular == g.usedRegular && r.usedState == g.usedState - amount
            && r.spilled <= g.spilled && (r.spilled > 0 ==> r.state == g.state)
  {
  }

  /** A refund undoes a charge of the same state gas exactly when no earlier loan takes any of it. */
  lemma RefundUndoesCharge(g: Budget, state: nat)
    requires Unsigned(g) && ChargeGas(g, 0, state).Some?
    ensures RefundState(ChargeGas(g, 0, state).value, state) == g <==> g.spilled == 0 || g.state == 0 || state == 0
  {
  }

  /** A drained budget has used all its regular gas; the state gas is as it was. */
  lemma DrainKeeps(g: Budget)
    requires Unsigned(g)
    ensures var r := DrainRegular(g);
            && Unsigned(r) && SameAccounts(g, r) && r.regular == 0
            && r.state == g.state && r.usedState == g.usedState && r.spilled == g.spilled
  {
  }

  /** Whatever a nested frame did, absorbing what it left keeps the caller's accounts. The caller gets back all the
      regular gas the frame left, and has used what the frame used. */
  lemma AbsorbKeeps(g: Budget, regular: nat, child: Budget)
    requires Unsigned(g) && regular <= g.regular
    requires Unsigned(child) && SameAccounts(Fresh(regular, g.state), child)
    ensures var r := Absorb(Forwarded(g, regular), child);
            && Unsigned(r) && SameAccounts(g, r)
            && r.regular == g.regular - regular + child.regular && r.state == child.state
            && r.usedRegular == g.usedRegular + child.usedRegular
            && r.usedState == g.usedState + child.usedState && r.spilled == g.spilled + child.spilled
  {
  }

  /** Any list of operations, with calls nested to any depth, keeps both accounts. */
  lemma {:induction false} RunKeeps(g: Budget, ops: seq<Op>)
    requires Unsigned(g)
    ensures Unsigned(Run(g, ops).0) && SameAccounts(g, Run(g, ops).0)
    decreases ops, 0
  {
    if ops != [] {
      match ops[0]
      case Charge(regular, state) =>
        ChargeKeeps(g, regular, state);
        if ChargeGas(g, regular, state).Some? { RunKeeps(ChargeGas(g, regular, state).value, ops[1..]); }
      case Refund(amount) => RunKeeps(RefundState(g, amount), ops[1..]);
      case Drain => RunKeeps(DrainRegular(g), ops[1..]);
      case Call(forward, body, exit) =>
        var regular := if forward < g.regular then forward else g.regular;
        var child := RunFrame(Fresh(regular, g.state), body, exit);
        FrameKeeps(Fresh(regular, g.state), body, exit);
        AbsorbKeeps(g, regular, child);
        RunKeeps(Absorb(Forwarded(g, regular), child), ops[1..]);
    }
  }

  lemma {:induction false} FrameKeeps(g: Budget, ops: seq<Op>, exit: Exit)
    requires Unsigned(g) && g.usedState == 0 && g.spilled == 0
    ensures Unsigned(RunFrame(g, ops, exit)) && SameAccounts(g, RunFrame(g, ops, exit))
    decreases ops, 1
  {
    RunKeeps(g, ops);
  }

  const U63: int := 0x8000_0000_0000_0000

  /** The fields fit the machine words they are kept in: four unsigned ones and a signed one. */
  ghost predicate FitsWords(g: Budget) {
    && Unsigned(g) && -U63 <= g.usedState < U63
    && g.regular < 2 * U63 && g.state < 2 * U63 && g.usedRegular < 2 * U63 && g.spilled < 2 * U63
  }

  /** The two fields that refunds of state gas can push out of range. */
  ghost predicate StateFits(g: Budget) {
    g.state < 2 * U63 && -U63 <= g.usedState < U63
  }

  /** A property of every budget a frame goes through, in nested frames too, down to what they hand back. */
  ghost predicate Everywhere(g: Budget, ops: seq<Op>, p: Budget -> bool)
    decreases ops
  {
    p(g) &&
    (ops != [] ==>
       match ops[0]
       case Charge(regular, state) =>
         (match ChargeGas(g, regular, state)
          case None => true
          case Some(charged) => Everywhere(charged, ops[1..], p))
       case Refund(amount) => Everywhere(RefundState(g, amount), ops[1..], p)
       case Drain => Everywhere(DrainRegular(g), ops[1..], p)
       case Call(forward, body, exit) =>
         var regular := if forward < g.regular then forward else g.regular;
         var child := Fresh(regular, g.state);
         && Everywhere(child, body, p) && p(RunFrame(child, body, exit))
         && Everywhere(Absorb(Forwarded(g, regular), RunFrame(child, body, exit)), ops[1..], p))
  }

  /** Regular gas, what was used of it and what was borrowed from it never overflow, at any depth: a machine word is
      enough everywhere exactly when it is for the two fields that count state gas. */
  lemma {:induction false} WordsSuffice(g: Budget, ops: seq<Op>)
    requires Unsigned(g) && g.regular + g.spilled + g.usedRegular < 2 * U63
    ensures Everywhere(g, ops, FitsWords) <==> Everywhere(g, ops, StateFits)
    decreases ops
  {
    assert FitsWords(g) <==> StateFits(g);
    if ops != [] {
      match ops[0]
      case Charge(regular, state) =>
        ChargeKeeps(g, regular, state);
        if ChargeGas(g, regular, state).Some? { WordsSuffice(ChargeGas(g, regular, state).value, ops[1..]); }
      case Refund(amount) => WordsSuffice(RefundState(g, amount), ops[1..]);
      case Drain => WordsSuffice(DrainRegular(g), ops[1..]);
      case Call(forward, body, exit) =>
        var regular := if forward < g.regular then forward else g.regular;
        var child := RunFrame(Fresh(regular, g.state), body, exit);
        FrameKeeps(Fresh(regular, g.state), body, exit);
        AbsorbKeeps(g, regular, child);
        WordsSuffice(Fresh(regular, g.state), body);
        assert FitsWords(child) <==> StateFits(child);
        WordsSuffice(Absorb(Forwarded(g, regular), child), ops[1..]);
    }
  }

  /** Every charge is paid, in nested frames too, nothing is drained and no frame halts. */
  ghost predicate NeverHalts(g: Budget, ops: seq<Op>)
    decreases ops
  {
    ops != [] ==>
      match ops[0]
      case Charge(regular, state) =>
        (match ChargeGas(g, regular, state)
         case None => false
         case Some(charged) => NeverHalts(charged, ops[1..]))
      case Refund(amount) => NeverHalts(RefundState(g, amount), ops[1..])
      case Drain => false
      case Call(forward, body, exit) =>
        var regular := if forward < g.regular then forward else g.regular;
        var child := Fresh(regular, g.state);
        && exit != Halt && NeverHalts(child, body)
        && NeverHalts(Absorb(Forwarded(g, regular), RunFrame(child, body, exit)), ops[1..])
  }

  /** The regular gas that operations are charged, in nested frames too. */
  ghost function RegularCharges(ops: seq<Op>): (n: nat)
    decreases ops
  {
    if ops == [] then 0
    else
      RegularCharges(ops[1..]) +
      match ops[0]
      case Charge(regular, _) => regular
      case Refund(_) => 0
      case Drain => 0
      case Call(_, body, _) => RegularCharges(body)
  }

  /** The state gas that operations are charged less what they are refunded; a frame that reverts counts for nothing. */
  ghost function NetState(ops: seq<Op>): (n: int)
    decreases ops
  {
    if ops == [] then 0
    else
      var first: int :=
        match ops[0]
        case Charge(_, state) => state
        case Refund(amount) => 0 - amount
        case Drain => 0
        case Call(_, body, exit) => if exit == Success then NetState(body) else 0;
      first + NetState(ops[1..])
  }

  /** The gas that is counted as used is exactly what was charged, however frames nest, borrow, pay back and revert. */
  lemma {:induction false} UsedIsCharged(g: Budget, ops: seq<Op>)
    requires Unsigned(g) && NeverHalts(g, ops)
    ensures Run(g, ops).1
    ensures Run(g, ops).0.usedRegular == g.usedRegular + RegularCharges(ops)
    ensures Run(g, ops).0.usedState == g.usedState + NetState(ops)
    decreases ops
  {
    if ops != [] {
      match ops[0]
      case Charge(regular, state) =>
        ChargeKeeps(g, regular, state);
        UsedIsCharged(ChargeGas(g, regular, state).value, ops[1..]);
      case Refund(amount) =>
        RefundKeeps(g, amount);
        UsedIsCharged(RefundState(g, amount), ops[1..]);
      case Call(forward, body, exit) =>
        var regular := if forward < g.regular then forward else g.regular;
        var child := Fresh(regular, g.state);
        UsedIsCharged(child, body);
        FrameKeeps(child, body, exit);
        FrameContract(regular, g.state, body, exit);
        AbsorbKeeps(g, regular, RunFrame(child, body, exit));
        UsedIsCharged(Absorb(Forwarded(g, regular), RunFrame(child, body, exit)), ops[1..]);
    }
  }

  /** A call that halts costs its caller exactly what was forwarded, and no more than the caller had. */
  lemma HaltBurnsForwarded(g: Budget, forward: nat, body: seq<Op>)
    requires Unsigned(g)
    ensures var (r, paid) := Run(g, [Call(forward, body, Halt)]);
            var burnt := if forward < g.regular then forward else g.regular;
            paid && r == g.(regular := g.regular - burnt, usedRegular := g.usedRegular + burnt)
  {
    var regular := if forward < g.regular then forward else g.regular;
    FrameContract(regular, g.state, body, Halt);
    AbsorbKeeps(g, regular, RunFrame(Fresh(regular, g.state), body, Halt));
  }

  /** What the transaction relies on. A frame never leaves less than its starting reservoir, counting the
      state gas it used. The gas it leaves and uses adds up to what it was given. A frame that reverts has used the
      regular gas its operations used, and no more; one that halts, or cannot pay, has used it all. */
  lemma FrameContract(regular: nat, state: nat, ops: seq<Op>, exit: Exit)
    ensures var r := RunFrame(Fresh(regular, state), ops, exit);
            && Unsigned(r)
            && r.state + r.usedState == state + r.spilled >= state
            && r.regular + r.state + r.usedRegular + r.usedState == regular + state
            && (exit != Success ==> r.state == state && r.usedState == 0)
            && (exit == Halt ==> r.regular == 0)
            && var (after, paid) := Run(Fresh(regular, state), ops);
               && (paid && exit == Success ==> r == after)
               && (paid && exit == Revert ==> r.usedRegular == after.usedRegular)
               && (!paid || exit == Halt ==> r.usedRegular == regular && r.state == state && r.usedState == 0)
  {
    FrameKeeps(Fresh(regular, state), ops, exit);
    RunKeeps(Fresh(regular, state), ops);
  }
}
