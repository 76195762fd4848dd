/** The gas available to the transactions of one block. */
module GasPools {
  import opened Basics

  const U64: nat := 0x1_0000_0000_0000_0000
  const MAX_GAS_LIMIT: nat := 0x7fff_ffff_ffff_ffff

  datatype Error = GasLimitReached | GasLimitOverflow

  datatype Outcome = Ok | Failed(error: Error)

  /** The contents of a pool. */
  datatype Pool = Pool(remaining: nat, initial: nat, cumulativeUsed: nat, cumulativeRegular: nat, cumulativeState: nat)

  /** A pool between messages of the scalar scheme: what is missing is what was used. */
  ghost predicate Legacy(p: Pool) {
    && p.initial <= MAX_GAS_LIMIT
    && p.cumulativeRegular == p.cumulativeState == 0
    && p.remaining + p.cumulativeUsed == p.initial
  }

  /** A pool between messages of the two-dimensional scheme: both dimensions fit the block. */
  ghost predicate TwoDimensional(p: Pool) {
    && p.initial <= MAX_GAS_LIMIT
    && p.cumulativeRegular <= p.initial && p.cumulativeState <= p.initial
    && p.remaining == p.initial - p.cumulativeRegular
    && p.cumulativeUsed <= p.cumulativeRegular + p.cumulativeState
  }

  class GasPool {
    var remaining: nat
    var initial: nat
    var cumulativeUsed: nat
    var cumulativeRegular: nat
    var cumulativeState: nat

    function Contents(): (p: Pool)
      reads this
    {
      Pool(remaining, initial, cumulativeUsed, cumulativeRegular, cumulativeState)
    }

    /** A new pool is in order for either scheme. */
    constructor (amount: nat)
      requires amount <= MAX_GAS_LIMIT
      ensures Contents() == Pool(amount, amount, 0, 0, 0)
      ensures Legacy(Contents()) && TwoDimensional(Contents())
    {
      remaining, initial, cumulativeUsed, cumulativeRegular, cumulativeState := amount, amount, 0, 0, 0;
    }

    method CheckGasLegacy(amount: nat) returns (r: Outcome)
      modifies this
      ensures r.Ok? <==> amount <= old(remaining)
      ensures r.Ok? ==> Contents() == old(Contents()).(remaining := old(remaining) - amount)
      ensures r.Failed? ==> r.error == GasLimitReached && Contents() == old(Contents())
    {
      if remaining < amount {
        return Failed(GasLimitReached);
      }
      remaining := remaining - amount;
      return Ok;
    }

    method CheckGasAmsterdam(regularReservation: nat, stateReservation: nat) returns (r: Outcome)
      ensures r.Ok? <==>
                (initial - cumulativeRegular) % U64 >= regularReservation && (initial - cumulativeState) % U64 >= stateReservation
      ensures r.Failed? ==> r.error == GasLimitReached
    {
      if (initial - cumulativeRegular) % U64 < regularReservation {
        return Failed(GasLimitReached);
      }
      if (initial - cumulativeState) % U64 < stateReservation {
        return Failed(GasLimitReached);
      }
      return Ok;
    }

    method ChargeGasLegacy(returned: nat, gasUsed: nat) returns (r: Outcome)
      requires returned < U64
      modifies this
      ensures r.Ok? <==> old(remaining) + returned < U64
      ensures r.Ok? ==>
                Contents() == old(Contents()).(remaining := old(remaining) + returned,
                                               cumulativeUsed := (old(cumulativeUsed) + gasUsed) % U64)
      ensures r.Failed? ==> r.error == GasLimitOverflow && Contents() == old(Contents())
    {
      if remaining > U64 - 1 - returned {
        return Failed(GasLimitOverflow);
      }
      remaining := remaining + returned;
      cumulativeUsed := (cumulativeUsed + gasUsed) % U64;
      return Ok;
    }

    method ChargeGasAmsterdam(txRegular: nat, txState: nat, receiptGasUsed: nat) returns (r: Outcome)
      requires TwoDimensional(Contents()) && txRegular <= MAX_GAS_LIMIT && txState <= MAX_GAS_LIMIT
      modifies this
      ensures r.Ok? <==> old(cumulativeRegular) + txRegular <= old(initial) && old(cumulativeState) + txState <= old(initial)
      ensures r.Ok? ==>
                && initial == old(initial)
                && cumulativeRegular == old(cumulativeRegular) + txRegular
                && cumulativeState == old(cumulativeState) + txState
                && (receiptGasUsed <= txRegular + txState ==>
                      TwoDimensional(Contents()) && cumulativeUsed == old(cumulativeUsed) + receiptGasUsed)
      ensures r.Failed? ==> r.error == GasLimitReached && Contents() == old(Contents())
    {
      var regular := (cumulativeRegular + txRegular) % U64;
      var state := (cumulativeState + txState) % U64;
      if initial < Max(regular, state) {
        return Failed(GasLimitReached);
      }
      cumulativeRegular, cumulativeState := regular, state;
      cumulativeUsed := (cumulativeUsed + receiptGasUsed) % U64;
      remaining := (initial - cumulativeRegular) % U64;
      return Ok;
    }

    /** The gas used by the block. Between messages the underflow it guards against cannot happen. */
    method Used() returns (used: nat)
      requires Legacy(Contents()) || TwoDimensional(Contents())
      ensures Legacy(Contents()) ==> used == cumulativeUsed
      ensures TwoDimensional(Contents()) ==> used == Max(cumulativeRegular, cumulativeState)
    {
      if cumulativeRegular > 0 || cumulativeState > 0 {
        return Max(cumulativeRegular, cumulativeState);
      }
      return initial - remaining;
    }

    /** Put back a snapshot. */
    method Set(other: Pool)
      modifies this
      ensures Contents() == other
    {
      remaining, initial, cumulativeUsed := other.remaining, other.initial, other.cumulativeUsed;
      cumulativeRegular, cumulativeState := other.cumulativeRegular, other.cumulativeState;
    }
  }
}
