/** One vesting account: what it has vested and pre-vested at a time, on checked 128-bit integers. */
module VestingAccounts {
  import opened Cosmos

  function FloorDiv(a: nat, d: nat): nat
    requires d > 0
  {
    a / d
  }

  function Max(a: nat, b: nat): nat {
    if a >= b then a else b
  }

  datatype VestingData = VestingData(
    prevestingAmount: nat,
    prevestedAmount: nat,
    vestingAmount: nat,
    vestedAmount: nat,
    claimableAmount: nat,
    claimedAmount: nat,
    registrationTime: nat,
    startTime: nat,
    endTime: nat)

  const NO_VESTING := VestingData(0, 0, 0, 0, 0, 0, 0, 0, 0)

  datatype Account = Account(
    address: Addr,
    prevestingAmount: Uint128,
    vestingAmount: Uint128,
    claimedAmount: nat,
    registrationTime: nat,
    startTime: nat,
    endTime: nat)
  {
    function Validate(block: Block): Result<()> {
      if vestingAmount == 0 then Failure(InvalidAccount)
      else if registrationTime < block.time then Failure(InvalidAccount)
      else if startTime < registrationTime then Failure(InvalidAccount)
      else if startTime < block.time then Failure(InvalidAccount)
      else if endTime < startTime then Failure(InvalidAccount)
      else Success(())
    }

    function VestedAmount(block: Block): Result<nat> {
      if block.time < startTime then Success(0)
      else if block.time >= endTime then Success(vestingAmount)
      else
        var product :- CheckedMul(vestingAmount, block.time - startTime);
        CheckedDiv(product, endTime - startTime)
    }

    function PrevestedAmount(block: Block): Result<nat> {
      if block.time < registrationTime then Success(0)
      else if block.time >= startTime then Success(vestingAmount)
      else
        var product :- CheckedMul(vestingAmount, block.time - registrationTime);
        var prevested :- CheckedDiv(product, startTime - registrationTime);
        Success(if prevestingAmount > prevested then prevestingAmount else prevested)
    }

    function GetVestingData(block: Block): Result<VestingData> {
      var vested :- VestedAmount(block);
      var prevested :- PrevestedAmount(block);
      var claimable :- CheckedSub(vested, claimedAmount);
      Success(VestingData(prevestingAmount, prevested, vestingAmount, vested, claimable, claimedAmount,
                          registrationTime, startTime, endTime))
    }

    // ----- the amounts as mathematics has them -----

    function Share(elapsed: nat, period: nat): nat
      requires period > 0
    {
      FloorDiv(vestingAmount * elapsed, period)
    }

    /** Linear from the start to the end, rounded down. */
    function Vested(time: nat): nat {
      if time < startTime then 0
      else if time >= endTime then vestingAmount
      else Share(time - startTime, endTime - startTime)
    }

    /** Linear from registration to the start, never below the configured floor. */
    function Prevested(time: nat): nat {
      if time < registrationTime then 0
      else if time >= startTime then vestingAmount
      else Max(prevestingAmount, Share(time - registrationTime, startTime - registrationTime))
    }

    /** What registration guarantees and nothing changes. */
    predicate WellFormed() {
      0 < vestingAmount && registrationTime <= startTime <= endTime
    }

    /** No product needed from `time` on exceeds 128 bits. */
    predicate Affordable(time: nat) {
      && (time < startTime ==> vestingAmount * (startTime - 1 - registrationTime) <= U128_MAX)
      && (time < endTime && startTime < endTime ==> vestingAmount * (endTime - 1 - startTime) <= U128_MAX)
    }
  }

  // ----- floored products -----

  lemma MulMonotone(v: nat, x: nat, y: nat)
    requires x <= y
    ensures v * x <= v * y
  {
  }

  lemma DivMonotone(a: nat, b: nat, d: nat)
    requires a <= b && d > 0
    ensures FloorDiv(a, d) <= FloorDiv(b, d)
  {
    var x, y := a / d, b / d;
    if y < x {
      MulMonotone(d, y + 1, x);
    }
  }

  lemma MulDivCancels(v: nat, d: nat)
    requires d > 0
    ensures FloorDiv(v * d, d) == v
  {
    var product := v * d;
    var q := product / d;
    if q < v {
      MulMonotone(d, q + 1, v);
    } else if v < q {
      MulMonotone(d, v + 1, q);
    }
  }

  lemma ShareBounds(a: Account, x: nat, y: nat, period: nat)
    requires x <= y <= period && period > 0
    ensures a.Share(x, period) <= a.Share(y, period) <= a.vestingAmount
  {
    MulMonotone(a.vestingAmount, x, y);
    MulMonotone(a.vestingAmount, y, period);
    DivMonotone(a.vestingAmount * x, a.vestingAmount * y, period);
    DivMonotone(a.vestingAmount * y, a.vestingAmount * period, period);
    MulDivCancels(a.vestingAmount, period);
  }

  lemma ShareLaw(a: Account, elapsed: nat, period: nat)
    requires period > 0
    ensures a.Share(elapsed, period) * period <= a.vestingAmount * elapsed < (a.Share(elapsed, period) + 1) * period
  {
    var product := a.vestingAmount * elapsed;
    var share := product / period;
    assert product == share * period + product % period;
    assert (share + 1) * period == share * period + period;
  }

  /** The linear law of vesting: nothing before the start, everything from the end on, and in between the
      elapsed part of the grant, less than one token short. */
  lemma VestedLaw(a: Account, time: nat)
    requires a.WellFormed()
    ensures time < a.startTime ==> a.Vested(time) == 0
    ensures time >= a.endTime && time >= a.startTime ==> a.Vested(time) == a.vestingAmount
    ensures a.startTime <= time < a.endTime ==>
              a.Vested(time) * (a.endTime - a.startTime) <= a.vestingAmount * (time - a.startTime)
                < (a.Vested(time) + 1) * (a.endTime - a.startTime)
  {
    hide Account.Share;
    if a.startTime <= time < a.endTime {
      ShareLaw(a, time - a.startTime, a.endTime - a.startTime);
    }
  }

  /** The linear law of pre-vesting, from registration to the start and never below the configured floor. */
  lemma PrevestedLaw(a: Account, time: nat)
    requires a.WellFormed()
    ensures time < a.registrationTime ==> a.Prevested(time) == 0
    ensures time >= a.startTime ==> a.Prevested(time) == a.vestingAmount
    ensures a.registrationTime <= time < a.startTime ==>
              && a.prevestingAmount <= a.Prevested(time)
              && a.vestingAmount * (time - a.registrationTime)
                   < (a.Prevested(time) + 1) * (a.startTime - a.registrationTime)
              && (a.prevestingAmount < a.Prevested(time) ==>
                    a.Prevested(time) * (a.startTime - a.registrationTime)
                    <= a.vestingAmount * (time - a.registrationTime))
  {
    hide Account.Share;
    if a.registrationTime <= time < a.startTime {
      var elapsed, period := time - a.registrationTime, a.startTime - a.registrationTime;
      ShareLaw(a, elapsed, period);
      MulMonotone(period, a.Share(elapsed, period) + 1, a.Prevested(time) + 1);
    }
  }

  /** What has vested never shrinks and never exceeds the grant. */
  lemma VestedMonotone(a: Account, t1: nat, t2: nat)
    requires a.WellFormed() && t1 <= t2
    ensures a.Vested(t1) <= a.Vested(t2) <= a.vestingAmount
  {
    hide Account.Share;
    if a.startTime <= t1 < a.endTime {
      ShareBounds(a, t1 - a.startTime, t1 - a.startTime, a.endTime - a.startTime);
    }
    if a.startTime <= t2 < a.endTime {
      ShareBounds(a, if t1 < a.startTime then 0 else t1 - a.startTime, t2 - a.startTime, a.endTime - a.startTime);
    }
  }

  /** Voting power counts `min(prevested, vesting)`: it never shrinks either and is the whole grant
      from the start on, even when the configured floor exceeds the grant. */
  lemma PrevestedCapMonotone(a: Account, t1: nat, t2: nat)
    requires a.WellFormed() && a.registrationTime <= t1 <= t2
    ensures Min(a.Prevested(t1), a.vestingAmount) <= Min(a.Prevested(t2), a.vestingAmount) <= a.vestingAmount
    ensures t1 >= a.startTime ==> Min(a.Prevested(t1), a.vestingAmount) == a.vestingAmount
  {
    hide Account.Share;
    if t2 < a.startTime {
      ShareBounds(a, t1 - a.registrationTime, t2 - a.registrationTime, a.startTime - a.registrationTime);
    }
  }

  /** The checked computations return these amounts, and fail only by overflow: both divisors are
      positive wherever they are reached. */
  lemma ChecksAreExact(a: Account, block: Block)
    requires a.WellFormed()
    ensures a.VestedAmount(block) ==
            if a.startTime <= block.time < a.endTime && a.vestingAmount * (block.time - a.startTime) > U128_MAX
            then Failure(Overflow) else Success(a.Vested(block.time))
    ensures a.PrevestedAmount(block) ==
            if a.registrationTime <= block.time < a.startTime
                && a.vestingAmount * (block.time - a.registrationTime) > U128_MAX
            then Failure(Overflow) else Success(a.Prevested(block.time))
  {
  }

  lemma AffordableRow(a: Account, now: nat, block: Block)
    requires a.WellFormed() && a.registrationTime <= now <= block.time && a.claimedAmount <= a.Vested(now)
    requires a.Affordable(now)
    ensures a.GetVestingData(block).Success?
  {
    hide Account.Share;
    ChecksAreExact(a, block);
    VestedMonotone(a, now, block.time);
    if block.time < a.startTime {
      MulMonotone(a.vestingAmount, block.time - a.registrationTime, a.startTime - 1 - a.registrationTime);
    } else if block.time < a.endTime {
      MulMonotone(a.vestingAmount, block.time - a.startTime, a.endTime - 1 - a.startTime);
    }
  }

  /** A row can be computed at every block from `now` on exactly if the account is affordable: the
      largest product of each period is the one a nanosecond before it ends. */
  lemma NeverAbortsExactly(a: Account, now: nat)
    requires a.WellFormed() && a.registrationTime <= now && a.claimedAmount <= a.Vested(now)
    ensures a.Affordable(now) <==> forall block: Block | now <= block.time :: a.GetVestingData(block).Success?
  {
    hide Account.Share;
    if a.Affordable(now) {
      forall block: Block | now <= block.time ensures a.GetVestingData(block).Success? {
        AffordableRow(a, now, block);
      }
    } else {
      var last := if now < a.startTime && a.vestingAmount * (a.startTime - 1 - a.registrationTime) > U128_MAX
                  then a.startTime - 1
                  else if now < a.endTime then a.endTime - 1 else now;
      ChecksAreExact(a, Block(0, last));
      assert a.GetVestingData(Block(0, last)).Failure?;
    }
  }

  /** Registration accepts accounts that are not affordable: from some later moment until the start,
      no row of this one can be computed. */
  lemma RegistrationAcceptsUnaffordable() returns (a: Account, registered: Block, later: Block)
    ensures a.Validate(registered).Success? && a.registrationTime == registered.time && a.claimedAmount == 0
    ensures a.GetVestingData(registered).Success?
    ensures registered.NotAfter(later) && a.GetVestingData(later) == Failure(Overflow)
  {
    a := Account(Addr(0), 0, U128_MAX, 0, 0, 10, 20);
    registered, later := Block(1, 0), Block(2, 5);
  }
}
