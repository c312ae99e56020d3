/** The voting-power module: individual and total power are derived from the vesting snapshots by
    different formulas, which agree on every reachable history. */
module VotingPower {
  import opened Cosmos
  import opened Sums
  import opened VestingAccounts
  import opened Vesting
  import opened VestingHistory
  import opened VestingPayouts

  function SaturatingSub(a: nat, b: nat): nat {
    if b <= a then a - b else 0
  }

  /** `checked_add` whose failure reads as no power at all. */
  function AddOrZero(a: nat, b: nat): nat {
    if a + b <= U128_MAX then a + b else 0
  }

  function IndividualVestingPower(d: VestingData): nat {
    if d.vestingAmount > d.prevestedAmount then d.prevestedAmount
    else SaturatingSub(d.vestingAmount, d.claimedAmount)
  }

  function TotalVestingPower(total: TotalInfo): nat {
    SaturatingSub(total.vestingAmount, total.claimedAmount)
  }

  /** The answers of the two queries, given the staking contract's. */
  function VotingPowerAt(staked: nat, d: VestingData): nat {
    AddOrZero(staked, IndividualVestingPower(d))
  }

  function TotalPowerAt(staked: nat, total: TotalInfo): nat {
    AddOrZero(staked, TotalVestingPower(total))
  }

  function PowerWeight(): (Addr, VestingData) -> nat {
    (a: Addr, d: VestingData) => IndividualVestingPower(d)
  }

  /** Individual power and what was claimed add up to the counted amount: power lost to a claim is
      exactly the tokens paid out, before the start as after. */
  lemma PowerPlusClaimed(d: VestingData)
    requires RowOk(d)
    ensures IndividualVestingPower(d) + d.claimedAmount == Min(d.prevestedAmount, d.vestingAmount)
  {
  }

  /** The reported power: the stake and this power, or none if they do not fit in 128 bits together. */
  lemma ReportedPower(staked: nat, d: VestingData)
    requires RowOk(d)
    ensures var sum := staked + Min(d.prevestedAmount, d.vestingAmount) - d.claimedAmount;
            VotingPowerAt(staked, d) == if sum <= U128_MAX then sum else 0
  {
  }

  /** The same along the life of one account: at every time its power plus its claims is the smaller
      of pre-vested and granted amount, a quantity that never shrinks and is the grant from the start
      on, even when the configured floor exceeds the grant. */
  lemma AccountPowerOverTime(a: Addr, account: Account, b1: Block, b2: Block)
    requires AccountOk(a, account, b1.time) && b1.time <= b2.time
    requires account.GetVestingData(b1).Success? && account.GetVestingData(b2).Success?
    ensures forall b :: b == b1 || b == b2 ==>
              IndividualVestingPower(account.GetVestingData(b).value) + account.claimedAmount
              == Min(account.Prevested(b.time), account.vestingAmount)
    ensures IndividualVestingPower(account.GetVestingData(b1).value)
            <= IndividualVestingPower(account.GetVestingData(b2).value)
    ensures b1.time >= account.startTime ==>
              IndividualVestingPower(account.GetVestingData(b1).value) == account.vestingAmount - account.claimedAmount
  {
    hide Account.Share, Account.VestedAmount, Account.PrevestedAmount, Account.Vested, Account.Prevested, RowOk;
    AccountAges(a, account, b1.time, b2.time);
    forall b | b == b1 || b == b2
      ensures IndividualVestingPower(account.GetVestingData(b).value) + account.claimedAmount
           == Min(account.Prevested(b.time), account.vestingAmount)
    {
      ComputedRowOk(a, account, b);
      PowerPlusClaimed(account.GetVestingData(b).value);
      ChecksAreExact(account, b);
    }
    PrevestedCapMonotone(account, b1.time, b2.time);
  }

  lemma TotalsOfRows(r: Record)
    requires RecordOk(r)
    ensures TotalVestingPower(r.total) == Sum(r.rows, PowerWeight())
    ensures r.total.claimedAmount <= r.total.vestedAmount <= r.total.vestingAmount
  {
    hide Sum, Fits, IndividualVestingPower;
    forall a | a in r.rows
      ensures PowerWeight()(a, r.rows[a]) + ClaimedOf()(a, r.rows[a]) == Counted()(a, r.rows[a])
    {
      PowerPlusClaimed(r.rows[a]);
    }
    SumPlus(r.rows, PowerWeight(), ClaimedOf(), Counted());
    SumLeq(r.rows, ClaimedOf(), r.rows, Vested());
    SumLeq(r.rows, Vested(), r.rows, Counted());
  }

  lemma ReportedTotal(staked: nat, r: Record)
    requires RecordOk(r)
    ensures var sum := staked + Sum(r.rows, PowerWeight());
            TotalPowerAt(staked, r.total) == if sum <= U128_MAX then sum else 0
  {
    hide Sum, RecordOk;
    TotalsOfRows(r);
  }

  /** The rows the queries return for a set of accounts. */
  ghost function QueriedRows(s: State, accounts: set<Addr>, height: nat): map<Addr, VestingData> {
    map a | a in accounts :: QueryAccount(s, a, height)
  }

  /** At every height above the instantiation block of every reachable world, the queried total
      vesting power is the sum of the queried individual powers of the accounts registered at the
      governing snapshot, and zero if there is none. */
  lemma TotalPowerIsSum(owner: Addr, birth: Block, calls: seq<Call>, end: Block, height: nat)
    requires Ordered(birth, calls, end) && height > birth.height
    ensures var w := Reached(owner, birth, calls);
            TotalVestingPower(QueryTotal(w.state, height))
            == match Governing(w.history, height)
               case Some(r) => Sum(QueriedRows(w.state, r.rows.Keys, height), PowerWeight())
               case None => 0
  {
    hide Run, Sum, QueryAccount, QueryTotal, RecordOk, TotalOf, RowsRecorded, TotalsRecorded, BirthRecorded, AccountsOk;
    var w := Reached(owner, birth, calls);
    ReachedInv(owner, birth, calls, end);
    TotalQueriesRightExceptAtBirth(w, birth.height, end, height);
    var g := Governing(w.history, height);
    if g.Some? {
      GoverningInHistory(w.history, height);
      TotalsOfRows(g.value);
      forall a | a in g.value.rows ensures QueryAccount(w.state, a, height) == g.value.rows[a] {
        RowQueriesRight(w, birth.height, end, a, height);
      }
      assert QueriedRows(w.state, g.value.rows.Keys, height) == g.value.rows;
    }
  }

  // ----- everyone's power -----

  /** The rows of the accounts registered at the governing snapshot. */
  function GoverningRows(history: seq<Record>, height: nat): map<Addr, VestingData> {
    match Governing(history, height)
    case Some(r) => r.rows
    case None => map[]
  }

  function StakeOf(staked: map<Addr, nat>, a: Addr): nat {
    if a in staked then staked[a] else 0
  }

  function StakedWeight(staked: map<Addr, nat>): (Addr, VestingData) -> nat {
    (a: Addr, d: VestingData) => StakeOf(staked, a)
  }

  function FullPowerWeight(staked: map<Addr, nat>): (Addr, VestingData) -> nat {
    (a: Addr, d: VestingData) => VotingPowerAt(StakeOf(staked, a), d)
  }

  /** All stakes, summed over a larger set of addresses. */
  lemma StakesOf(rows: map<Addr, VestingData>, staked: map<Addr, nat>)
    requires staked.Keys <= rows.Keys
    ensures Sum(rows, StakedWeight(staked)) == Sum(staked, Amount())
  {
    hide Sum;
    SumSplit(rows, StakedWeight(staked), staked.Keys);
    SumEqual(Restrict(rows, staked.Keys), StakedWeight(staked), staked, Amount());
    SumZero(rows - staked.Keys, StakedWeight(staked));
  }

  /** As long as everything fits in 128 bits, full powers are stakes plus vesting powers. */
  lemma FullPowersSplit(rows: map<Addr, VestingData>, staked: map<Addr, nat>)
    requires staked.Keys <= rows.Keys
    requires Sum(staked, Amount()) + Sum(rows, PowerWeight()) <= U128_MAX
    ensures Sum(rows, FullPowerWeight(staked)) == Sum(staked, Amount()) + Sum(rows, PowerWeight())
  {
    hide Sum, IndividualVestingPower;
    StakesOf(rows, staked);
    forall a | a in rows
      ensures StakedWeight(staked)(a, rows[a]) + PowerWeight()(a, rows[a]) == FullPowerWeight(staked)(a, rows[a])
    {
      SumMember(rows, StakedWeight(staked), a);
      SumMember(rows, PowerWeight(), a);
    }
    SumPlus(rows, StakedWeight(staked), PowerWeight(), FullPowerWeight(staked));
  }

  /** The vesting power of any set of addresses that contains the governing accounts: the queried total,
      plus what rows left behind by deregistered accounts still carry. */
  lemma VestingPowerOfSet(owner: Addr, birth: Block, calls: seq<Call>, end: Block, height: nat, everyone: set<Addr>)
    requires Ordered(birth, calls, end) && height > birth.height
    requires GoverningRows(Reached(owner, birth, calls).history, height).Keys <= everyone
    ensures var w := Reached(owner, birth, calls);
            var governing := GoverningRows(w.history, height).Keys;
            Sum(QueriedRows(w.state, everyone, height), PowerWeight())
            == TotalVestingPower(QueryTotal(w.state, height))
               + Sum(QueriedRows(w.state, everyone - governing, height), PowerWeight())
  {
    hide Reached, Sum, QueryAccount, QueryTotal;
    var w := Reached(owner, birth, calls);
    var governing := GoverningRows(w.history, height).Keys;
    var rows := QueriedRows(w.state, everyone, height);
    TotalPowerIsSum(owner, birth, calls, end, height);
    SumSplit(rows, PowerWeight(), governing);
    assert Restrict(rows, governing) == QueriedRows(w.state, governing, height);
    assert rows - governing == QueriedRows(w.state, everyone - governing, height);
    if Governing(w.history, height).None? {
      SumEmpty(QueriedRows(w.state, governing, height), PowerWeight());
    }
  }

  /** The row of an address outside the governing snapshot that still carries power: a row of a
      deregistered account. */
  predicate StalePower(history: seq<Record>, a: Addr, height: nat) {
    && a !in GoverningRows(history, height)
    && LastRow(history, a, height).Some?
    && IndividualVestingPower(LastRow(history, a, height).value) > 0
  }

  lemma StaleRowsCarryThePower(w: World, born: nat, now: Block, height: nat, others: set<Addr>)
    requires Inv(w, born, now) && others !! GoverningRows(w.history, height).Keys
    ensures Sum(QueriedRows(w.state, others, height), PowerWeight()) == 0
       <==> forall a :: a in others ==> !StalePower(w.history, a, height)
  {
    hide Inv, Sum, QueryAccount, LastRow, Governing;
    var rows := QueriedRows(w.state, others, height);
    SumZero(rows, PowerWeight());
    forall a | a in others
      ensures IndividualVestingPower(rows[a]) == 0 <==> !StalePower(w.history, a, height)
    {
      RowQueriesRight(w, born, now, a, height);
    }
  }

  /** In every reachable world, at every height above the instantiation block: over any finite set of
      addresses that contains all stakers and the accounts of the governing snapshot, and as long as
      everything fits in 128 bits, the reported powers add up to the reported total plus the vesting
      power of the other rows. So they add up to the total exactly if no deregistered account's last row
      still carries power. */
  lemma ReportedPowersAddUp(owner: Addr, birth: Block, calls: seq<Call>, end: Block, height: nat,
                            everyone: set<Addr>, staked: map<Addr, nat>)
    requires Ordered(birth, calls, end) && height > birth.height
    requires GoverningRows(Reached(owner, birth, calls).history, height).Keys + staked.Keys <= everyone
    requires Sum(staked, Amount())
             + Sum(QueriedRows(Reached(owner, birth, calls).state, everyone, height), PowerWeight()) <= U128_MAX
    ensures var w := Reached(owner, birth, calls);
            var governing := GoverningRows(w.history, height).Keys;
            var total := TotalPowerAt(Sum(staked, Amount()), QueryTotal(w.state, height));
            var powers := Sum(QueriedRows(w.state, everyone, height), FullPowerWeight(staked));
            && powers == total + Sum(QueriedRows(w.state, everyone - governing, height), PowerWeight())
            && (powers == total <==> forall a :: a in everyone ==> !StalePower(w.history, a, height))
  {
    hide Reached, Sum, QueryAccount, QueryTotal, TotalVestingPower, LastRow, Governing, IndividualVestingPower;
    var w := Reached(owner, birth, calls);
    var governing := GoverningRows(w.history, height).Keys;
    VestingPowerOfSet(owner, birth, calls, end, height, everyone);
    FullPowersSplit(QueriedRows(w.state, everyone, height), staked);
    ReachedInv(owner, birth, calls, end);
    StaleRowsCarryThePower(w, birth.height, end, height, everyone - governing);
  }

  // ----- a run after which a deregistered account still has power -----

  lemma EmptyTotal()
    ensures TotalOf(map[]) == NO_TOTAL
  {
  }

  lemma LastAccountDeregisters(w: World, env: Env, a: Addr, account: Account)
    requires w.state.owner == env.sender && w.state.accounts == map[a := account] && env.block.height >= 1
    requires account.startTime == account.endTime == account.claimedAmount == 0
    ensures var w' := Deliver(w, Call(env, DeregisterVestingAccount(a, None, None)));
            w'.history == w.history + [Record(env.block.height, map[], TotalOf(map[]))]
  {
    hide TotalOf;
    assert w.state.accounts - {a} == map[];
    EmptyTotal();
  }

  /** The answers once a snapshot without accounts governs and an account's only row carries power. */
  lemma LeftBehind(w: World, born: nat, end: Block, a: Addr, r1: Record, r2: Record)
    requires Inv(w, born, end) && w.history == [r1, r2]
    requires born < r1.height <= r2.height == end.height && r2.rows == map[] && r2.total == NO_TOTAL
    requires a in r1.rows && IndividualVestingPower(r1.rows[a]) > 0
    ensures StalePower(w.history, a, end.height)
    ensures QueryAccount(w.state, a, end.height) == r1.rows[a]
    ensures QueryTotal(w.state, end.height) == NO_TOTAL
  {
    hide Inv, QueryAccount, QueryTotal, IndividualVestingPower;
    assert w.history[..1] == [r1];
    RowQueriesRight(w, born, end, a, end.height);
    TotalQueriesRightExceptAtBirth(w, born, end, end.height);
  }

  lemma SmallRow(account: Account, block: Block)
    requires account == Account(account.address, 0, 7, 0, 0, 0, 0)
    ensures account.GetVestingData(block) == Success(VestingData(0, 7, 7, 7, 7, 0, 0, 0, 0))
  {
  }

  lemma OneSmallAccount(a: Addr, account: Account)
    requires account == Account(a, 0, 7, 0, 0, 0, 0)
    ensures AccountsOk(map[a := account], 0) && Ready(map[a := account], 0)
  {
    hide Sum;
    var accounts := map[a := account];
    SumRemove(accounts, Ceiling(), a);
    SumEmpty(accounts - {a}, Ceiling());
    TotalsWithinCeiling(accounts, 0);
  }

  /** An account is registered and, a block later, deregistered without having claimed. Its last row keeps
      its whole power, while the total no longer counts it. */
  lemma DeregisteredKeepsPower()
    returns (owner: Addr, birth: Block, calls: seq<Call>, end: Block, a: Addr)
    ensures Ordered(birth, calls, end) && end.height > birth.height
    ensures var w := Reached(owner, birth, calls);
            && StalePower(w.history, a, end.height)
            && VotingPowerAt(0, QueryAccount(w.state, a, end.height)) == 7
            && TotalPowerAt(0, QueryTotal(w.state, end.height)) == 0
  {
    hide Deliver, Ready, QueryAccount, QueryTotal, Sum, TotalOf, Inv, Account.GetVestingData, StalePower, AccountsOk;
    owner, birth, end, a := Addr(0), Block(1, 0), Block(3, 0), Addr(1);
    var env1, env2 := Env(Block(2, 0), owner), Env(end, owner);
    calls := [Call(env1, RegisterVestingAccount(a, 0, 0, 7, 0)), Call(env2, DeregisterVestingAccount(a, None, None))];
    assert calls[1..][1..] == [] && Ordered(env1.block, calls[1..], end);
    var account := NewAccount(env1, a, 0, 0, 7, 0);
    var w0 := World(Instantiate(owner, 1), [], []);
    var w1 := Deliver(w0, calls[0]);
    var w := Deliver(w1, calls[1]);
    assert Reached(owner, birth, calls) == w by { TwoCalls(w0, calls); }
    OneSmallAccount(a, account);
    assert w0.state.accounts[a := account] == map[a := account];
    Registers(w0, calls[0], account);
    LastAccountDeregisters(w1, env2, a, account);
    SmallRow(account, env1.block);
    EmptyTotal();
    ReachedInv(owner, birth, calls, end);
    LeftBehind(w, 1, end, a, w1.history[0], Record(3, map[], NO_TOTAL));
  }

  // ----- the activity check -----

  const PRECISION_FACTOR: nat := 1_000_000_000

  datatype ActiveThreshold = AbsoluteCount(count: Uint128) | Percentage(atomics: nat)

  /** The power the activity check counts: vested, not vesting, minus claimed. */
  function ActivePower(staked: nat, total: TotalInfo): nat {
    AddOrZero(staked, SaturatingSub(total.vestedAmount, total.claimedAmount))
  }

  /** The number of tokens a percentage of the supply stands for, in the contract's fixed-point steps. */
  function PercentageCount(supply: nat, atomics: nat): nat {
    var applied := supply * PRECISION_FACTOR * atomics / DECIMAL_ONE;
    (applied + PRECISION_FACTOR - 1) / PRECISION_FACTOR
  }

  function IsActive(threshold: Option<ActiveThreshold>, staked: nat, total: TotalInfo, supply: nat): bool {
    match threshold
    case None => true
    case Some(AbsoluteCount(count)) => ActivePower(staked, total) >= count
    case Some(Percentage(atomics)) => ActivePower(staked, total) >= PercentageCount(supply, atomics)
  }

  /** A product of supply and percentage in whole tokens, rounded up in the fixed-point steps. */
  function RoundedUp(product: nat): nat {
    (product * PRECISION_FACTOR / DECIMAL_ONE + PRECISION_FACTOR - 1) / PRECISION_FACTOR
  }

  lemma FixedPoint(product: nat)
    ensures RoundedUp(product) == product / DECIMAL_ONE + if product % DECIMAL_ONE < PRECISION_FACTOR then 0 else 1
  {
    var q, r := product / DECIMAL_ONE, product % DECIMAL_ONE;
    assert product == q * DECIMAL_ONE + r;
    assert product * PRECISION_FACTOR / DECIMAL_ONE == product / PRECISION_FACTOR;
    assert product / PRECISION_FACTOR == q * PRECISION_FACTOR + r / PRECISION_FACTOR;
  }

  lemma MulSwap(x: nat, y: nat, z: nat)
    ensures x * y * z == x * z * y
  {
  }

  lemma CountOfProduct(supply: nat, atomics: nat)
    ensures PercentageCount(supply, atomics) == RoundedUp(supply * atomics)
  {
    MulSwap(supply, PRECISION_FACTOR, atomics);
  }

  lemma ShareBelowWhole(product: nat, supply: nat)
    requires product <= supply * DECIMAL_ONE
    ensures product / DECIMAL_ONE < supply
            || (product / DECIMAL_ONE == supply && product % DECIMAL_ONE == 0)
  {
  }

  lemma RoundedUpWithin(product: nat, supply: nat)
    requires product <= supply * DECIMAL_ONE
    ensures RoundedUp(product) <= supply
  {
    hide RoundedUp;
    FixedPoint(product);
    ShareBelowWhole(product, supply);
  }

  /** The count, exactly: the share rounded up, except that a remainder below 10^9 atomics is dropped. */
  lemma PercentageCountExact(supply: Uint128, atomics: nat)
    requires atomics <= DECIMAL_ONE
    ensures var q, r := supply * atomics / DECIMAL_ONE, supply * atomics % DECIMAL_ONE;
            && PercentageCount(supply, atomics) == q + (if r < PRECISION_FACTOR then 0 else 1)
            && PercentageCount(supply, atomics) <= supply
  {
    hide PercentageCount, RoundedUp;
    CountOfProduct(supply, atomics);
    FixedPoint(supply * atomics);
    MulMonotone(supply, atomics, DECIMAL_ONE);
    RoundedUpWithin(supply * atomics, supply);
  }

  lemma CountVersusShare(power: nat, product: nat)
    ensures var q, r := product / DECIMAL_ONE, product % DECIMAL_ONE;
            (power >= q + (if r < PRECISION_FACTOR then 0 else 1) <==> power * DECIMAL_ONE >= product)
            <==> !(power == q && 0 < r < PRECISION_FACTOR)
  {
    var q, r := product / DECIMAL_ONE, product % DECIMAL_ONE;
    assert product == q * DECIMAL_ONE + r;
  }

  /** So the check demands `power >= supply * percent` exactly, unless the power is the share rounded
      down and the dropped remainder is not zero: then it finds the DAO active a fraction short. */
  lemma ActivityExactUnlessRemainderDropped(staked: nat, total: TotalInfo, supply: Uint128, atomics: nat)
    requires atomics <= DECIMAL_ONE
    ensures var power := ActivePower(staked, total);
            var q, r := supply * atomics / DECIMAL_ONE, supply * atomics % DECIMAL_ONE;
            (IsActive(Some(Percentage(atomics)), staked, total, supply)
             <==> power * DECIMAL_ONE >= supply * atomics)
            <==> !(power == q && 0 < r < PRECISION_FACTOR)
  {
    hide PercentageCount, ActivePower;
    PercentageCountExact(supply, atomics);
    CountVersusShare(ActivePower(staked, total), supply * atomics);
  }

  /** The smallest percentage of a one-token supply asks for no power at all. */
  lemma DroppedRemainderExample()
    ensures IsActive(Some(Percentage(1)), 0, NO_TOTAL, 1)
    ensures !(0 * DECIMAL_ONE >= 1 * 1)
  {
  }

  /** The activity check never counts more vesting power than the total power query reports. */
  lemma ActivePowerWithinTotal(r: Record, staked: nat)
    requires RecordOk(r) && staked + TotalVestingPower(r.total) <= U128_MAX
    ensures ActivePower(staked, r.total) <= TotalPowerAt(staked, r.total)
  {
    hide Sum, RecordOk;
    TotalsOfRows(r);
  }

  function ClaimableWeight(): (Addr, VestingData) -> nat {
    (a: Addr, d: VestingData) => d.claimableAmount
  }

  lemma VestedMinusClaimed(r: Record)
    requires RecordOk(r)
    ensures r.total.vestedAmount == r.total.claimedAmount + Sum(r.rows, ClaimableWeight())
  {
    hide Sum, Fits;
    SumPlus(r.rows, ClaimedOf(), ClaimableWeight(), Vested());
  }

  /** What the accounts of the governing snapshot could claim at it, by their queried rows. */
  ghost function ClaimableAt(w: World, height: nat): nat {
    match Governing(w.history, height)
    case Some(r) => Sum(QueriedRows(w.state, r.rows.Keys, height), ClaimableWeight())
    case None => 0
  }

  lemma QueriedClaimable(owner: Addr, birth: Block, calls: seq<Call>, end: Block, height: nat)
    requires Ordered(birth, calls, end) && height > birth.height
    ensures var w := Reached(owner, birth, calls);
            QueryTotal(w.state, height).vestedAmount
            == QueryTotal(w.state, height).claimedAmount + ClaimableAt(w, height)
  {
    hide Run, Sum, QueryAccount, QueryTotal, RecordOk, TotalOf, RowsRecorded, TotalsRecorded, BirthRecorded, AccountsOk;
    var w := Reached(owner, birth, calls);
    ReachedInv(owner, birth, calls, end);
    TotalQueriesRightExceptAtBirth(w, birth.height, end, height);
    var g := Governing(w.history, height);
    if g.Some? {
      GoverningInHistory(w.history, height);
      VestedMinusClaimed(g.value);
      forall a | a in g.value.rows ensures QueryAccount(w.state, a, height) == g.value.rows[a] {
        RowQueriesRight(w, birth.height, end, a, height);
      }
      assert QueriedRows(w.state, g.value.rows.Keys, height) == g.value.rows;
    }
  }

  /** In every reachable world the DAO is active exactly if no threshold is set, or what is staked and what
      the governing snapshot's accounts could claim reach the count, or the percentage's count; a sum beyond
      128 bits counts as none. */
  lemma ActivityExact(owner: Addr, birth: Block, calls: seq<Call>, end: Block, height: nat,
                      threshold: Option<ActiveThreshold>, staked: nat, supply: nat)
    requires Ordered(birth, calls, end) && height > birth.height
    ensures var w := Reached(owner, birth, calls);
            var counted := staked + ClaimableAt(w, height);
            IsActive(threshold, staked, QueryTotal(w.state, height), supply) <==>
              match threshold
              case None => true
              case Some(AbsoluteCount(count)) => count == 0 || count <= counted <= U128_MAX
              case Some(Percentage(atomics)) =>
                PercentageCount(supply, atomics) == 0 || PercentageCount(supply, atomics) <= counted <= U128_MAX
  {
    hide Reached, QueryTotal, ClaimableAt, PercentageCount;
    QueriedClaimable(owner, birth, calls, end, height);
  }
}
