/** What the vesting contract pays out over a run, and when its messages can fail. */
module VestingPayouts {
  import opened Cosmos
  import opened Sums
  import opened Snapshots
  import opened VestingAccounts
  import opened Vesting
  import opened VestingHistory

  // ----- conservation -----

  function Amounts(messages: seq<Transfer>): nat {
    if messages == [] then 0 else messages[0].amount + Amounts(messages[1..])
  }

  /** Tokens paid out on account of `x`, by claims and settlements alike. */
  function Paid(log: seq<Response>, x: Addr): nat {
    if log == [] then 0
    else
      var last := log[|log| - 1];
      Paid(log[..|log| - 1], x)
      + if (last.action.Claimed? || last.action.Deregistered?) && last.action.address == x
        then Amounts(last.messages) else 0
  }

  /** The grants of the accounts of `x` that were deregistered. */
  function Settled(log: seq<Response>, x: Addr): nat {
    if log == [] then 0
    else
      var last := log[|log| - 1];
      Settled(log[..|log| - 1], x)
      + if last.action.Deregistered? && last.action.address == x then last.action.vestingAmount else 0
  }

  /** The grants registered for `x`. */
  function Granted(log: seq<Response>, x: Addr): nat {
    if log == [] then 0
    else
      var last := log[|log| - 1];
      Granted(log[..|log| - 1], x)
      + if last.action.Registered? && last.action.address == x then last.action.vestingAmount else 0
  }

  function GrantOf(accounts: map<Addr, Account>, x: Addr): nat {
    if x in accounts then accounts[x].vestingAmount else 0
  }

  function ClaimedBy(accounts: map<Addr, Account>, x: Addr): nat {
    if x in accounts then accounts[x].claimedAmount else 0
  }

  ghost predicate Balanced(w: World) {
    forall x ::
      && Paid(w.log, x) == Settled(w.log, x) + ClaimedBy(w.state.accounts, x)
      && Granted(w.log, x) == Settled(w.log, x) + GrantOf(w.state.accounts, x)
  }

  lemma LogStep(log: seq<Response>, r: Response, x: Addr)
    ensures var concerned := (r.action.Claimed? || r.action.Deregistered?) && r.action.address == x;
            && Paid(log + [r], x) == Paid(log, x) + (if concerned then Amounts(r.messages) else 0)
            && Settled(log + [r], x) == Settled(log, x)
               + (if r.action.Deregistered? && r.action.address == x then r.action.vestingAmount else 0)
            && Granted(log + [r], x) == Granted(log, x)
               + (if r.action.Registered? && r.action.address == x then r.action.vestingAmount else 0)
  {
    assert (log + [r])[..|log|] == log;
  }

  lemma OneTransfer(t: Transfer)
    ensures Amounts([t]) == t.amount
  {
    assert [t][1..] == [];
  }

  lemma SettlementAmounts(account: Account, vested: nat, claimable: nat, left: nat,
                          vestedRecipient: Option<Addr>, leftRecipient: Option<Addr>, sender: Addr)
    ensures Amounts(Settlement(account, vested, claimable, left, vestedRecipient, leftRecipient, sender))
            == claimable + left
  {
    var messages := Settlement(account, vested, claimable, left, vestedRecipient, leftRecipient, sender);
    if messages != [] {
      assert |messages[1..]| <= 1;
      if |messages| == 1 {
        assert messages[1..] == [];
      } else {
        assert messages[1..] == [messages[1]];
        OneTransfer(messages[1]);
      }
    }
  }

  lemma DeliverKeepsBalanced(w: World, call: Call)
    requires Balanced(w)
    ensures Balanced(Deliver(w, call))
  {
    hide SnapshotStep, Paid, Settled, Granted, Amounts, Account.VestedAmount, Account.Validate, Settlement;
    var env := call.env;
    if Step(w.state, env, call.msg).Success? {
      var r := Step(w.state, env, call.msg).value.response;
      SnapshotAccounts(SnapshotSubject(w.state, env, call.msg), env.block);
      forall x
        ensures var w' := Deliver(w, call);
                && Paid(w'.log, x) == Settled(w'.log, x) + ClaimedBy(w'.state.accounts, x)
                && Granted(w'.log, x) == Settled(w'.log, x) + GrantOf(w'.state.accounts, x)
      {
        LogStep(w.log, r, x);
        match call.msg
        case Claim(_) => OneTransfer(r.messages[0]);
        case DeregisterVestingAccount(address, vestedRecipient, leftRecipient) =>
          SettlementAmounts(w.state.accounts[address], r.action.vested, r.action.claimable, r.action.left,
                            vestedRecipient, leftRecipient, env.sender);
        case _ =>
      }
    }
  }

  lemma {:induction false} RunKeepsBalanced(w: World, calls: seq<Call>)
    requires Balanced(w)
    ensures Balanced(Run(w, calls))
    decreases calls
  {
    hide Balanced, Deliver;
    if calls != [] {
      DeliverKeepsBalanced(w, calls[0]);
      RunKeepsBalanced(Deliver(w, calls[0]), calls[1..]);
    }
  }

  lemma EmptyLog(w: World)
    requires w.log == [] && w.state.accounts == map[]
    ensures Balanced(w)
  {
  }

  /** Over any run and whatever the claim schedule: what was paid on account of an address is the full
      grant of each of its deregistered accounts, to the token, plus what its present account has on
      record as claimed, which is at most what has vested by now and at most the grant. Those grants
      are the registered ones: all that was registered is settled or belongs to the present account. */
  lemma PayoutsConserved(owner: Addr, birth: Block, calls: seq<Call>, end: Block, x: Addr)
    requires Ordered(birth, calls, end)
    ensures var w := Reached(owner, birth, calls);
            && Paid(w.log, x) == Settled(w.log, x) + ClaimedBy(w.state.accounts, x)
            && Granted(w.log, x) == Settled(w.log, x) + GrantOf(w.state.accounts, x)
            && (x in w.state.accounts ==>
                  ClaimedBy(w.state.accounts, x) <= w.state.accounts[x].Vested(end.time)
                    <= w.state.accounts[x].vestingAmount)
  {
    hide Run, Paid, Settled, Granted, HistoryOk, Account.Share;
    var w0 := World(Instantiate(owner, birth.height), [], []);
    assert Balanced(w0) by { EmptyLog(w0); }
    RunKeepsBalanced(w0, calls);
    ReachedInv(owner, birth, calls, end);
    var w := Reached(owner, birth, calls);
    if x in w.state.accounts {
      VestedMonotone(w.state.accounts[x], end.time, end.time);
    }
  }

  // ----- when a snapshot, or a claim, goes through -----

  /** The product that the row of `account` takes at `time`, if any, fits in 128 bits. */
  predicate ProductsFit(account: Account, time: nat) {
    && (account.startTime <= time < account.endTime ==>
          account.vestingAmount * (time - account.startTime) <= U128_MAX)
    && (account.registrationTime <= time < account.startTime ==>
          account.vestingAmount * (time - account.registrationTime) <= U128_MAX)
  }

  lemma RowExact(a: Addr, account: Account, block: Block)
    requires AccountOk(a, account, block.time)
    ensures account.GetVestingData(block).Success? <==> ProductsFit(account, block.time)
    ensures account.GetVestingData(block).Success? ==>
              var d := account.GetVestingData(block).value;
              && d.prevestedAmount == account.Prevested(block.time) && d.vestedAmount == account.Vested(block.time)
              && d.vestingAmount == account.vestingAmount && d.claimedAmount == account.claimedAmount
              && d.claimableAmount == account.Vested(block.time) - account.claimedAmount
              && d.prevestingAmount == account.prevestingAmount && d.registrationTime == account.registrationTime
              && d.startTime == account.startTime && d.endTime == account.endTime
  {
    hide Account.Share;
    ChecksAreExact(account, block);
  }

  function PrevestedAt(time: nat): (Addr, Account) -> nat {
    (a: Addr, account: Account) => account.Prevested(time)
  }

  function VestedAt(time: nat): (Addr, Account) -> nat {
    (a: Addr, account: Account) => account.Vested(time)
  }

  function CountedAt(time: nat): (Addr, Account) -> nat {
    (a: Addr, account: Account) => Min(account.Prevested(time), account.vestingAmount)
  }

  function Grant(): (Addr, Account) -> nat {
    (a: Addr, account: Account) => account.vestingAmount
  }

  ghost predicate RoomAt(accounts: map<Addr, Account>, time: nat) {
    && Sum(accounts, PrevestedAt(time)) <= U128_MAX
    && Sum(accounts, VestedAt(time)) <= U128_MAX
    && Sum(accounts, CountedAt(time)) <= U128_MAX
  }

  /** All products and totals of a snapshot at `time` fit. Claims made so far play no part. */
  ghost predicate Ready(accounts: map<Addr, Account>, time: nat) {
    RoomAt(accounts, time) && forall a :: a in accounts ==> ProductsFit(accounts[a], time)
  }

  lemma TotalsExact(accounts: map<Addr, Account>, block: Block)
    requires AccountsOk(accounts, block.time) && Computable(accounts, block)
    ensures Fits(TotalOf(Rows(accounts, block))) <==> RoomAt(accounts, block.time)
  {
    hide Sum, Account.GetVestingData, AccountOk, Account.Prevested, Account.Vested;
    var rows, time := Rows(accounts, block), block.time;
    forall a | a in rows
      ensures rows[a].prevestedAmount == accounts[a].Prevested(time) && rows[a].vestedAmount == accounts[a].Vested(time)
      ensures rows[a].vestingAmount == accounts[a].vestingAmount && rows[a].claimedAmount <= rows[a].vestedAmount
    {
      RowExact(a, accounts[a], block);
      ComputedRowOk(a, accounts[a], block);
    }
    SumEqual(rows, Prevested(), accounts, PrevestedAt(time));
    SumEqual(rows, Vested(), accounts, VestedAt(time));
    SumEqual(rows, Counted(), accounts, CountedAt(time));
    SumLeq(rows, ClaimedOf(), rows, Vested());
  }

  /** A snapshot fails only because a product or a total does not fit. */
  lemma SnapshotExact(s: State, block: Block)
    requires AccountsOk(s.accounts, block.time)
    ensures SnapshotStep(s, block).Success? <==> block.height >= 1 && Ready(s.accounts, block.time)
    ensures SnapshotStep(s, block).Failure? ==> SnapshotStep(s, block) == Failure(Overflow)
  {
    hide TotalOf, Fits, AccountOk, Account.GetVestingData, ProductsFit, RoomAt;
    forall a | a in s.accounts
      ensures s.accounts[a].GetVestingData(block).Success? <==> ProductsFit(s.accounts[a], block.time)
    {
      RowExact(a, s.accounts[a], block);
    }
    if Computable(s.accounts, block) {
      TotalsExact(s.accounts, block);
    }
  }

  lemma ClaimsIrrelevant(accounts: map<Addr, Account>, a: Addr, claimed: nat, time: nat)
    requires a in accounts
    ensures Ready(accounts[a := accounts[a].(claimedAmount := claimed)], time) <==> Ready(accounts, time)
  {
    hide Sum;
    var accounts' := accounts[a := accounts[a].(claimedAmount := claimed)];
    SumEqual(accounts', PrevestedAt(time), accounts, PrevestedAt(time));
    SumEqual(accounts', VestedAt(time), accounts, VestedAt(time));
    SumEqual(accounts', CountedAt(time), accounts, CountedAt(time));
    assert forall b :: b in accounts ==> (ProductsFit(accounts'[b], time) <==> ProductsFit(accounts[b], time));
  }

  lemma ClaimableNonNegative(a: Addr, account: Account, block: Block)
    requires AccountOk(a, account, block.time)
    ensures account.VestedAmount(block).Success? ==> account.claimedAmount <= account.VestedAmount(block).value
    ensures ProductsFit(account, block.time) ==> account.VestedAmount(block).Success?
    ensures account.VestedAmount(block).Failure? ==> account.VestedAmount(block) == Failure(Overflow)
  {
    ChecksAreExact(account, block);
  }

  /** A claim for a registered account goes through exactly if a snapshot of all accounts does: every
      other account's product and all totals must fit as well. */
  lemma ClaimExact(s: State, env: Env, x: Addr)
    requires AccountsOk(s.accounts, env.block.time) && x in s.accounts
    ensures ExecuteClaim(s, env, Some(x)).Success? <==> env.block.height >= 1 && Ready(s.accounts, env.block.time)
    ensures ExecuteClaim(s, env, Some(x)).Failure? ==> ExecuteClaim(s, env, Some(x)) == Failure(Overflow)
  {
    hide SnapshotStep, Account.VestedAmount, AccountOk, ProductsFit, RoomAt;
    var account := s.accounts[x];
    ClaimableNonNegative(x, account, env.block);
    if account.VestedAmount(env.block).Success? {
      var claimed := account.VestedAmount(env.block).value;
      var s' := s.(accounts := s.accounts[x := account.(claimedAmount := claimed)]);
      ClaimedAccountOk(x, account, env.block);
      SnapshotExact(s', env.block);
      ClaimsIrrelevant(s.accounts, x, claimed, env.block.time);
    }
  }

  /** One account whose row cannot be computed stops the claims of all. */
  lemma OneRowStopsAllClaims(s: State, env: Env, a: Addr, x: Addr)
    requires AccountsOk(s.accounts, env.block.time) && a in s.accounts && x in s.accounts
    requires s.accounts[a].GetVestingData(env.block).Failure?
    ensures ExecuteClaim(s, env, Some(x)) == Failure(Overflow)
  {
    hide AccountOk, Account.GetVestingData, ProductsFit, ExecuteClaim, RoomAt;
    RowExact(a, s.accounts[a], env.block);
    ClaimExact(s, env, x);
  }

  // ----- availability at all later times -----

  ghost predicate AllAffordable(accounts: map<Addr, Account>, time: nat) {
    forall a :: a in accounts ==> accounts[a].Affordable(time)
  }

  /** The instants that decide the totals: the end of all vesting, and the last moment before each start
      still to come (a configured floor above the grant makes the pre-vested total drop at a start). */
  ghost predicate RoomForever(accounts: map<Addr, Account>, time: nat) {
    && Sum(accounts, Grant()) <= U128_MAX
    && forall a :: a in accounts && time < accounts[a].startTime ==>
                     Sum(accounts, PrevestedAt(accounts[a].startTime - 1)) <= U128_MAX
  }

  lemma PrevestedGrows(account: Account, t1: nat, t2: nat)
    requires account.WellFormed() && account.registrationTime <= t1 <= t2
    requires t2 < account.startTime || account.startTime <= t1
    ensures account.Prevested(t1) <= account.Prevested(t2)
  {
    hide Account.Share;
    if t2 < account.startTime {
      ShareBounds(account, t1 - account.registrationTime, t2 - account.registrationTime,
                  account.startTime - account.registrationTime);
    }
  }

  lemma GrantFromStart(account: Account, time: nat)
    requires account.WellFormed() && account.startTime <= time
    ensures account.Prevested(time) == account.vestingAmount
  {
  }

  /** The pre-vested total at any time is at most that of a deciding instant. */
  lemma PrevestedTotalBounded(accounts: map<Addr, Account>, now: nat, time: nat)
    requires AccountsOk(accounts, now) && now <= time && RoomForever(accounts, now)
    ensures Sum(accounts, PrevestedAt(time)) <= U128_MAX
  {
    hide Sum, Account.Prevested, Account.Vested;
    var starts := set a | a in accounts && time < accounts[a].startTime :: accounts[a].startTime;
    if starts == {} {
      forall a | a in accounts ensures accounts[a].Prevested(time) == accounts[a].vestingAmount {
        assert accounts[a].startTime !in starts;
        GrantFromStart(accounts[a], time);
      }
      SumLeq(accounts, PrevestedAt(time), accounts, Grant());
    } else {
      var first := Least(starts);
      var b :| b in accounts && time < accounts[b].startTime && accounts[b].startTime == first;
      forall a | a in accounts ensures accounts[a].Prevested(time) <= accounts[a].Prevested(first - 1) {
        assert time < accounts[a].startTime ==> accounts[a].startTime in starts;
        PrevestedGrows(accounts[a], time, first - 1);
      }
      SumLeq(accounts, PrevestedAt(time), accounts, PrevestedAt(first - 1));
    }
  }

  lemma AffordableFits(a: Addr, account: Account, now: nat, time: nat)
    requires AccountOk(a, account, now) && account.Affordable(now) && now <= time
    ensures ProductsFit(account, time)
  {
    AffordableRow(account, now, Block(0, time));
    AccountAges(a, account, now, time);
    RowExact(a, account, Block(0, time));
  }

  lemma VestedWithinGrant(a: Addr, account: Account, now: nat, time: nat)
    requires AccountOk(a, account, now)
    ensures account.Vested(time) <= account.vestingAmount
  {
    VestedMonotone(account, time, time);
  }

  lemma AvailableIsReady(accounts: map<Addr, Account>, now: nat, time: nat)
    requires AccountsOk(accounts, now) && now <= time
    requires AllAffordable(accounts, now) && RoomForever(accounts, now)
    ensures Ready(accounts, time)
  {
    hide Sum, AccountOk, Account.Affordable, ProductsFit, Account.Prevested, Account.Vested;
    forall a | a in accounts
      ensures ProductsFit(accounts[a], time) && accounts[a].Vested(time) <= accounts[a].vestingAmount
    {
      AffordableFits(a, accounts[a], now, time);
      VestedWithinGrant(a, accounts[a], now, time);
    }
    PrevestedTotalBounded(accounts, now, time);
    SumLeq(accounts, VestedAt(time), accounts, Grant());
    SumLeq(accounts, CountedAt(time), accounts, Grant());
  }

  /** The instants at which an account is most expensive. */
  lemma FitsIsAffordable(account: Account, now: nat)
    requires account.WellFormed() && account.registrationTime <= now
    requires forall time :: now <= time ==> ProductsFit(account, time)
    ensures account.Affordable(now)
  {
    if now < account.startTime {
      assert ProductsFit(account, account.startTime - 1);
    }
    if now < account.endTime {
      assert ProductsFit(account, Max(now, account.endTime - 1));
    }
  }

  function EndTime(): (Addr, Account) -> nat {
    (a: Addr, account: Account) => account.endTime
  }

  /** Once all vesting is over, the vested total is the sum of the grants. */
  lemma FinallyAllGrants(accounts: map<Addr, Account>, now: nat)
    requires AccountsOk(accounts, now)
    ensures Sum(accounts, VestedAt(now + Sum(accounts, EndTime()))) == Sum(accounts, Grant())
  {
    hide Sum, Account.Share;
    var last := now + Sum(accounts, EndTime());
    forall a | a in accounts ensures accounts[a].Vested(last) == accounts[a].vestingAmount {
      SumMember(accounts, EndTime(), a);
    }
    SumEqual(accounts, VestedAt(last), accounts, Grant());
  }

  /** Everything fits at all later times exactly if each account is affordable and the totals fit at the
      deciding instants. */
  lemma ReadyForeverExactly(accounts: map<Addr, Account>, now: nat)
    requires AccountsOk(accounts, now)
    ensures AllAffordable(accounts, now) && RoomForever(accounts, now)
       <==> forall time :: now <= time ==> Ready(accounts, time)
  {
    hide Sum, Account.Affordable, ProductsFit, Account.Prevested, Account.Vested;
    if AllAffordable(accounts, now) && RoomForever(accounts, now) {
      forall time | now <= time ensures Ready(accounts, time) {
        AvailableIsReady(accounts, now, time);
      }
    }
    if forall time :: now <= time ==> Ready(accounts, time) {
      forall a | a in accounts ensures accounts[a].Affordable(now) {
        forall time | now <= time ensures ProductsFit(accounts[a], time) {
          assert Ready(accounts, time);
        }
        FitsIsAffordable(accounts[a], now);
      }
      FinallyAllGrants(accounts, now);
      assert Ready(accounts, now + Sum(accounts, EndTime()));
      forall a | a in accounts && now < accounts[a].startTime
        ensures Sum(accounts, PrevestedAt(accounts[a].startTime - 1)) <= U128_MAX
      {
        assert Ready(accounts, accounts[a].startTime - 1);
      }
    }
  }

  /** The registered accounts can be snapshotted at every later block exactly if each of them is
      affordable and the totals have room: nothing else can make a snapshot fail. */
  lemma SnapshotsAlwaysSucceedExactly(s: State, now: Block)
    requires AccountsOk(s.accounts, now.time) && now.height >= 1
    ensures AllAffordable(s.accounts, now.time) && RoomForever(s.accounts, now.time)
       <==> forall block: Block | now.NotAfter(block) :: SnapshotStep(s, block).Success?
  {
    hide AllAffordable, RoomForever, Ready, SnapshotStep, AccountsOk;
    ReadyForeverExactly(s.accounts, now.time);
    forall block: Block | now.NotAfter(block)
      ensures SnapshotStep(s, block).Success? <==> Ready(s.accounts, block.time)
    {
      AccountsAge(s.accounts, now.time, block.time);
      SnapshotExact(s, block);
    }
    if forall block: Block | now.NotAfter(block) :: SnapshotStep(s, block).Success? {
      forall time | now.time <= time ensures Ready(s.accounts, time) {
        assert now.NotAfter(Block(now.height, time));
        assert SnapshotStep(s, Block(now.height, time)).Success?;
      }
    }
  }

  lemma NothingIsReady(accounts: map<Addr, Account>, time: nat)
    requires accounts == map[]
    ensures Ready(accounts, time)
  {
  }

  /** And every claim for a registered account goes through at every later block, whoever sends it,
      under exactly the same condition on all the accounts. */
  lemma ClaimsAlwaysSucceedExactly(s: State, now: Block)
    requires AccountsOk(s.accounts, now.time) && now.height >= 1
    ensures AllAffordable(s.accounts, now.time) && RoomForever(s.accounts, now.time)
       <==> forall env: Env, x | now.NotAfter(env.block) && x in s.accounts :: ExecuteClaim(s, env, Some(x)).Success?
  {
    hide AllAffordable, RoomForever, Ready, ExecuteClaim, AccountsOk;
    ReadyForeverExactly(s.accounts, now.time);
    forall env: Env, x | now.NotAfter(env.block) && x in s.accounts
      ensures ExecuteClaim(s, env, Some(x)).Success? <==> Ready(s.accounts, env.block.time)
    {
      AccountsAge(s.accounts, now.time, env.block.time);
      ClaimExact(s, env, x);
    }
    if forall env: Env, x | now.NotAfter(env.block) && x in s.accounts :: ExecuteClaim(s, env, Some(x)).Success? {
      forall time | now.time <= time ensures Ready(s.accounts, time) {
        if s.accounts == map[] {
          NothingIsReady(s.accounts, time);
        } else {
          var x :| x in s.accounts;
          assert now.NotAfter(Env(Block(now.height, time), x).block);
          assert ExecuteClaim(s, Env(Block(now.height, time), x), Some(x)).Success?;
        }
      }
    }
  }

  /** A bound on what an account can ever add to any of the totals. */
  function Ceiling(): (Addr, Account) -> nat {
    (a: Addr, account: Account) => Max(account.prevestingAmount, account.vestingAmount)
  }

  lemma WithinCeiling(a: Addr, account: Account, now: nat, time: nat)
    requires AccountOk(a, account, now) && now <= time
    ensures account.Prevested(time) <= Ceiling()(a, account)
  {
    hide Account.Share;
    if time < account.startTime {
      var elapsed := time - account.registrationTime;
      ShareBounds(account, elapsed, elapsed, account.startTime - account.registrationTime);
    }
  }

  /** With ceilings that fit together, affordability alone decides. */
  lemma CeilingsLeaveRoom(accounts: map<Addr, Account>, now: nat)
    requires AccountsOk(accounts, now) && Sum(accounts, Ceiling()) <= U128_MAX
    ensures RoomForever(accounts, now)
  {
    hide Sum, AccountOk, Account.Prevested;
    SumLeq(accounts, Grant(), accounts, Ceiling());
    forall b | b in accounts && now < accounts[b].startTime
      ensures Sum(accounts, PrevestedAt(accounts[b].startTime - 1)) <= U128_MAX
    {
      var time := accounts[b].startTime - 1;
      forall a | a in accounts ensures PrevestedAt(time)(a, accounts[a]) <= Ceiling()(a, accounts[a]) {
        WithinCeiling(a, accounts[a], now, time);
      }
      SumLeq(accounts, PrevestedAt(time), accounts, Ceiling());
    }
  }

  lemma AffordabilityDecides(s: State, now: Block)
    requires AccountsOk(s.accounts, now.time) && now.height >= 1 && Sum(s.accounts, Ceiling()) <= U128_MAX
    ensures AllAffordable(s.accounts, now.time)
       <==> forall block: Block | now.NotAfter(block) :: SnapshotStep(s, block).Success?
    ensures AllAffordable(s.accounts, now.time)
       <==> forall env: Env, x | now.NotAfter(env.block) && x in s.accounts :: ExecuteClaim(s, env, Some(x)).Success?
  {
    hide Sum, AllAffordable, RoomForever, SnapshotStep, ExecuteClaim, AccountsOk;
    CeilingsLeaveRoom(s.accounts, now.time);
    SnapshotsAlwaysSucceedExactly(s, now);
    ClaimsAlwaysSucceedExactly(s, now);
  }

  // ----- a run in which one account stops another's claim -----

  lemma TotalsWithinCeiling(accounts: map<Addr, Account>, time: nat)
    requires AccountsOk(accounts, time) && Sum(accounts, Ceiling()) <= U128_MAX
    ensures RoomAt(accounts, time)
  {
    hide Sum, AccountOk, Account.Prevested, Account.Vested;
    forall a | a in accounts
      ensures accounts[a].Prevested(time) <= Ceiling()(a, accounts[a])
      ensures accounts[a].Vested(time) <= Ceiling()(a, accounts[a])
    {
      WithinCeiling(a, accounts[a], time, time);
      VestedWithinGrant(a, accounts[a], time, time);
    }
    SumLeq(accounts, PrevestedAt(time), accounts, Ceiling());
    SumLeq(accounts, VestedAt(time), accounts, Ceiling());
    SumLeq(accounts, CountedAt(time), accounts, Ceiling());
  }

  lemma TwoAccountsFit(a: Addr, big: Account, b: Addr, small: Account, time: nat)
    requires a != b && AccountOk(a, big, time) && AccountOk(b, small, time)
    requires ProductsFit(big, time) && ProductsFit(small, time)
    requires Ceiling()(a, big) + Ceiling()(b, small) <= U128_MAX
    ensures Ready(map[a := big], time) && Ready(map[a := big, b := small], time)
  {
    hide Sum, Account.Prevested, Account.Vested, ProductsFit;
    var one, two := map[a := big], map[a := big, b := small];
    SumRemove(one, Ceiling(), a);
    SumInsert(one, Ceiling(), b, small);
    assert one - {b} == one && two == one[b := small];
    SumEmpty(one - {a}, Ceiling());
    TotalsWithinCeiling(one, time);
    TotalsWithinCeiling(two, time);
  }

  lemma BigRowFails(big: Account, later: Block)
    requires big.registrationTime == 0 && big.startTime == 10 && big.endTime == 20 && later.time == 5
    requires big.vestingAmount == U128_MAX - 1
    ensures big.GetVestingData(later) == Failure(Overflow)
  {
  }

  lemma AtStart(big: Account, small: Account)
    requires big.registrationTime == 0 && big.startTime == 10 && big.endTime == 20
    requires small.registrationTime == small.startTime == small.endTime == 0
    ensures ProductsFit(big, 0) && ProductsFit(small, 0)
  {
  }

  lemma OwnClaim(s: State, env: Env)
    ensures Step(s, env, Claim(None)) == ExecuteClaim(s, env, Some(env.sender))
  {
  }

  lemma TwoCalls(w: World, calls: seq<Call>)
    requires |calls| == 2
    ensures Run(w, calls) == Deliver(Deliver(w, calls[0]), calls[1])
  {
    hide Deliver;
    assert Run(w, calls) == Run(Deliver(w, calls[0]), calls[1..]);
    assert calls[1..][1..] == [];
  }

  lemma Registers(w: World, call: Call, account: Account)
    requires call.msg.RegisterVestingAccount? && w.state.owner == call.env.sender
    requires call.msg.address !in w.state.accounts && call.env.block.height >= 1
    requires var m := call.msg;
             account == NewAccount(call.env, m.address, m.startTime, m.endTime, m.vestingAmount, m.prevestingAmount)
    requires account.Validate(call.env.block).Success?
    requires var accounts := w.state.accounts[call.msg.address := account];
             AccountsOk(accounts, call.env.block.time) && Ready(accounts, call.env.block.time)
    ensures Deliver(w, call).state.accounts == w.state.accounts[call.msg.address := account]
    ensures Deliver(w, call).state.owner == w.state.owner
    ensures var accounts, block := w.state.accounts[call.msg.address := account], call.env.block;
            && Computable(accounts, block)
            && Deliver(w, call).history
               == w.history + [Record(block.height, Rows(accounts, block), TotalOf(Rows(accounts, block)))]
  {
    hide Ready, AccountsOk, Computable, TotalOf, Fits, SaveRows;
    SnapshotExact(w.state.(accounts := w.state.accounts[call.msg.address := account]), call.env.block);
  }

  /** Registration accepts an unaffordable account beside an affordable one; a little later the owner of
      the affordable one, although its own row can be computed at all times, cannot claim. */
  lemma OneAccountStopsAnother() returns (owner: Addr, birth: Block, calls: seq<Call>, x: Addr, later: Block)
    ensures Ordered(birth, calls, birth) && birth.NotAfter(later)
    ensures var s := Reached(owner, birth, calls).state;
            && x in s.accounts
            && s.accounts[x].Affordable(birth.time)
            && Step(s, Env(later, x), Claim(None)) == Failure(Overflow)
  {
    hide Deliver, ExecuteClaim, Ready, ProductsFit, Account.GetVestingData, Sum;
    owner, birth, x, later := Addr(0), Block(1, 0), Addr(2), Block(2, 5);
    var env, a := Env(birth, owner), Addr(1);
    var first := RegisterVestingAccount(a, 10, 20, U128_MAX - 1, 0);
    var second := RegisterVestingAccount(x, 0, 0, 1, 0);
    calls := [Call(env, first), Call(env, second)];
    assert calls[1..][1..] == [] && Ordered(birth, calls[1..], birth);
    var big, small := NewAccount(env, a, 10, 20, U128_MAX - 1, 0), NewAccount(env, x, 0, 0, 1, 0);
    var w0 := World(Instantiate(owner, 1), [], []);
    var w1, w2 := Deliver(w0, calls[0]), Deliver(Deliver(w0, calls[0]), calls[1]);
    assert Run(w0, calls) == w2 by { TwoCalls(w0, calls); }
    NewAccountOk(env, a, 10, 20, U128_MAX - 1, 0);
    NewAccountOk(env, x, 0, 0, 1, 0);
    AtStart(big, small);
    TwoAccountsFit(a, big, x, small, 0);
    Registers(w0, calls[0], big);
    assert w0.state.accounts[a := big] == map[a := big];
    Registers(w1, calls[1], small);
    assert w2.state.accounts == map[a := big, x := small];
    BigRowFails(big, later);
    AccountsAge(w2.state.accounts, 0, 5);
    OneRowStopsAllClaims(w2.state, Env(later, x), a, x);
    OwnClaim(w2.state, Env(later, x));
  }
}
