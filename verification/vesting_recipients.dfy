/** Who gets the vested tokens: payments are followed by their recipients, and what they should be is read
    off the messages and the accounts they met. */
module VestingRecipients {
  import opened Cosmos
  import opened Sums
  import opened VestingAccounts
  import opened Vesting
  import opened VestingHistory
  import opened VestingPayouts

  // ----- which messages go through -----

  /** A registration goes through exactly for the owner, a new address, a grant that is not empty and starts
      neither in the past nor after its end, if the snapshot that follows fits. */
  lemma RegisterExact(s: State, env: Env, address: Addr, startTime: nat, endTime: nat,
                      vesting: Uint128, prevesting: Uint128)
    requires AccountsOk(s.accounts, env.block.time)
    ensures var account := Account(address, prevesting, vesting, 0, env.block.time, startTime, endTime);
            Register(s, env, address, startTime, endTime, vesting, prevesting).Success? <==>
              && env.sender == s.owner && address !in s.accounts
              && vesting > 0 && env.block.time <= startTime <= endTime
              && env.block.height >= 1 && Ready(s.accounts[address := account], env.block.time)
  {
    hide SnapshotStep, AccountOk, Ready;
    var account := NewAccount(env, address, startTime, endTime, vesting, prevesting);
    if account.Validate(env.block).Success? {
      NewAccountOk(env, address, startTime, endTime, vesting, prevesting);
      SnapshotExact(s.(accounts := s.accounts[address := account]), env.block);
    }
  }

  /** A removal goes through exactly for the owner and a registered address, if the snapshot of the others
      fits and the account's own vested product does. */
  lemma DeregisterExact(s: State, env: Env, address: Addr, vestedRecipient: Option<Addr>, leftRecipient: Option<Addr>)
    requires AccountsOk(s.accounts, env.block.time)
    ensures Deregister(s, env, address, vestedRecipient, leftRecipient).Success? <==>
              && env.sender == s.owner && address in s.accounts
              && env.block.height >= 1 && Ready(s.accounts - {address}, env.block.time)
              && (s.accounts[address].startTime <= env.block.time < s.accounts[address].endTime ==>
                    s.accounts[address].vestingAmount * (env.block.time - s.accounts[address].startTime) <= U128_MAX)
  {
    hide SnapshotStep, Ready, Account.Vested, Account.VestedAmount;
    if address in s.accounts {
      ChecksAreExact(s.accounts[address], env.block);
      VestedMonotone(s.accounts[address], env.block.time, env.block.time);
      SnapshotExact(s.(accounts := s.accounts - {address}), env.block);
    }
  }

  lemma ClaimsNameTheAccount(s: State, env: Env, recipient: Option<Addr>)
    ensures var x := if recipient.Some? then recipient.value else env.sender;
            ExecuteClaim(s, env, recipient) == ExecuteClaim(s, env, Some(x))
            && (ExecuteClaim(s, env, recipient).Success? ==> x in s.accounts)
  {
    hide SnapshotStep;
  }

  /** Exactly when a message goes through, for every kind of message; claims and snapshots are anyone's. */
  lemma SucceedsExactly(s: State, env: Env, msg: Msg)
    requires AccountsOk(s.accounts, env.block.time)
    ensures var ready := env.block.height >= 1 && Ready(s.accounts, env.block.time);
            Step(s, env, msg).Success? <==>
              match msg
              case UpdateOwnerAddress(_) => env.sender == s.owner
              case RegisterVestingAccount(address, startTime, endTime, vesting, prevesting) =>
                && env.sender == s.owner && address !in s.accounts
                && vesting > 0 && env.block.time <= startTime <= endTime && env.block.height >= 1
                && var account := Account(address, prevesting, vesting, 0, env.block.time, startTime, endTime);
                   Ready(s.accounts[address := account], env.block.time)
              case DeregisterVestingAccount(address, _, _) =>
                && env.sender == s.owner && address in s.accounts
                && env.block.height >= 1 && Ready(s.accounts - {address}, env.block.time)
                && (s.accounts[address].startTime <= env.block.time < s.accounts[address].endTime ==>
                      s.accounts[address].vestingAmount * (env.block.time - s.accounts[address].startTime) <= U128_MAX)
              case Claim(recipient) =>
                (if recipient.Some? then recipient.value else env.sender) in s.accounts && ready
              case TakeSnapshot => ready
  {
    hide SnapshotStep, AccountsOk, Ready, Register, Deregister, ExecuteClaim;
    match msg
    case RegisterVestingAccount(address, startTime, endTime, vesting, prevesting) =>
      RegisterExact(s, env, address, startTime, endTime, vesting, prevesting);
    case DeregisterVestingAccount(address, vestedRecipient, leftRecipient) =>
      DeregisterExact(s, env, address, vestedRecipient, leftRecipient);
    case Claim(recipient) =>
      var x := if recipient.Some? then recipient.value else env.sender;
      ClaimsNameTheAccount(s, env, recipient);
      if x in s.accounts {
        ClaimExact(s, env, x);
      }
    case TakeSnapshot => SnapshotExact(s, env.block);
    case _ =>
  }

  // ----- accounts -----

  ghost predicate SameAccount(s: State, s': State, a: Addr) {
    (a in s'.accounts <==> a in s.accounts) && (a in s.accounts ==> s'.accounts[a] == s.accounts[a])
  }

  lemma SnapshotOwner(s: State, block: Block)
    ensures SnapshotStep(s, block).Success? ==> SnapshotStep(s, block).value.0.owner == s.owner
  {
  }

  lemma VestedIs(a: Addr, account: Account, block: Block)
    requires AccountOk(a, account, block.time)
    ensures account.VestedAmount(block).Success? ==> account.VestedAmount(block).value == account.Vested(block.time)
    ensures account.claimedAmount <= account.Vested(block.time) <= account.vestingAmount
  {
    hide Account.Share;
    ChecksAreExact(account, block);
    VestedMonotone(account, block.time, block.time);
  }

  /** What each message leaves of the account of `a`. */
  lemma AccountFollows(s: State, env: Env, msg: Msg, a: Addr)
    requires AccountsOk(s.accounts, env.block.time) && Step(s, env, msg).Success?
    ensures var s' := Step(s, env, msg).value.state;
            match msg
            case RegisterVestingAccount(address, startTime, endTime, vesting, prevesting) =>
              s'.owner == s.owner &&
              if a == address
              then && a in s'.accounts
                   && s'.accounts[a] == Account(a, prevesting, vesting, 0, env.block.time, startTime, endTime)
              else SameAccount(s, s', a)
            case DeregisterVestingAccount(address, _, _) =>
              s'.owner == s.owner && if a == address then a !in s'.accounts else SameAccount(s, s', a)
            case Claim(recipient) =>
              s'.owner == s.owner &&
              if a == (if recipient.Some? then recipient.value else env.sender)
              then && a in s.accounts && a in s'.accounts
                   && s'.accounts[a] == s.accounts[a].(claimedAmount := s.accounts[a].Vested(env.block.time))
              else SameAccount(s, s', a)
            case UpdateOwnerAddress(address) => env.sender == s.owner && s'.owner == address && SameAccount(s, s', a)
            case TakeSnapshot => s'.owner == s.owner && SameAccount(s, s', a)
  {
    hide SnapshotStep, AccountOk, Account.Vested, Account.VestedAmount, Account.Validate;
    SnapshotAccounts(SnapshotSubject(s, env, msg), env.block);
    SnapshotOwner(SnapshotSubject(s, env, msg), env.block);
    if msg.Claim? {
      var x := if msg.recipient.Some? then msg.recipient.value else env.sender;
      VestedIs(x, s.accounts[x], env.block);
    }
  }

  lemma DeliverKeepsAccounts(w: World, now: Block, call: Call)
    requires AccountsOk(w.state.accounts, now.time) && now.NotAfter(call.env.block)
    ensures AccountsOk(Deliver(w, call).state.accounts, call.env.block.time)
  {
    hide Step, AccountOk;
    AccountsAge(w.state.accounts, now.time, call.env.block.time);
    if Step(w.state, call.env, call.msg).Success? {
      AccountsAfter(w.state, call, now);
    }
  }

  lemma {:induction false} OwnerStays(w: World, now: Block, calls: seq<Call>, end: Block)
    requires AccountsOk(w.state.accounts, now.time) && Ordered(now, calls, end)
    requires forall c :: c in calls ==> !(c.msg.UpdateOwnerAddress? && c.env.sender == w.state.owner)
    ensures Run(w, calls).state.owner == w.state.owner
    decreases calls
  {
    hide Step, AccountsOk;
    if calls != [] {
      AccountsAge(w.state.accounts, now.time, calls[0].env.block.time);
      DeliverKeepsAccounts(w, now, calls[0]);
      if Step(w.state, calls[0].env, calls[0].msg).Success? {
        AccountFollows(w.state, calls[0].env, calls[0].msg, w.state.owner);
      }
      OwnerStays(Deliver(w, calls[0]), calls[0].env.block, calls[1..], end);
    }
  }

  /** The contract belongs to its creator until the creator itself hands it over. */
  lemma CreatorOwns(owner: Addr, birth: Block, calls: seq<Call>, end: Block)
    requires Ordered(birth, calls, end)
    requires forall c :: c in calls ==> !(c.msg.UpdateOwnerAddress? && c.env.sender == owner)
    ensures Reached(owner, birth, calls).state.owner == owner
  {
    hide Run;
    OwnerStays(World(Instantiate(owner, birth.height), [], []), birth, calls, end);
  }

  // ----- payments, by recipient -----

  function ToAddress(messages: seq<Transfer>, x: Addr): nat {
    if messages == [] then 0
    else (if messages[0].recipient == x then messages[0].amount else 0) + ToAddress(messages[1..], x)
  }

  /** The tokens that went to `x`. */
  function Received(log: seq<Response>, x: Addr): nat {
    if log == [] then 0 else Received(log[..|log| - 1], x) + ToAddress(log[|log| - 1].messages, x)
  }

  /** What became due to `x` by claims of its account, as the recipient of settlements, and what its removed
      accounts had claimed. */
  datatype Dues = Dues(claimed: int, settled: int, removed: int)

  const NOTHING_DUE := Dues(0, 0, 0)

  function Plus(a: Dues, b: Dues): Dues {
    Dues(a.claimed + b.claimed, a.settled + b.settled, a.removed + b.removed)
  }

  /** Whoever sends it, a claim is due to the account it is for. A settlement is due to those named for it:
      what has vested by default to the account, the rest by default to the owner, who sends it. */
  ghost function DueBy(s: State, env: Env, msg: Msg, x: Addr): Dues {
    if Step(s, env, msg).Failure? then NOTHING_DUE
    else
      match msg
      case Claim(recipient) =>
        var a := if recipient.Some? then recipient.value else env.sender;
        if a == x && a in s.accounts
        then Dues(s.accounts[a].Vested(env.block.time) - s.accounts[a].claimedAmount, 0, 0)
        else NOTHING_DUE
      case DeregisterVestingAccount(a, vestedRecipient, leftRecipient) =>
        if a !in s.accounts then NOTHING_DUE
        else
          var account, vested := s.accounts[a], s.accounts[a].Vested(env.block.time);
          var ofVested := if vestedRecipient.Some? then vestedRecipient.value else a;
          var ofLeft := if leftRecipient.Some? then leftRecipient.value else s.owner;
          Dues(
            0,
            (if x == ofVested then vested - account.claimedAmount else 0)
            + (if x == ofLeft then account.vestingAmount - vested else 0),
            if x == a then account.claimedAmount else 0)
      case _ => NOTHING_DUE
  }

  ghost function RunDues(w: World, calls: seq<Call>, x: Addr): Dues
    decreases calls
  {
    if calls == [] then NOTHING_DUE
    else Plus(DueBy(w.state, calls[0].env, calls[0].msg, x), RunDues(Deliver(w, calls[0]), calls[1..], x))
  }

  lemma ReceivedNext(log: seq<Response>, r: Response, x: Addr)
    ensures Received(log + [r], x) == Received(log, x) + ToAddress(r.messages, x)
  {
    assert (log + [r])[..|log|] == log;
  }

  lemma OnePayment(t: Transfer, x: Addr)
    ensures ToAddress([t], x) == if t.recipient == x then t.amount else 0
    ensures ToAddress([], x) == 0
  {
    assert [t][1..] == [];
  }

  lemma {:induction false} PaymentsAdd(first: seq<Transfer>, second: seq<Transfer>, x: Addr)
    ensures ToAddress(first + second, x) == ToAddress(first, x) + ToAddress(second, x)
  {
    if first == [] {
      assert first + second == second;
    } else {
      assert (first + second)[1..] == first[1..] + second;
      PaymentsAdd(first[1..], second, x);
    }
  }

  lemma SettlementReaches(account: Account, vested: nat, claimable: nat, left: nat,
                          vestedRecipient: Option<Addr>, leftRecipient: Option<Addr>, sender: Addr, x: Addr)
    ensures var one := if vestedRecipient.Some? then vestedRecipient.value else account.address;
            var other := if leftRecipient.Some? then leftRecipient.value else sender;
            ToAddress(Settlement(account, vested, claimable, left, vestedRecipient, leftRecipient, sender), x)
            == (if x == one then claimable else 0) + (if x == other then left else 0)
  {
    hide ToAddress;
    var one := Transfer(if vestedRecipient.Some? then vestedRecipient.value else account.address, claimable);
    var other := Transfer(if leftRecipient.Some? then leftRecipient.value else sender, left);
    PaymentsAdd(if claimable == 0 then [] else [one], if left == 0 then [] else [other], x);
    OnePayment(one, x);
    OnePayment(other, x);
  }

  lemma ResponsePays(s: State, env: Env, msg: Msg, x: Addr)
    requires AccountsOk(s.accounts, env.block.time) && Step(s, env, msg).Success?
    ensures ToAddress(Step(s, env, msg).value.response.messages, x)
         == DueBy(s, env, msg, x).claimed + DueBy(s, env, msg, x).settled
  {
    hide ToAddress, SnapshotStep, Settlement, Account.Vested, Account.VestedAmount, Account.Validate;
    var r := Step(s, env, msg).value.response;
    OnePayment(Transfer(x, 0), x);
    match msg
    case Claim(recipient) =>
      var a := if recipient.Some? then recipient.value else env.sender;
      VestedIs(a, s.accounts[a], env.block);
      OnePayment(r.messages[0], x);
    case DeregisterVestingAccount(a, vestedRecipient, leftRecipient) =>
      var account, vested := s.accounts[a], s.accounts[a].Vested(env.block.time);
      VestedIs(a, account, env.block);
      SettlementReaches(account, vested, vested - account.claimedAmount, account.vestingAmount - vested,
                        vestedRecipient, leftRecipient, env.sender, x);
    case _ =>
  }

  lemma NothingDueByFailure(s: State, env: Env, msg: Msg, x: Addr)
    ensures Step(s, env, msg).Failure? ==> DueBy(s, env, msg, x) == NOTHING_DUE
  {
    hide Step;
  }

  lemma ClaimsTrack(s: State, env: Env, msg: Msg, x: Addr)
    requires AccountsOk(s.accounts, env.block.time) && Step(s, env, msg).Success?
    ensures ClaimedBy(s.accounts, x) + DueBy(s, env, msg, x).claimed
         == ClaimedBy(Step(s, env, msg).value.state.accounts, x) + DueBy(s, env, msg, x).removed
  {
    hide SnapshotStep, AccountOk, Account.Vested, Account.VestedAmount, Account.Validate;
    AccountFollows(s, env, msg, x);
  }

  /** A message pays each address exactly what it makes due to it; and what a claim makes due is what it adds
      to the claimed amount on record. */
  lemma DeliverPays(w: World, now: Block, call: Call, x: Addr)
    requires AccountsOk(w.state.accounts, now.time) && now.NotAfter(call.env.block)
    ensures var w', due := Deliver(w, call), DueBy(w.state, call.env, call.msg, x);
            && Received(w'.log, x) == Received(w.log, x) + due.claimed + due.settled
            && ClaimedBy(w.state.accounts, x) + due.claimed == ClaimedBy(w'.state.accounts, x) + due.removed
  {
    hide Step, DueBy, Received, AccountOk;
    AccountsAge(w.state.accounts, now.time, call.env.block.time);
    NothingDueByFailure(w.state, call.env, call.msg, x);
    if Step(w.state, call.env, call.msg).Success? {
      ReceivedNext(w.log, Step(w.state, call.env, call.msg).value.response, x);
      ResponsePays(w.state, call.env, call.msg, x);
      ClaimsTrack(w.state, call.env, call.msg, x);
    }
  }

  lemma {:induction false} RunPays(w: World, now: Block, calls: seq<Call>, end: Block, x: Addr)
    requires AccountsOk(w.state.accounts, now.time) && Ordered(now, calls, end)
    ensures var w', due := Run(w, calls), RunDues(w, calls, x);
            && Received(w'.log, x) == Received(w.log, x) + due.claimed + due.settled
            && ClaimedBy(w.state.accounts, x) + due.claimed == ClaimedBy(w'.state.accounts, x) + due.removed
    decreases calls
  {
    hide Deliver, DueBy, Received, AccountsOk, ClaimedBy;
    if calls != [] {
      DeliverPays(w, now, calls[0], x);
      DeliverKeepsAccounts(w, now, calls[0]);
      RunPays(Deliver(w, calls[0]), calls[0].env.block, calls[1..], end, x);
    }
  }

  /** Over any run, by the recipients of the transfers: an address has received exactly what claims of its
      own accounts and settlements that name it made due, and the claims are the claimed amounts on record,
      of its present account and of its removed ones. */
  lemma ReceivedExactly(owner: Addr, birth: Block, calls: seq<Call>, end: Block, x: Addr)
    requires Ordered(birth, calls, end)
    ensures var w, due := Reached(owner, birth, calls),
                          RunDues(World(Instantiate(owner, birth.height), [], []), calls, x);
            && Received(w.log, x) == due.claimed + due.settled
            && due.claimed == ClaimedBy(w.state.accounts, x) + due.removed
  {
    hide Run, RunDues;
    RunPays(World(Instantiate(owner, birth.height), [], []), birth, calls, end, x);
  }
}
