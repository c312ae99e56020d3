/** Who holds what in the token: every balance and every allowance is what the messages that went through
    made of it, read off the messages' own fields. */
module TokenMovements {
  import opened Cosmos
  import opened Cw20

  // ----- which messages go through -----

  /** The sender has an allowance that is not over and covers the amount, and the owner holds it. */
  predicate MaySpend(s: State, owner: Addr, call: Call, amount: nat) {
    var key := (owner, call.env.sender);
    && key in s.allowances && !s.allowances[key].expires.IsExpired(call.env.block)
    && amount <= s.allowances[key].amount && amount <= BalanceOf(s.balances, owner)
  }

  /** Exactly when a message goes through, for every kind of message. */
  lemma SucceedsExactly(s: State, call: Call)
    requires Inv(s)
    ensures var sender := call.env.sender;
            Step(s, call.env, call.msg).Success? <==>
              match call.msg
              case TransferTo(_, amount) => 0 < amount <= BalanceOf(s.balances, sender)
              case SendTo(_, amount) => 0 < amount <= BalanceOf(s.balances, sender)
              case TransferFrom(owner, _, amount) => MaySpend(s, owner, call, amount)
              case SendFrom(owner, _, amount) => MaySpend(s, owner, call, amount)
              case IncreaseAllowance(spender, amount, _) =>
                spender != sender && Remaining(s, (sender, spender)) + amount <= U128_MAX
              case DecreaseAllowance(spender, amount, _) =>
                spender != sender && (sender, spender) in s.allowances
              case _ => false
  {
    hide Circulating, Move;
    match call.msg
    case TransferTo(recipient, amount) => MoveExact(s.balances, call.env.sender, recipient, amount);
    case SendTo(contract, amount) => MoveExact(s.balances, call.env.sender, contract, amount);
    case TransferFrom(owner, recipient, amount) => MoveExact(s.balances, owner, recipient, amount);
    case SendFrom(owner, contract, amount) => MoveExact(s.balances, owner, contract, amount);
    case _ =>
  }

  // ----- balances -----

  /** What a message takes from `a`, and what it gives to `a`. */
  function Taken(s: State, call: Call, a: Addr): nat {
    if Step(s, call.env, call.msg).Failure? then 0
    else
      match call.msg
      case TransferTo(_, amount) => if a == call.env.sender then amount else 0
      case SendTo(_, amount) => if a == call.env.sender then amount else 0
      case TransferFrom(owner, _, amount) => if a == owner then amount else 0
      case SendFrom(owner, _, amount) => if a == owner then amount else 0
      case _ => 0
  }

  function Given(s: State, call: Call, a: Addr): nat {
    if Step(s, call.env, call.msg).Failure? then 0
    else
      match call.msg
      case TransferTo(recipient, amount) => if a == recipient then amount else 0
      case SendTo(contract, amount) => if a == contract then amount else 0
      case TransferFrom(_, recipient, amount) => if a == recipient then amount else 0
      case SendFrom(_, contract, amount) => if a == contract then amount else 0
      case _ => 0
  }

  /** A message moves the amount it names from the address it names to the address it names; a transfer to
      oneself changes nothing, and neither does a message that fails or moves no tokens. */
  lemma BalanceMoves(s: State, call: Call, a: Addr)
    requires Inv(s)
    ensures BalanceOf(Deliver(s, call).balances, a) + Taken(s, call, a) == BalanceOf(s.balances, a) + Given(s, call, a)
  {
    hide Circulating, Move;
    match call.msg
    case TransferTo(recipient, amount) => MoveExact(s.balances, call.env.sender, recipient, amount);
    case SendTo(contract, amount) => MoveExact(s.balances, call.env.sender, contract, amount);
    case TransferFrom(owner, recipient, amount) => MoveExact(s.balances, owner, recipient, amount);
    case SendFrom(owner, contract, amount) => MoveExact(s.balances, owner, contract, amount);
    case _ =>
  }

  function RunTaken(s: State, calls: seq<Call>, a: Addr): nat
    decreases calls
  {
    if calls == [] then 0 else Taken(s, calls[0], a) + RunTaken(Deliver(s, calls[0]), calls[1..], a)
  }

  function RunGiven(s: State, calls: seq<Call>, a: Addr): nat
    decreases calls
  {
    if calls == [] then 0 else Given(s, calls[0], a) + RunGiven(Deliver(s, calls[0]), calls[1..], a)
  }

  lemma {:induction false} RunMoves(s: State, calls: seq<Call>, a: Addr)
    requires Inv(s)
    ensures BalanceOf(Run(s, calls).balances, a) + RunTaken(s, calls, a)
         == BalanceOf(s.balances, a) + RunGiven(s, calls, a)
    decreases calls
  {
    hide Inv, Deliver, Taken, Given;
    if calls != [] {
      BalanceMoves(s, calls[0], a);
      StepConserves(s, calls[0]);
      RunMoves(Deliver(s, calls[0]), calls[1..], a);
    }
  }

  /** The amount of the last row that lists `a`. */
  ghost predicate Listed(rows: seq<(Addr, Uint128)>, a: Addr, amount: nat) {
    || (amount == 0 && forall i :: 0 <= i < |rows| ==> rows[i].0 != a)
    || exists i :: 0 <= i < |rows| && rows[i] == (a, amount) && forall j :: i < j < |rows| ==> rows[j].0 != a
  }

  lemma {:induction false} InitialBalanceListed(rows: seq<(Addr, Uint128)>, a: Addr)
    ensures Listed(rows, a, BalanceOf(InitialBalances(rows), a))
  {
    if rows != [] {
      var n := |rows| - 1;
      if rows[n].0 != a {
        InitialBalanceListed(rows[..n], a);
      } else {
        assert rows[n] == (a, BalanceOf(InitialBalances(rows), a));
      }
    }
  }

  /** From creation on, over any run: each address holds what it was last listed with, plus what messages
      that named it as recipient moved to it, minus what messages moved from it. */
  lemma BalancesFollowMessages(rows: seq<(Addr, Uint128)>, calls: seq<Call>, a: Addr)
    requires Supply(rows) <= U128_MAX
    ensures var s0 := State(Supply(rows), InitialBalances(rows), map[]);
            exists listed: nat :: Listed(rows, a, listed) &&
              BalanceOf(Run(s0, calls).balances, a) + RunTaken(s0, calls, a) == listed + RunGiven(s0, calls, a)
  {
    hide Run, RunTaken, RunGiven, Circulating, Listed;
    InitialSupplyExact(rows);
    InitialBalanceListed(rows, a);
    RunMoves(State(Supply(rows), InitialBalances(rows), map[]), calls, a);
  }

  // ----- allowances -----

  function ExpiryOf(s: State, key: (Addr, Addr)): Expiration {
    if key in s.allowances then s.allowances[key].expires else Never
  }

  /** An allowance exists once it was increased and until a decrease takes all of it away; it ends when its
      owner last said, or never. Spending changes neither. */
  lemma AllowanceTerms(s: State, call: Call, key: (Addr, Addr))
    ensures var s', done := Deliver(s, call), Step(s, call.env, call.msg).Success?;
            var byOwner := done && key.0 == call.env.sender;
            && (key in s'.allowances <==>
                  match call.msg
                  case IncreaseAllowance(spender, _, _) => key in s.allowances || (byOwner && key.1 == spender)
                  case DecreaseAllowance(spender, amount, _) =>
                    key in s.allowances && !(byOwner && key.1 == spender && amount >= Remaining(s, key))
                  case _ => key in s.allowances)
            && (key in s'.allowances ==>
                  s'.allowances[key].expires ==
                  match call.msg
                  case IncreaseAllowance(spender, _, Some(e)) =>
                    if byOwner && key.1 == spender then e else ExpiryOf(s, key)
                  case DecreaseAllowance(spender, _, Some(e)) =>
                    if byOwner && key.1 == spender then e else ExpiryOf(s, key)
                  case _ => ExpiryOf(s, key))
  {
    hide Move;
  }
}
