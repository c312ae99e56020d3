/** The token: balances and allowances as a state machine. */
module Cw20 {
  import opened Cosmos
  import opened Sums

  datatype Allowance = Allowance(amount: nat, expires: Expiration)

  datatype State = State(
    totalSupply: nat,
    balances: map<Addr, nat>,
    allowances: map<(Addr, Addr), Allowance>)

  datatype Env = Env(block: Block, sender: Addr)

  datatype Msg =
    | TransferTo(recipient: Addr, amount: Uint128)
    | SendTo(contract: Addr, amount: Uint128)
    | IncreaseAllowance(spender: Addr, amount: Uint128, expires: Option<Expiration>)
    | DecreaseAllowance(spender: Addr, amount: Uint128, expires: Option<Expiration>)
    | TransferFrom(owner: Addr, recipient: Addr, amount: Uint128)
    | SendFrom(owner: Addr, contract: Addr, amount: Uint128)
    | Mint(recipient: Addr, amount: Uint128)
    | Burn(amount: Uint128)
    | BurnFrom(owner: Addr, amount: Uint128)

  function BalanceOf(balances: map<Addr, nat>, a: Addr): nat {
    if a in balances then balances[a] else 0
  }

  /** Debit, then credit; a self-transfer does both on one entry. */
  function Move(balances: map<Addr, nat>, source: Addr, target: Addr, amount: nat): Result<map<Addr, nat>> {
    var left :- CheckedSub(BalanceOf(balances, source), amount);
    var debited := balances[source := left];
    var held :- CheckedAdd(BalanceOf(debited, target), amount);
    Success(debited[target := held])
  }

  function ExecuteTransfer(s: State, env: Env, recipient: Addr, amount: Uint128): Result<State> {
    if amount == 0 then Failure(InvalidZeroAmount)
    else
      var balances :- Move(s.balances, env.sender, recipient, amount);
      Success(s.(balances := balances))
  }

  function ExecuteIncrease(s: State, env: Env, spender: Addr, amount: Uint128, expires: Option<Expiration>)
    : Result<State>
  {
    if spender == env.sender then Failure(CannotSetOwnAccount)
    else
      var key := (env.sender, spender);
      var current := if key in s.allowances then s.allowances[key] else Allowance(0, Never);
      var amount' :- CheckedAdd(current.amount, amount);
      Success(s.(allowances := s.allowances[
        key := Allowance(amount', if expires.Some? then expires.value else current.expires)]))
  }

  function ExecuteDecrease(s: State, env: Env, spender: Addr, amount: Uint128, expires: Option<Expiration>)
    : Result<State>
  {
    if spender == env.sender then Failure(CannotSetOwnAccount)
    else
      var key := (env.sender, spender);
      if key !in s.allowances then Failure(NotFound)
      else
        var current := s.allowances[key];
        if amount < current.amount then
          Success(s.(allowances := s.allowances[
            key := Allowance(current.amount - amount, if expires.Some? then expires.value else current.expires)]))
        else
          Success(s.(allowances := s.allowances - {key}))
  }

  function DeductAllowance(allowances: map<(Addr, Addr), Allowance>, key: (Addr, Addr), block: Block, amount: nat)
    : Result<map<(Addr, Addr), Allowance>>
  {
    if key !in allowances then Failure(NoAllowance)
    else if allowances[key].expires.IsExpired(block) then Failure(AllowanceExpired)
    else
      var left :- CheckedSub(allowances[key].amount, amount);
      Success(allowances[key := allowances[key].(amount := left)])
  }

  function ExecuteTransferFrom(s: State, env: Env, owner: Addr, recipient: Addr, amount: Uint128): Result<State> {
    var allowances :- DeductAllowance(s.allowances, (owner, env.sender), env.block, amount);
    var balances :- Move(s.balances, owner, recipient, amount);
    Success(s.(balances := balances, allowances := allowances))
  }

  /** Sending differs from transferring only in the message delivered to the receiving contract. */
  function Step(s: State, env: Env, msg: Msg): Result<State> {
    match msg
    case TransferTo(recipient, amount) => ExecuteTransfer(s, env, recipient, amount)
    case SendTo(contract, amount) => ExecuteTransfer(s, env, contract, amount)
    case IncreaseAllowance(spender, amount, expires) => ExecuteIncrease(s, env, spender, amount, expires)
    case DecreaseAllowance(spender, amount, expires) => ExecuteDecrease(s, env, spender, amount, expires)
    case TransferFrom(owner, recipient, amount) => ExecuteTransferFrom(s, env, owner, recipient, amount)
    case SendFrom(owner, contract, amount) => ExecuteTransferFrom(s, env, owner, contract, amount)
    case Mint(_, _) => Failure(Unauthorized)
    case Burn(_) => Failure(Unauthorized)
    case BurnFrom(_, _) => Failure(Unauthorized)
  }

  datatype Call = Call(env: Env, msg: Msg)

  function Deliver(s: State, call: Call): State {
    match Step(s, call.env, call.msg)
    case Success(s') => s'
    case Failure(_) => s
  }

  function Run(s: State, calls: seq<Call>): State
    decreases calls
  {
    if calls == [] then s else Run(Deliver(s, calls[0]), calls[1..])
  }

  // ----- creation -----

  /** Later rows overwrite earlier ones of the same address. */
  function InitialBalances(rows: seq<(Addr, Uint128)>): map<Addr, nat> {
    if rows == [] then map[]
    else
      var n := |rows| - 1;
      InitialBalances(rows[..n])[rows[n].0 := rows[n].1]
  }

  function Supply(rows: seq<(Addr, Uint128)>): nat {
    if rows == [] then 0 else Supply(rows[..|rows| - 1]) + rows[|rows| - 1].1
  }

  ghost function Circulating(balances: map<Addr, nat>): nat {
    Sum(balances, Amount())
  }

  /** No address with tokens is listed again. */
  ghost predicate NothingOverwritten(rows: seq<(Addr, Uint128)>) {
    forall i, j :: 0 <= i < j < |rows| && rows[i].0 == rows[j].0 ==> rows[i].1 == 0
  }

  lemma {:induction false} LastRowWins(rows: seq<(Addr, Uint128)>, a: Addr)
    ensures (forall i :: 0 <= i < |rows| && rows[i].0 == a ==> rows[i].1 == 0)
            ==> BalanceOf(InitialBalances(rows), a) == 0
    ensures NothingOverwritten(rows) && BalanceOf(InitialBalances(rows), a) == 0 ==>
              forall i :: 0 <= i < |rows| && rows[i].0 == a ==> rows[i].1 == 0
  {
    if rows != [] {
      LastRowWins(rows[..|rows| - 1], a);
    }
  }

  lemma SetBalance(balances: map<Addr, nat>, a: Addr, n: nat)
    ensures Circulating(balances[a := n]) + BalanceOf(balances, a) == Circulating(balances) + n
  {
    hide Sum;
    SumInsert(balances, Amount(), a, n);
    if a in balances {
      SumRemove(balances, Amount(), a);
    } else {
      SumAbsent(balances, Amount(), a);
    }
  }

  /** Initial balances never exceed the supply they are counted into, and match it exactly if nothing
      was overwritten; a list of distinct addresses is one such case. */
  lemma {:induction false} InitialSupplyExact(rows: seq<(Addr, Uint128)>)
    ensures Circulating(InitialBalances(rows)) <= Supply(rows)
    ensures Circulating(InitialBalances(rows)) == Supply(rows) <==> NothingOverwritten(rows)
  {
    hide Sum;
    if rows == [] {
      SumEmpty(InitialBalances(rows), Amount());
    } else {
      var n := |rows| - 1;
      var (a, amount) := rows[n];
      var before := InitialBalances(rows[..n]);
      InitialSupplyExact(rows[..n]);
      LastRowWins(rows[..n], a);
      SetBalance(before, a, amount);
      assert NothingOverwritten(rows) <==>
               NothingOverwritten(rows[..n]) && forall i :: 0 <= i < n && rows[..n][i].0 == a ==> rows[..n][i].1 == 0;
    }
  }

  // ----- conservation -----

  lemma HoldingsWithinCirculation(balances: map<Addr, nat>, a: Addr)
    ensures BalanceOf(balances, a) <= Circulating(balances)
  {
    if a in balances {
      SumMember(balances, Amount(), a);
    }
  }

  /** Given that circulation fits in 128 bits, a movement succeeds exactly if the source holds the
      amount: the credit cannot overflow. Nothing is created or destroyed, self-transfers included,
      and only the two parties' balances change. */
  lemma MoveExact(balances: map<Addr, nat>, source: Addr, target: Addr, amount: nat)
    requires Circulating(balances) <= U128_MAX
    ensures var r := Move(balances, source, target, amount);
            && (r.Success? <==> amount <= BalanceOf(balances, source))
            && (r.Success? ==>
                  && Circulating(r.value) == Circulating(balances)
                  && (source == target ==> BalanceOf(r.value, source) == BalanceOf(balances, source))
                  && (source != target ==>
                        && BalanceOf(r.value, source) + amount == BalanceOf(balances, source)
                        && BalanceOf(r.value, target) == BalanceOf(balances, target) + amount)
                  && forall a :: a != source && a != target ==> BalanceOf(r.value, a) == BalanceOf(balances, a))
  {
    hide Sum;
    if amount <= BalanceOf(balances, source) {
      var debited := balances[source := BalanceOf(balances, source) - amount];
      SetBalance(balances, source, BalanceOf(balances, source) - amount);
      HoldingsWithinCirculation(debited, target);
      SetBalance(debited, target, BalanceOf(debited, target) + amount);
    }
  }

  ghost predicate Inv(s: State) {
    Circulating(s.balances) <= s.totalSupply <= U128_MAX
  }

  lemma StepConserves(s: State, call: Call)
    requires Inv(s)
    ensures var s' := Deliver(s, call);
            Inv(s') && Circulating(s'.balances) == Circulating(s.balances) && s'.totalSupply == s.totalSupply
  {
    hide Circulating, Move;
    match call.msg
    case TransferTo(recipient, amount) => MoveExact(s.balances, call.env.sender, recipient, amount);
    case SendTo(contract, amount) => MoveExact(s.balances, call.env.sender, contract, amount);
    case TransferFrom(owner, recipient, amount) => MoveExact(s.balances, owner, recipient, amount);
    case SendFrom(owner, contract, amount) => MoveExact(s.balances, owner, contract, amount);
    case _ =>
  }

  /** No run changes the supply or the sum of the balances. */
  lemma {:induction false} TokensConserved(s: State, calls: seq<Call>)
    requires Inv(s)
    ensures var s' := Run(s, calls);
            Inv(s') && Circulating(s'.balances) == Circulating(s.balances) && s'.totalSupply == s.totalSupply
    decreases calls
  {
    hide Circulating, Deliver, Inv;
    if calls != [] {
      StepConserves(s, calls[0]);
      TokensConserved(Deliver(s, calls[0]), calls[1..]);
    }
  }

  /** From creation on, over any run: the supply never changes, balances add up to what they added up
      to at creation, which is at most the supply, and is the supply exactly if no initial balance was
      overwritten. */
  lemma SupplyBacksBalances(rows: seq<(Addr, Uint128)>, calls: seq<Call>)
    requires Supply(rows) <= U128_MAX
    ensures var s := Run(State(Supply(rows), InitialBalances(rows), map[]), calls);
            && Circulating(s.balances) <= s.totalSupply == Supply(rows)
            && (Circulating(s.balances) == s.totalSupply <==> NothingOverwritten(rows))
  {
    hide Circulating, Run, NothingOverwritten;
    InitialSupplyExact(rows);
    TokensConserved(State(Supply(rows), InitialBalances(rows), map[]), calls);
  }

  // ----- allowances -----

  function Remaining(s: State, key: (Addr, Addr)): nat {
    if key in s.allowances then s.allowances[key].amount else 0
  }

  /** What happened to one allowance over a run. */
  datatype Movements = Movements(increased: nat, decreased: nat, spent: nat)

  function Plus(a: Movements, b: Movements): Movements {
    Movements(a.increased + b.increased, a.decreased + b.decreased, a.spent + b.spent)
  }

  /** A decrease takes away no more than there is. */
  function MovementsOf(s: State, call: Call, key: (Addr, Addr)): Movements {
    if Step(s, call.env, call.msg).Failure? then Movements(0, 0, 0)
    else
      match call.msg
      case IncreaseAllowance(spender, amount, _) =>
        Movements(if key == (call.env.sender, spender) then amount else 0, 0, 0)
      case DecreaseAllowance(spender, amount, _) =>
        Movements(0, if key == (call.env.sender, spender) then Min(amount, Remaining(s, key)) else 0, 0)
      case TransferFrom(owner, _, amount) =>
        Movements(0, 0, if key == (owner, call.env.sender) then amount else 0)
      case SendFrom(owner, _, amount) =>
        Movements(0, 0, if key == (owner, call.env.sender) then amount else 0)
      case _ => Movements(0, 0, 0)
  }

  function RunMovements(s: State, calls: seq<Call>, key: (Addr, Addr)): Movements
    decreases calls
  {
    if calls == [] then Movements(0, 0, 0)
    else Plus(MovementsOf(s, calls[0], key), RunMovements(Deliver(s, calls[0]), calls[1..], key))
  }

  lemma StepBalancesAllowance(s: State, call: Call, key: (Addr, Addr))
    ensures var m := MovementsOf(s, call, key);
            Remaining(s, key) + m.increased == Remaining(Deliver(s, call), key) + m.spent + m.decreased
  {
    hide Move;
  }

  /** For each owner and spender, over any run: what remains, was spent and was taken back adds up to
      what was there and what was added. So a spender never moves more than was ever granted. */
  lemma {:induction false} AllowancesConserved(s: State, calls: seq<Call>, key: (Addr, Addr))
    ensures var m := RunMovements(s, calls, key);
            Remaining(s, key) + m.increased == Remaining(Run(s, calls), key) + m.spent + m.decreased
    decreases calls
  {
    hide Deliver, MovementsOf;
    if calls != [] {
      StepBalancesAllowance(s, calls[0], key);
      AllowancesConserved(Deliver(s, calls[0]), calls[1..], key);
    }
  }

  /** Only a message of the owner, or a movement of the owner's tokens by a spender with a live
      allowance that covers it, can lower a balance. */
  lemma DebitsAreAuthorised(s: State, call: Call, owner: Addr)
    requires Inv(s) && BalanceOf(Deliver(s, call).balances, owner) < BalanceOf(s.balances, owner)
    ensures || ((call.msg.TransferTo? || call.msg.SendTo?) && call.env.sender == owner)
            || ((call.msg.TransferFrom? || call.msg.SendFrom?) && call.msg.owner == owner
                && call.msg.amount <= Remaining(s, (owner, call.env.sender))
                && (owner, call.env.sender) in s.allowances
                && !s.allowances[(owner, call.env.sender)].expires.IsExpired(call.env.block))
  {
    hide Circulating, Move;
    match call.msg
    case TransferTo(recipient, amount) => MoveExact(s.balances, call.env.sender, recipient, amount);
    case SendTo(contract, amount) => MoveExact(s.balances, call.env.sender, contract, amount);
    case TransferFrom(from, recipient, amount) => MoveExact(s.balances, from, recipient, amount);
    case SendFrom(from, contract, amount) => MoveExact(s.balances, from, contract, amount);
    case _ =>
  }
}

/** The token contract as it runs, proved against its steps in `Cw20`. */
module Cw20Contract {
  import opened Cosmos
  import T = Cw20

  ghost predicate Implements(r: Result<()>, after: T.State, step: Result<T.State>) {
    match step
    case Success(s) => r == Success(()) && after == s
    case Failure(error) => r == Failure(error)
  }

  lemma {:induction false} SupplyGrows(rows: seq<(Addr, Uint128)>, i: nat)
    requires i <= |rows|
    ensures T.Supply(rows[..i]) <= T.Supply(rows)
    decreases |rows| - i
  {
    if i < |rows| {
      assert rows[..i + 1][..i] == rows[..i];
      SupplyGrows(rows, i + 1);
    } else {
      assert rows[..i] == rows;
    }
  }

  class TokenModule {
    var totalSupply: nat
    var balances: map<Addr, nat>
    var allowances: map<(Addr, Addr), T.Allowance>

    ghost function View(): T.State
      reads this
    {
      T.State(totalSupply, balances, allowances)
    }

    constructor ()
      ensures View() == T.State(0, map[], map[])
    {
      totalSupply, balances, allowances := 0, map[], map[];
    }

    /** Fails if the supply does not fit. */
    method CreateAccounts(rows: seq<(Addr, Uint128)>) returns (r: Result<()>)
      requires View() == T.State(0, map[], map[])
      modifies this
      ensures r.Success? <==> T.Supply(rows) <= U128_MAX
      ensures r.Failure? ==> r.error == Overflow
      ensures r.Success? ==> View() == T.State(T.Supply(rows), T.InitialBalances(rows), map[])
    {
      var supply := 0;
      for i := 0 to |rows|
        invariant balances == T.InitialBalances(rows[..i])
        invariant supply == T.Supply(rows[..i]) <= U128_MAX
        invariant totalSupply == 0 && allowances == map[]
      {
        var (address, amount) := rows[i];
        balances := balances[address := amount];
        assert rows[..i + 1][..i] == rows[..i];
        SupplyGrows(rows, i + 1);
        supply :- CheckedAdd(supply, amount);
      }
      assert rows[..|rows|] == rows;
      totalSupply := supply;
      return Success(());
    }

    method Debit(a: Addr, amount: nat) returns (r: Result<()>)
      modifies this`balances
      ensures r == if amount <= T.BalanceOf(old(balances), a) then Success(()) else Failure(Overflow)
      ensures r.Success? ==> balances == old(balances)[a := T.BalanceOf(old(balances), a) - amount]
    {
      var left :- CheckedSub(T.BalanceOf(balances, a), amount);
      balances := balances[a := left];
      return Success(());
    }

    method Credit(a: Addr, amount: nat) returns (r: Result<()>)
      modifies this`balances
      ensures r == if T.BalanceOf(old(balances), a) + amount <= U128_MAX then Success(()) else Failure(Overflow)
      ensures r.Success? ==> balances == old(balances)[a := T.BalanceOf(old(balances), a) + amount]
    {
      var held :- CheckedAdd(T.BalanceOf(balances, a), amount);
      balances := balances[a := held];
      return Success(());
    }

    /** `execute_transfer`, and `execute_send` up to the message it adds. */
    method ExecuteTransfer(env: T.Env, recipient: Addr, amount: Uint128) returns (r: Result<()>)
      modifies this`balances
      ensures Implements(r, View(), T.ExecuteTransfer(old(View()), env, recipient, amount))
    {
      if amount == 0 {
        return Failure(InvalidZeroAmount);
      }
      var _ :- Debit(env.sender, amount);
      r := Credit(recipient, amount);
    }

    method ExecuteIncreaseAllowance(env: T.Env, spender: Addr, amount: Uint128, expires: Option<Expiration>)
      returns (r: Result<()>)
      modifies this`allowances
      ensures Implements(r, View(), T.ExecuteIncrease(old(View()), env, spender, amount, expires))
    {
      if spender == env.sender {
        return Failure(CannotSetOwnAccount);
      }
      var key := (env.sender, spender);
      var val := if key in allowances then allowances[key] else T.Allowance(0, Never);
      if expires.Some? {
        val := val.(expires := expires.value);
      }
      var raised :- CheckedAdd(val.amount, amount);
      allowances := allowances[key := val.(amount := raised)];
      return Success(());
    }

    method ExecuteDecreaseAllowance(env: T.Env, spender: Addr, amount: Uint128, expires: Option<Expiration>)
      returns (r: Result<()>)
      modifies this`allowances
      ensures Implements(r, View(), T.ExecuteDecrease(old(View()), env, spender, amount, expires))
    {
      if spender == env.sender {
        return Failure(CannotSetOwnAccount);
      }
      var key := (env.sender, spender);
      if key !in allowances {
        return Failure(NotFound);
      }
      var val := allowances[key];
      if amount < val.amount {
        val := val.(amount := val.amount - amount);
        if expires.Some? {
          val := val.(expires := expires.value);
        }
        allowances := allowances[key := val];
      } else {
        allowances := allowances - {key};
      }
      return Success(());
    }

    method DeductAllowance(owner: Addr, spender: Addr, block: Block, amount: nat) returns (r: Result<()>)
      modifies this`allowances
      ensures match T.DeductAllowance(old(allowances), (owner, spender), block, amount)
              case Success(after) => r == Success(()) && allowances == after
              case Failure(error) => r == Failure(error)
    {
      var key := (owner, spender);
      if key !in allowances {
        return Failure(NoAllowance);
      }
      var val := allowances[key];
      if val.expires.IsExpired(block) {
        return Failure(AllowanceExpired);
      }
      var left :- CheckedSub(val.amount, amount);
      allowances := allowances[key := val.(amount := left)];
      return Success(());
    }

    /** `execute_transfer_from`, and `execute_send_from` up to the message it adds. */
    method ExecuteTransferFrom(env: T.Env, owner: Addr, recipient: Addr, amount: Uint128) returns (r: Result<()>)
      modifies this`balances, this`allowances
      ensures Implements(r, View(), T.ExecuteTransferFrom(old(View()), env, owner, recipient, amount))
    {
      var _ :- DeductAllowance(owner, env.sender, env.block, amount);
      var _ :- Debit(owner, amount);
      r := Credit(recipient, amount);
    }

    /** One message, with the chain's rollback of failed ones. */
    method Execute(env: T.Env, msg: T.Msg) returns (r: Result<()>)
      modifies this
      ensures match T.Step(old(View()), env, msg)
              case Success(s) => r == Success(()) && View() == s
              case Failure(error) => r == Failure(error) && View() == old(View())
    {
      hide T.ExecuteTransfer, T.ExecuteIncrease, T.ExecuteDecrease, T.ExecuteTransferFrom;
      var saved := (totalSupply, balances, allowances);
      match msg {
        case TransferTo(recipient, amount) => r := ExecuteTransfer(env, recipient, amount);
        case SendTo(contract, amount) => r := ExecuteTransfer(env, contract, amount);
        case IncreaseAllowance(spender, amount, expires) =>
          r := ExecuteIncreaseAllowance(env, spender, amount, expires);
        case DecreaseAllowance(spender, amount, expires) =>
          r := ExecuteDecreaseAllowance(env, spender, amount, expires);
        case TransferFrom(owner, recipient, amount) => r := ExecuteTransferFrom(env, owner, recipient, amount);
        case SendFrom(owner, contract, amount) => r := ExecuteTransferFrom(env, owner, contract, amount);
        case _ => r := Failure(Unauthorized);
      }
      if r.Failure? {
        totalSupply, balances, allowances := saved.0, saved.1, saved.2;
      }
    }
  }
}
