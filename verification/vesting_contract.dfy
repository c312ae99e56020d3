/** The vesting contract as it runs: storage items and the loops of `snapshot`. Every method is proved
    against its step in `Vesting`. */
module VestingContract {
  import opened Cosmos
  import opened Sums
  import opened Snapshots
  import opened VestingAccounts
  import V = Vesting

  // ----- rows in the order they were collected -----

  ghost predicate Distinct(rows: seq<(Addr, VestingData)>) {
    forall i, j :: 0 <= i < j < |rows| ==> rows[i].0 != rows[j].0
  }

  ghost function AsMap(rows: seq<(Addr, VestingData)>): (m: map<Addr, VestingData>)
    ensures forall a :: a in m <==> exists i :: 0 <= i < |rows| && rows[i].0 == a
  {
    if rows == [] then map[]
    else
      var n := |rows| - 1;
      assert forall i :: 0 <= i < n ==> rows[..n][i] == rows[i];
      AsMap(rows[..n])[rows[n].0 := rows[n].1]
  }

  lemma AsMapNext(rows: seq<(Addr, VestingData)>, i: nat)
    requires i < |rows| && Distinct(rows)
    ensures AsMap(rows[..i + 1]) == AsMap(rows[..i])[rows[i].0 := rows[i].1]
    ensures rows[i].0 !in AsMap(rows[..i])
  {
    assert rows[..i + 1][..i] == rows[..i];
  }

  lemma Pushed(rows: seq<(Addr, VestingData)>, a: Addr, row: VestingData)
    requires Distinct(rows) && a !in AsMap(rows)
    ensures Distinct(rows + [(a, row)]) && AsMap(rows + [(a, row)]) == AsMap(rows)[a := row]
  {
    assert (rows + [(a, row)])[..|rows|] == rows;
  }

  lemma SumNext(rows: seq<(Addr, VestingData)>, i: nat, weight: (Addr, VestingData) -> nat)
    requires i < |rows| && Distinct(rows)
    ensures Sum(AsMap(rows[..i + 1]), weight) == Sum(AsMap(rows[..i]), weight) + weight(rows[i].0, rows[i].1)
  {
    hide Sum, AsMap;
    AsMapNext(rows, i);
    SumInsert(AsMap(rows[..i]), weight, rows[i].0, rows[i].1);
    SumAbsent(AsMap(rows[..i]), weight, rows[i].0);
  }

  lemma {:induction false} SumGrows(rows: seq<(Addr, VestingData)>, i: nat, j: nat, weight: (Addr, VestingData) -> nat)
    requires i <= j <= |rows| && Distinct(rows)
    ensures Sum(AsMap(rows[..i]), weight) <= Sum(AsMap(rows[..j]), weight)
    decreases j - i
  {
    hide Sum, AsMap, Distinct;
    if i < j {
      SumNext(rows, i, weight);
      SumGrows(rows, i + 1, j, weight);
    }
  }

  lemma SaveNext(data: map<Addr, Snapshot<VestingData>>, rows: map<Addr, VestingData>,
                 a: Addr, row: VestingData, height: nat)
    requires a !in rows
    ensures var saved := V.SaveRows(data, rows, height);
            saved[a := V.SnapshotOf(saved, a).Save(row, height)] == V.SaveRows(data, rows[a := row], height)
  {
    hide Snapshot.Save;
  }

  lemma EmptyRows(rows: seq<(Addr, VestingData)>)
    requires rows == []
    ensures Distinct(rows) && AsMap(rows) == map[]
  {
  }

  /** Once a partial total is too large, so is the whole. */
  lemma TotalsGrow(rows: seq<(Addr, VestingData)>, i: nat)
    requires i <= |rows| && Distinct(rows)
    ensures V.Fits(V.TotalOf(AsMap(rows))) ==> V.Fits(V.TotalOf(AsMap(rows[..i])))
  {
    hide Sum, AsMap, Distinct;
    assert rows[..|rows|] == rows;
    SumGrows(rows, i, |rows|, V.Prevested());
    SumGrows(rows, i, |rows|, V.Vested());
    SumGrows(rows, i, |rows|, V.ClaimedOf());
    SumGrows(rows, i, |rows|, V.Counted());
  }

  lemma NothingSaved(data: map<Addr, Snapshot<VestingData>>, rows: seq<(Addr, VestingData)>, height: nat)
    requires rows == []
    ensures V.SaveRows(data, AsMap(rows), height) == data
  {
  }

  ghost predicate Implements(r: Result<V.Response>, after: V.State, step: Result<V.Outcome>) {
    match step
    case Success(outcome) => r == Success(outcome.response) && after == outcome.state
    case Failure(error) => r == Failure(error)
  }

  class VestingModule {
    var owner: Addr
    var accounts: map<Addr, Account>
    var vestingData: map<Addr, Snapshot<VestingData>>
    var vestingTotal: Snapshot<V.TotalInfo>

    ghost function View(): V.State
      reads this
    {
      V.State(owner, accounts, vestingData, vestingTotal)
    }

    constructor (owner: Addr, height: nat)
      ensures View() == V.Instantiate(owner, height)
    {
      this.owner := owner;
      accounts, vestingData := map[], map[];
      vestingTotal := Snapshot(None, map[]).Save(V.NO_TOTAL, height);
    }

    method CollectRows(block: Block) returns (r: Result<seq<(Addr, VestingData)>>)
      ensures r.Success? <==> V.Computable(accounts, block)
      ensures r.Failure? ==> r.error == Overflow
      ensures r.Success? ==> Distinct(r.value) && AsMap(r.value) == V.Rows(accounts, block)
    {
      hide Account.GetVestingData, AsMap, Distinct;
      assert Distinct([]) && AsMap([]) == map[] by { EmptyRows([]); }
      var pending, rows := accounts.Keys, [];
      while pending != {}
        invariant pending <= accounts.Keys && Distinct(rows)
        invariant AsMap(rows).Keys == accounts.Keys - pending
        invariant forall a :: a in AsMap(rows) ==> accounts[a].GetVestingData(block) == Success(AsMap(rows)[a])
        decreases |pending|
      {
        var a :| a in pending;
        var row := accounts[a].GetVestingData(block);
        if row.Failure? {
          return Failure(Overflow);
        }
        Pushed(rows, a, row.value);
        rows := rows + [(a, row.value)];
        pending := pending - {a};
      }
      return Success(rows);
    }

    /** Adds the rows up, each addition checked; the order of the rows does not matter. */
    static method ComputeTotalVestingInfo(rows: seq<(Addr, VestingData)>) returns (r: Result<V.TotalInfo>)
      requires Distinct(rows)
      ensures var total := V.TotalOf(AsMap(rows));
              r == if V.Fits(total) then Success(total) else Failure(Overflow)
    {
      hide Sum, AsMap, Distinct;
      var prevested, vested, claimed, vesting := 0, 0, 0, 0;
      var none := AsMap(rows[..0]);
      assert none == map[] by { EmptyRows(rows[..0]); }
      SumEmpty(none, V.Prevested());
      SumEmpty(none, V.Vested());
      SumEmpty(none, V.ClaimedOf());
      SumEmpty(none, V.Counted());
      for i := 0 to |rows|
        invariant prevested == Sum(AsMap(rows[..i]), V.Prevested()) <= U128_MAX
        invariant vested == Sum(AsMap(rows[..i]), V.Vested()) <= U128_MAX
        invariant claimed == Sum(AsMap(rows[..i]), V.ClaimedOf()) <= U128_MAX
        invariant vesting == Sum(AsMap(rows[..i]), V.Counted()) <= U128_MAX
      {
        var row := rows[i].1;
        SumNext(rows, i, V.Prevested());
        SumNext(rows, i, V.Vested());
        SumNext(rows, i, V.ClaimedOf());
        SumNext(rows, i, V.Counted());
        TotalsGrow(rows, i + 1);
        prevested :- CheckedAdd(prevested, row.prevestedAmount);
        vested :- CheckedAdd(vested, row.vestedAmount);
        claimed :- CheckedAdd(claimed, row.claimedAmount);
        if row.vestingAmount > row.prevestedAmount {
          vesting :- CheckedAdd(vesting, row.prevestedAmount);
        } else {
          vesting :- CheckedAdd(vesting, row.vestingAmount);
        }
      }
      assert rows[..|rows|] == rows;
      return Success(V.TotalInfo(0, prevested, vesting, vested, claimed));
    }

    method SaveSnapshot(block: Block) returns (r: Result<()>)
      modifies this`vestingData, this`vestingTotal
      ensures match V.SnapshotStep(old(View()), block)
              case Success((after, _)) => r.Success? && View() == after
              case Failure(error) => r == Failure(error)
    {
      hide V.Computable, V.Rows, V.TotalOf, V.Fits, V.SaveRows, Distinct, AsMap;
      var rows :- CollectRows(block);
      var height :- CheckedSub(block.height, 1);
      assert V.SaveRows(vestingData, AsMap(rows[..0]), height) == vestingData by {
        NothingSaved(vestingData, rows[..0], height);
      }
      for i := 0 to |rows|
        invariant vestingData == V.SaveRows(old(vestingData), AsMap(rows[..i]), height)
        invariant vestingTotal == old(vestingTotal)
      {
        AsMapNext(rows, i);
        SaveNext(old(vestingData), AsMap(rows[..i]), rows[i].0, rows[i].1, height);
        vestingData := vestingData[rows[i].0 := V.SnapshotOf(vestingData, rows[i].0).Save(rows[i].1, height)];
      }
      assert rows[..|rows|] == rows;
      var total :- ComputeTotalVestingInfo(rows);
      vestingTotal := vestingTotal.Save(total, height);
      return Success(());
    }

    method UpdateOwnerAddress(env: V.Env, address: Addr) returns (r: Result<V.Response>)
      modifies this`owner
      ensures Implements(r, View(), V.Step(old(View()), env, V.UpdateOwnerAddress(address)))
    {
      if owner != env.sender {
        return Failure(Unauthorized);
      }
      owner := address;
      return Success(V.Response([], V.OwnerUpdated));
    }

    method RegisterVestingAccount(env: V.Env, address: Addr, startTime: nat, endTime: nat,
                                  vesting: Uint128, prevesting: Uint128)
      returns (r: Result<V.Response>)
      modifies this
      ensures Implements(r, View(), V.Register(old(View()), env, address, startTime, endTime, vesting, prevesting))
    {
      hide V.SnapshotStep, Account.Validate;
      if owner != env.sender {
        return Failure(Unauthorized);
      }
      if address in accounts {
        return Failure(AlreadyExists);
      }
      var account := Account(address, prevesting, vesting, 0, env.block.time, startTime, endTime);
      var _ :- account.Validate(env.block);
      accounts := accounts[address := account];
      var _ :- SaveSnapshot(env.block);
      return Success(V.Response([], V.Registered(address, vesting)));
    }

    method DeregisterVestingAccount(env: V.Env, address: Addr, vestedRecipient: Option<Addr>,
                                    leftRecipient: Option<Addr>)
      returns (r: Result<V.Response>)
      modifies this
      ensures Implements(r, View(), V.Deregister(old(View()), env, address, vestedRecipient, leftRecipient))
    {
      hide V.SnapshotStep, Account.VestedAmount;
      if owner != env.sender {
        return Failure(Unauthorized);
      }
      var messages: seq<V.Transfer> := [];
      if address !in accounts {
        return Failure(NoVestingEntry);
      }
      var account := accounts[address];
      accounts := accounts - {address};
      var _ :- SaveSnapshot(env.block);
      var vested :- account.VestedAmount(env.block);
      var claimable :- CheckedSub(vested, account.claimedAmount);
      if claimable != 0 {
        var recipient := if vestedRecipient.Some? then vestedRecipient.value else account.address;
        messages := messages + [V.Transfer(recipient, claimable)];
      }
      var left :- CheckedSub(account.vestingAmount, vested);
      if left != 0 {
        var recipient := if leftRecipient.Some? then leftRecipient.value else env.sender;
        messages := messages + [V.Transfer(recipient, left)];
      }
      assert messages == V.Settlement(account, vested, claimable, left, vestedRecipient, leftRecipient, env.sender);
      return Success(V.Response(messages, V.Deregistered(address, account.vestingAmount, claimable, vested, left)));
    }

    method Claim(env: V.Env, recipient: Option<Addr>) returns (r: Result<V.Response>)
      modifies this
      ensures Implements(r, View(), V.ExecuteClaim(old(View()), env, recipient))
    {
      hide V.SnapshotStep, Account.VestedAmount;
      var address := if recipient.Some? then recipient.value else env.sender;
      if address !in accounts {
        return Failure(NoVestingEntry);
      }
      var account := accounts[address];
      var vested :- account.VestedAmount(env.block);
      var claimable :- CheckedSub(vested, account.claimedAmount);
      account := account.(claimedAmount := vested);
      accounts := accounts[address := account];
      var _ :- SaveSnapshot(env.block);
      return Success(V.Response([V.Transfer(address, claimable)], V.Claimed(address, claimable)));
    }

    method TakeSnapshot(env: V.Env) returns (r: Result<V.Response>)
      modifies this
      ensures Implements(r, View(), V.Step(old(View()), env, V.Msg.TakeSnapshot))
    {
      hide V.SnapshotStep;
      var _ :- SaveSnapshot(env.block);
      return Success(V.Response([], V.Snapshotted(env.block.height)));
    }

    /** One message, with the chain's rollback of failed ones. */
    method Execute(env: V.Env, msg: V.Msg) returns (r: Result<V.Response>)
      modifies this
      ensures match V.Step(old(View()), env, msg)
              case Success(outcome) => r == Success(outcome.response) && View() == outcome.state
              case Failure(error) => r == Failure(error) && View() == old(View())
    {
      hide V.SnapshotStep, V.Register, V.Deregister, V.ExecuteClaim;
      var saved := (owner, accounts, vestingData, vestingTotal);
      match msg {
        case UpdateOwnerAddress(address) => r := UpdateOwnerAddress(env, address);
        case RegisterVestingAccount(address, startTime, endTime, vesting, prevesting) =>
          r := RegisterVestingAccount(env, address, startTime, endTime, vesting, prevesting);
        case DeregisterVestingAccount(address, vestedRecipient, leftRecipient) =>
          r := DeregisterVestingAccount(env, address, vestedRecipient, leftRecipient);
        case Claim(recipient) => r := Claim(env, recipient);
        case TakeSnapshot => r := TakeSnapshot(env);
      }
      if r.Failure? {
        owner, accounts, vestingData, vestingTotal := saved.0, saved.1, saved.2, saved.3;
      }
    }
  }
}
