/** The snapshot history of the vesting contract: what each height query answers, over any run. */
module VestingHistory {
  import opened Cosmos
  import opened Sums
  import opened Snapshots
  import opened VestingAccounts
  import opened Vesting

  // ----- the reference: the list of snapshots taken -----

  /** The last snapshot run in a block at or before `height`. */
  function Governing(history: seq<Record>, height: nat): Option<Record> {
    if history == [] then None
    else
      var last := history[|history| - 1];
      if last.height <= height then Some(last) else Governing(history[..|history| - 1], height)
  }

  /** The last row stored for `a` by a snapshot run in a block at or before `height`. */
  function LastRow(history: seq<Record>, a: Addr, height: nat): Option<VestingData> {
    if history == [] then None
    else
      var last := history[|history| - 1];
      if last.height <= height && a in last.rows then Some(last.rows[a])
      else LastRow(history[..|history| - 1], a, height)
  }

  function TotalAt(history: seq<Record>, height: nat): TotalInfo {
    match Governing(history, height)
    case Some(record) => record.total
    case None => NO_TOTAL
  }

  lemma Appended(history: seq<Record>, r: Record, a: Addr, height: nat)
    ensures Governing(history + [r], height) == if r.height <= height then Some(r) else Governing(history, height)
    ensures LastRow(history + [r], a, height)
         == if r.height <= height && a in r.rows then Some(r.rows[a]) else LastRow(history, a, height)
  {
    assert (history + [r])[..|history|] == history;
  }

  lemma {:induction false} GoverningRow(history: seq<Record>, a: Addr, height: nat)
    requires Governing(history, height).Some? && a in Governing(history, height).value.rows
    ensures LastRow(history, a, height) == Some(Governing(history, height).value.rows[a])
  {
    if history[|history| - 1].height > height {
      GoverningRow(history[..|history| - 1], a, height);
    }
  }

  lemma {:induction false} GoverningInHistory(history: seq<Record>, height: nat)
    requires Governing(history, height).Some?
    ensures Governing(history, height).value in history && Governing(history, height).value.height <= height
  {
    if history[|history| - 1].height > height {
      GoverningInHistory(history[..|history| - 1], height);
    }
  }

  // ----- the invariant -----

  /** A row whose account obeys the vesting rules: in particular nothing is claimed before the start,
      that is, while pre-vesting is still incomplete. */
  predicate RowOk(d: VestingData) {
    && d.claimedAmount <= d.vestedAmount <= d.vestingAmount
    && d.claimableAmount == d.vestedAmount - d.claimedAmount
    && (d.prevestedAmount < d.vestingAmount ==> d.vestedAmount == 0)
  }

  ghost predicate RecordOk(r: Record) {
    && r.total == TotalOf(r.rows)
    && Fits(r.total)
    && forall a :: a in r.rows ==> RowOk(r.rows[a])
  }

  ghost predicate AccountOk(a: Addr, account: Account, time: nat) {
    && account.address == a
    && account.WellFormed()
    && account.registrationTime <= time
    && account.claimedAmount <= account.Vested(time)
  }

  ghost predicate AccountsOk(accounts: map<Addr, Account>, time: nat) {
    forall a :: a in accounts ==> AccountOk(a, accounts[a], time)
  }

  ghost predicate RowsRecorded(data: map<Addr, Snapshot<VestingData>>, history: seq<Record>, now: nat) {
    && (forall a, k :: a in data && k in data[a].changelog ==> k < now)
    && (forall a, height :: SnapshotOf(data, a).LoadAt(height) == LastRow(history, a, height))
  }

  /** `born` is the height of instantiation, whose own save is filed under that very height. */
  ghost predicate TotalsRecorded(total: Snapshot<TotalInfo>, history: seq<Record>, born: nat, now: nat) {
    && (forall k :: k in total.changelog ==> k < now || k == born)
    && (forall height: nat :: height > born ==> total.LoadAt(height) == Some(TotalAt(history, height)))
  }

  /** Queries at or below the height of instantiation. */
  ghost predicate BirthRecorded(total: Snapshot<TotalInfo>, born: nat, now: nat) {
    && born in total.changelog
    && (forall height: nat :: height <= born ==> total.LoadAt(height) in {None, Some(NO_TOTAL)})
    && (now == born ==> total.current == Some(NO_TOTAL) || (born >= 1 && born - 1 in total.changelog))
  }

  ghost predicate HistoryOk(w: World, born: nat, now: nat) {
    && born <= now
    && (forall r :: r in w.history ==> born <= r.height <= now && RecordOk(r))
    && RowsRecorded(w.state.vestingData, w.history, now)
    && TotalsRecorded(w.state.vestingTotal, w.history, born, now)
    && BirthRecorded(w.state.vestingTotal, born, now)
  }

  ghost predicate Inv(w: World, born: nat, now: Block) {
    AccountsOk(w.state.accounts, now.time) && HistoryOk(w, born, now.height)
  }

  lemma InstantiateInv(owner: Addr, block: Block)
    ensures Inv(World(Instantiate(owner, block.height), [], []), block.height, block)
  {
    var total := Instantiate(owner, block.height).vestingTotal;
    forall height: nat | height <= block.height ensures total.LoadAt(height) == None {
      assert total.EntriesFrom(height) == {block.height};
    }
    assert forall height: nat :: height > block.height ==> total.EntriesFrom(height) == {};
  }

  // ----- rows -----

  lemma ComputedRowOk(a: Addr, account: Account, block: Block)
    requires AccountOk(a, account, block.time) && account.GetVestingData(block).Success?
    ensures RowOk(account.GetVestingData(block).value)
  {
    hide Account.Share;
    ChecksAreExact(account, block);
    VestedMonotone(account, block.time, block.time);
  }

  lemma SavedRows(data: map<Addr, Snapshot<VestingData>>, history: seq<Record>, now: nat, r: Record)
    requires RowsRecorded(data, history, now) && now <= r.height && 1 <= r.height
    ensures RowsRecorded(SaveRows(data, r.rows, r.height - 1), history + [r], r.height)
  {
    hide Snapshot.LoadAt, LastRow;
    var data' := SaveRows(data, r.rows, r.height - 1);
    forall a, height ensures SnapshotOf(data', a).LoadAt(height) == LastRow(history + [r], a, height) {
      Appended(history, r, a, height);
      if a in r.rows {
        SaveThenLoad(SnapshotOf(data, a), r.rows[a], r.height, height);
      }
    }
  }

  lemma SavedTotals(total: Snapshot<TotalInfo>, history: seq<Record>, born: nat, now: nat, r: Record)
    requires TotalsRecorded(total, history, born, now) && born <= now <= r.height && 1 <= r.height
    ensures TotalsRecorded(total.Save(r.total, r.height - 1), history + [r], born, r.height)
  {
    hide Snapshot.LoadAt;
    forall height | height > born
      ensures total.Save(r.total, r.height - 1).LoadAt(height) == Some(TotalAt(history + [r], height))
    {
      Appended(history, r, Addr(0), height);
      SaveThenLoad(total, r.total, r.height, height);
    }
  }

  lemma SavedBirth(total: Snapshot<TotalInfo>, born: nat, now: nat, value: TotalInfo, height: nat)
    requires BirthRecorded(total, born, now) && born <= now <= height && 1 <= height
    requires forall k :: k in total.changelog ==> k < now || k == born
    ensures BirthRecorded(total.Save(value, height - 1), born, height)
  {
    hide Snapshot.LoadAt;
    var total' := total.Save(value, height - 1);
    forall queried: nat | queried <= born ensures total'.LoadAt(queried) in {None, Some(NO_TOTAL)} {
      assert born in total.EntriesFrom(queried);
      if height > born {
        SaveThenLoad(total, value, height, queried);
      } else {
        SaveRedirects(total, value, height - 1, queried);
      }
    }
  }

  lemma TotalsKeys(total: Snapshot<TotalInfo>, history: seq<Record>, born: nat, now: nat)
    requires TotalsRecorded(total, history, born, now)
    ensures forall k :: k in total.changelog ==> k < now || k == born
  {
  }

  /** One snapshot, of whatever accounts are registered at that moment. */
  lemma SnapshotKeepsHistory(w: World, s: State, born: nat, now: Block, block: Block)
    requires HistoryOk(w, born, now.height) && now.NotAfter(block)
    requires s.vestingData == w.state.vestingData && s.vestingTotal == w.state.vestingTotal
    requires AccountsOk(s.accounts, block.time)
    requires SnapshotStep(s, block).Success?
    ensures var (s', r) := SnapshotStep(s, block).value;
            HistoryOk(World(s', w.log, w.history + [r]), born, block.height) && s'.accounts == s.accounts
  {
    hide RowsRecorded, TotalsRecorded, BirthRecorded, TotalOf, Fits, AccountOk, RowOk;
    var (s', r) := SnapshotStep(s, block).value;
    forall a | a in r.rows ensures RowOk(r.rows[a]) {
      ComputedRowOk(a, s.accounts[a], block);
    }
    SavedRows(s.vestingData, w.history, now.height, r);
    SavedTotals(s.vestingTotal, w.history, born, now.height, r);
    assert forall k :: k in s.vestingTotal.changelog ==> k < now.height || k == born by {
      TotalsKeys(s.vestingTotal, w.history, born, now.height);
    }
    SavedBirth(s.vestingTotal, born, now.height, r.total, block.height);
  }

  // ----- messages and runs -----

  lemma AccountAges(a: Addr, account: Account, time: nat, later: nat)
    requires AccountOk(a, account, time) && time <= later
    ensures AccountOk(a, account, later)
  {
    hide Account.Share;
    VestedMonotone(account, time, later);
  }

  lemma AccountsAge(accounts: map<Addr, Account>, time: nat, later: nat)
    requires AccountsOk(accounts, time) && time <= later
    ensures AccountsOk(accounts, later)
  {
    hide AccountOk;
    forall a | a in accounts ensures AccountOk(a, accounts[a], later) {
      AccountAges(a, accounts[a], time, later);
    }
  }

  lemma HistoryAges(w: World, born: nat, now: nat, later: nat)
    requires HistoryOk(w, born, now) && now <= later
    ensures HistoryOk(w, born, later)
  {
    hide Snapshot.LoadAt, RecordOk;
  }

  lemma NewAccountOk(env: Env, address: Addr, startTime: nat, endTime: nat, vesting: Uint128, prevesting: Uint128)
    requires NewAccount(env, address, startTime, endTime, vesting, prevesting).Validate(env.block).Success?
    ensures AccountOk(address, NewAccount(env, address, startTime, endTime, vesting, prevesting), env.block.time)
  {
  }

  lemma ClaimedAccountOk(a: Addr, account: Account, block: Block)
    requires AccountOk(a, account, block.time) && account.VestedAmount(block).Success?
    ensures AccountOk(a, account.(claimedAmount := account.VestedAmount(block).value), block.time)
  {
    ChecksAreExact(account, block);
  }

  /** The state a successful message takes its snapshot of. */
  ghost function SnapshotSubject(s: State, env: Env, msg: Msg): State {
    match msg
    case RegisterVestingAccount(address, startTime, endTime, vesting, prevesting) =>
      s.(accounts := s.accounts[address := NewAccount(env, address, startTime, endTime, vesting, prevesting)])
    case DeregisterVestingAccount(address, _, _) => s.(accounts := s.accounts - {address})
    case Claim(recipient) =>
      var address := if recipient.Some? then recipient.value else env.sender;
      if address in s.accounts && s.accounts[address].VestedAmount(env.block).Success? then
        var vested := s.accounts[address].VestedAmount(env.block).value;
        s.(accounts := s.accounts[address := s.accounts[address].(claimedAmount := vested)])
      else s
    case _ => s
  }

  lemma SnapshotAccounts(s: State, block: Block)
    ensures SnapshotStep(s, block).Success? ==> SnapshotStep(s, block).value.0.accounts == s.accounts
  {
  }

  /** The accounts a message leaves registered obey the vesting rules at its block. */
  lemma AccountsAfter(s: State, call: Call, now: Block)
    requires AccountsOk(s.accounts, now.time) && now.NotAfter(call.env.block)
    requires Step(s, call.env, call.msg).Success?
    ensures AccountsOk(Step(s, call.env, call.msg).value.state.accounts, call.env.block.time)
  {
    hide AccountOk, SnapshotStep, Account.VestedAmount, Account.Validate;
    var env, block := call.env, call.env.block;
    SnapshotAccounts(SnapshotSubject(s, env, call.msg), block);
    AccountsAge(s.accounts, now.time, block.time);
    match call.msg
    case RegisterVestingAccount(address, startTime, endTime, vesting, prevesting) =>
      NewAccountOk(env, address, startTime, endTime, vesting, prevesting);
    case Claim(recipient) =>
      var address := if recipient.Some? then recipient.value else env.sender;
      ClaimedAccountOk(address, s.accounts[address], block);
    case _ =>
  }

  lemma OwnerIrrelevant(w: World, w': World, born: nat, now: nat)
    requires HistoryOk(w, born, now)
    requires w'.state.vestingData == w.state.vestingData && w'.state.vestingTotal == w.state.vestingTotal
    requires w'.history == w.history
    ensures HistoryOk(w', born, now)
  {
    hide RowsRecorded, TotalsRecorded, BirthRecorded, RecordOk;
  }

  lemma DeliverKeepsInv(w: World, born: nat, now: Block, call: Call)
    requires Inv(w, born, now) && now.NotAfter(call.env.block)
    ensures Inv(Deliver(w, call), born, call.env.block)
  {
    hide HistoryOk, AccountsOk, SnapshotStep;
    var env := call.env;
    AccountsAge(w.state.accounts, now.time, env.block.time);
    HistoryAges(w, born, now.height, env.block.height);
    if Step(w.state, env, call.msg).Success? {
      AccountsAfter(w.state, call, now);
      var s' := Deliver(w, call).state;
      match call.msg
      case UpdateOwnerAddress(_) =>
        OwnerIrrelevant(w, Deliver(w, call), born, env.block.height);
      case _ =>
        var s := SnapshotSubject(w.state, env, call.msg);
        SnapshotAccounts(s, env.block);
        SnapshotKeepsHistory(w, s, born, now, env.block);
        OwnerIrrelevant(World(s', w.log, Deliver(w, call).history), Deliver(w, call), born, env.block.height);
    }
  }

  lemma {:induction false} RunKeepsInv(w: World, born: nat, now: Block, calls: seq<Call>, end: Block)
    requires Inv(w, born, now) && Ordered(now, calls, end)
    ensures Inv(Run(w, calls), born, end)
    decreases calls
  {
    hide Inv, Deliver;
    if calls != [] {
      DeliverKeepsInv(w, born, now, calls[0]);
      RunKeepsInv(Deliver(w, calls[0]), born, calls[0].env.block, calls[1..], end);
    }
  }

  // ----- what queries answer, in every reachable world -----

  /** Any run from instantiation at `birth`. */
  ghost function Reached(owner: Addr, birth: Block, calls: seq<Call>): World {
    Run(World(Instantiate(owner, birth.height), [], []), calls)
  }

  lemma ReachedInv(owner: Addr, birth: Block, calls: seq<Call>, end: Block)
    requires Ordered(birth, calls, end)
    ensures Inv(Reached(owner, birth, calls), birth.height, end)
  {
    hide Inv, Run;
    InstantiateInv(owner, birth);
    RunKeepsInv(World(Instantiate(owner, birth.height), [], []), birth.height, birth, calls, end);
  }

  /** The row of any address at any height is the last one a snapshot in a block at or before that
      height stored for it (deregistered accounts keep theirs); for accounts registered at the
      governing snapshot it is that snapshot's row. */
  lemma RowQueriesRight(w: World, born: nat, now: Block, a: Addr, height: nat)
    requires Inv(w, born, now)
    ensures QueryAccount(w.state, a, height)
         == match LastRow(w.history, a, height) { case Some(row) => row case None => NO_VESTING }
    ensures var g := Governing(w.history, height);
            g.Some? && a in g.value.rows ==> QueryAccount(w.state, a, height) == g.value.rows[a]
  {
    hide Snapshot.LoadAt, LastRow, Governing, TotalsRecorded, BirthRecorded, RecordOk, AccountsOk;
    if Governing(w.history, height).Some? && a in Governing(w.history, height).value.rows {
      GoverningRow(w.history, a, height);
    }
  }

  lemma {:induction false} NothingBeforeBirth(history: seq<Record>, born: nat, height: nat)
    requires forall r :: r in history ==> born <= r.height
    requires height < born
    ensures Governing(history, height) == None
  {
    if history != [] {
      assert history[|history| - 1] in history;
      NothingBeforeBirth(history[..|history| - 1], born, height);
    }
  }

  /** A snapshot's total is zero exactly if none of its accounts had pre-vested anything. */
  lemma ZeroTotalExactly(r: Record)
    requires RecordOk(r)
    ensures r.total == NO_TOTAL <==> forall a :: a in r.rows ==> r.rows[a].prevestedAmount == 0
  {
    hide Sum, Fits;
    SumZero(r.rows, Prevested());
    SumZero(r.rows, Vested());
    SumZero(r.rows, ClaimedOf());
    SumZero(r.rows, Counted());
  }

  /** The last snapshot run in the block of instantiation stored a row with something pre-vested. */
  ghost predicate StoredAtBirth(history: seq<Record>, born: nat) {
    match Governing(history, born)
    case Some(r) => exists a :: a in r.rows && r.rows[a].prevestedAmount > 0
    case None => false
  }

  /** The total at a height is the governing snapshot's, at every height but one: instantiation files
      its own save under its own height, so queries at that height always answer zero. They are wrong
      exactly if the last snapshot of that same block had an account with something pre-vested. */
  lemma TotalQueriesRightExceptAtBirth(w: World, born: nat, now: Block, height: nat)
    requires Inv(w, born, now)
    ensures QueryTotal(w.state, height) == TotalAt(w.history, height)
       <==> !(height == born && StoredAtBirth(w.history, born))
    ensures height <= born ==> QueryTotal(w.state, height) == NO_TOTAL
  {
    hide Snapshot.LoadAt, RowsRecorded, RecordOk, AccountsOk;
    if height < born {
      NothingBeforeBirth(w.history, born, height);
    } else if height == born && Governing(w.history, born).Some? {
      GoverningInHistory(w.history, born);
      ZeroTotalExactly(Governing(w.history, born).value);
    }
  }

  lemma OneRowTotal(rows: map<Addr, VestingData>, a: Addr)
    requires rows.Keys == {a}
    ensures TotalOf(rows) == TotalInfo(0, rows[a].prevestedAmount, Min(rows[a].prevestedAmount, rows[a].vestingAmount),
                                       rows[a].vestedAmount, rows[a].claimedAmount)
  {
    SumRemove(rows, Prevested(), a);
    SumRemove(rows, Vested(), a);
    SumRemove(rows, ClaimedOf(), a);
    SumRemove(rows, Counted(), a);
    assert rows - {a} == map[];
  }

  /** The exception is real: an account registered in the block that instantiated the contract. */
  lemma BirthAnswerCanBeWrong() returns (owner: Addr, birth: Block, calls: seq<Call>)
    ensures Ordered(birth, calls, birth)
    ensures var w := Reached(owner, birth, calls);
            && TotalAt(w.history, birth.height) != NO_TOTAL
            && QueryTotal(w.state, birth.height) == NO_TOTAL
  {
    hide Inv, Sum, TotalOf, SaveRows, QueryTotal, StoredAtBirth;
    owner, birth := Addr(0), Block(1, 0);
    var call := Call(Env(birth, owner), RegisterVestingAccount(Addr(1), 0, 0, 7, 0));
    calls := [call];
    var w0 := World(Instantiate(owner, 1), [], []);
    ReachedInv(owner, birth, calls, birth);
    TotalQueriesRightExceptAtBirth(Reached(owner, birth, calls), 1, birth, 1);
    var rows := map[Addr(1) := VestingData(0, 7, 7, 7, 7, 0, 0, 0, 0)];
    var account := NewAccount(call.env, Addr(1), 0, 0, 7, 0);
    var s := w0.state.(accounts := map[Addr(1) := account]);
    assert s == w0.state.(accounts := w0.state.accounts[Addr(1) := account]);
    assert Rows(s.accounts, birth) == rows;
    OneRowTotal(rows, Addr(1));
    assert Deliver(w0, call).history == [Record(1, rows, TotalOf(rows))];
    assert Run(w0, calls) == Run(Deliver(w0, call), []);
  }

  lemma {:induction false} LaterRecordsIrrelevant(history: seq<Record>, more: seq<Record>, a: Addr, height: nat)
    requires forall r :: r in more ==> height < r.height
    ensures Governing(history + more, height) == Governing(history, height)
    ensures LastRow(history + more, a, height) == LastRow(history, a, height)
  {
    if more == [] {
      assert history + more == history;
    } else {
      var n := |more| - 1;
      assert more[n] in more;
      assert history + more == (history + more[..n]) + [more[n]];
      Appended(history + more[..n], more[n], a, height);
      LaterRecordsIrrelevant(history, more[..n], a, height);
    }
  }

  lemma DeliverAppends(w: World, call: Call) returns (more: seq<Record>)
    ensures Deliver(w, call).history == w.history + more
    ensures forall r :: r in more ==> r.height == call.env.block.height
  {
    hide Computable, Fits, TotalOf, SaveRows, Rows, Account.VestedAmount, Account.Validate;
    var w1 := Deliver(w, call);
    more := w1.history[|w.history|..];
    assert w1.history == w.history + more;
  }

  lemma {:induction false} RunAppends(w: World, now: Block, calls: seq<Call>, end: Block) returns (more: seq<Record>)
    requires Ordered(now, calls, end)
    ensures Run(w, calls).history == w.history + more
    ensures forall r :: r in more ==> now.height <= r.height
    decreases calls
  {
    hide Deliver;
    if calls == [] {
      more := [];
    } else {
      var first := DeliverAppends(w, calls[0]);
      more := RunAppends(Deliver(w, calls[0]), calls[0].env.block, calls[1..], end);
      more := first + more;
    }
  }

  lemma EmptyRun(w: World, calls: seq<Call>)
    requires calls == []
    ensures Run(w, calls) == w
  {
  }

  /** History is immutable: no run of later messages, snapshots repeated within a block included,
      changes the answer of any query below the block it starts in. */
  lemma HistoryIsImmutable(w: World, born: nat, now: Block, calls: seq<Call>, end: Block, a: Addr, height: nat)
    requires Inv(w, born, now) && Ordered(now, calls, end)
    requires calls != [] ==> height < calls[0].env.block.height
    ensures var w' := Run(w, calls);
            && QueryAccount(w'.state, a, height) == QueryAccount(w.state, a, height)
            && QueryTotal(w'.state, height) == QueryTotal(w.state, height)
  {
    hide Inv, Run, QueryTotal, QueryAccount, Governing, LastRow;
    if calls == [] {
      assert Run(w, calls) == w by { EmptyRun(w, calls); }
    } else {
      var start := calls[0].env.block;
      var w' := Run(w, calls);
      RunKeepsInv(w, born, now, calls, end);
      var more := RunAppends(w, start, calls, end);
      LaterRecordsIrrelevant(w.history, more, a, height);
      RowQueriesRight(w, born, now, a, height);
      RowQueriesRight(w', born, end, a, height);
      TotalQueriesRightExceptAtBirth(w, born, now, height);
      TotalQueriesRightExceptAtBirth(w', born, end, height);
    }
  }
}
