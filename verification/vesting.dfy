/** The vesting contract as a state machine. */
module Vesting {
  import opened Cosmos
  import opened Sums
  import opened Snapshots
  import opened VestingAccounts

  datatype TotalInfo = TotalInfo(
    prevestingAmount: nat,
    prevestedAmount: nat,
    vestingAmount: nat,
    vestedAmount: nat,
    claimedAmount: nat)

  const NO_TOTAL := TotalInfo(0, 0, 0, 0, 0)

  datatype State = State(
    owner: Addr,
    accounts: map<Addr, Account>,
    vestingData: map<Addr, Snapshot<VestingData>>,
    vestingTotal: Snapshot<TotalInfo>)

  datatype Env = Env(block: Block, sender: Addr)

  datatype Msg =
    | UpdateOwnerAddress(address: Addr)
    | RegisterVestingAccount(address: Addr, startTime: nat, endTime: nat,
                             vestingAmount: Uint128, prevestingAmount: Uint128)
    | DeregisterVestingAccount(address: Addr, vestedRecipient: Option<Addr>, leftRecipient: Option<Addr>)
    | Claim(recipient: Option<Addr>)
    | TakeSnapshot

  /** A payment of the vested token out of the contract. */
  datatype Transfer = Transfer(recipient: Addr, amount: nat)

  /** The attributes a response reports. */
  datatype Action =
    | OwnerUpdated
    | Registered(address: Addr, vestingAmount: nat)
    | Deregistered(address: Addr, vestingAmount: nat, claimable: nat, vested: nat, left: nat)
    | Claimed(address: Addr, amount: nat)
    | Snapshotted(height: nat)

  datatype Response = Response(messages: seq<Transfer>, action: Action)

  /** What one snapshot wrote: the row of every registered account, and their total. */
  datatype Record = Record(height: nat, rows: map<Addr, VestingData>, total: TotalInfo)

  datatype Outcome = Outcome(state: State, response: Response, records: seq<Record>)

  function Instantiate(owner: Addr, height: nat): State {
    State(owner, map[], map[], Snapshot(None, map[]).Save(NO_TOTAL, height))
  }

  // ----- snapshots -----

  predicate Computable(accounts: map<Addr, Account>, block: Block) {
    forall a :: a in accounts ==> accounts[a].GetVestingData(block).Success?
  }

  function Rows(accounts: map<Addr, Account>, block: Block): map<Addr, VestingData>
    requires Computable(accounts, block)
  {
    map a | a in accounts :: accounts[a].GetVestingData(block).value
  }

  function Prevested(): (Addr, VestingData) -> nat {
    (a: Addr, d: VestingData) => d.prevestedAmount
  }

  function Vested(): (Addr, VestingData) -> nat {
    (a: Addr, d: VestingData) => d.vestedAmount
  }

  function ClaimedOf(): (Addr, VestingData) -> nat {
    (a: Addr, d: VestingData) => d.claimedAmount
  }

  /** What an account adds to the total vesting amount. */
  function Counted(): (Addr, VestingData) -> nat {
    (a: Addr, d: VestingData) => Min(d.prevestedAmount, d.vestingAmount)
  }

  /** The totals over all rows; the prevesting total is never accumulated. */
  ghost function TotalOf(rows: map<Addr, VestingData>): TotalInfo {
    TotalInfo(0, Sum(rows, Prevested()), Sum(rows, Counted()), Sum(rows, Vested()), Sum(rows, ClaimedOf()))
  }

  ghost predicate Fits(total: TotalInfo) {
    && total.prevestedAmount <= U128_MAX && total.vestingAmount <= U128_MAX
    && total.vestedAmount <= U128_MAX && total.claimedAmount <= U128_MAX
  }

  function SnapshotOf(data: map<Addr, Snapshot<VestingData>>, a: Addr): Snapshot<VestingData> {
    if a in data then data[a] else Snapshot(None, map[])
  }

  function SaveRows(data: map<Addr, Snapshot<VestingData>>, rows: map<Addr, VestingData>, height: nat)
    : map<Addr, Snapshot<VestingData>>
  {
    map a | a in data.Keys + rows.Keys ::
      if a in rows then SnapshotOf(data, a).Save(rows[a], height) else data[a]
  }

  /** The snapshot of `s.accounts`, filed under the height before the current one. */
  ghost function SnapshotStep(s: State, block: Block): Result<(State, Record)> {
    if !Computable(s.accounts, block) || block.height == 0 || !Fits(TotalOf(Rows(s.accounts, block)))
    then Failure(Overflow)
    else
      var rows := Rows(s.accounts, block);
      var total := TotalOf(rows);
      Success((
        s.(vestingData := SaveRows(s.vestingData, rows, block.height - 1),
           vestingTotal := s.vestingTotal.Save(total, block.height - 1)),
        Record(block.height, rows, total)))
  }

  // ----- messages -----

  function NewAccount(env: Env, address: Addr, startTime: nat, endTime: nat, vesting: Uint128, prevesting: Uint128)
    : Account
  {
    Account(address, prevesting, vesting, 0, env.block.time, startTime, endTime)
  }

  ghost function Register(s: State, env: Env, address: Addr, startTime: nat, endTime: nat,
                          vesting: Uint128, prevesting: Uint128)
    : Result<Outcome>
  {
    if s.owner != env.sender then Failure(Unauthorized)
    else if address in s.accounts then Failure(AlreadyExists)
    else
      var account := NewAccount(env, address, startTime, endTime, vesting, prevesting);
      var _ :- account.Validate(env.block);
      var (s', record) :- SnapshotStep(s.(accounts := s.accounts[address := account]), env.block);
      Success(Outcome(s', Response([], Registered(address, vesting)), [record]))
  }

  /** The two payments that settle a removed account. */
  function Settlement(account: Account, vested: nat, claimable: nat, left: nat,
                      vestedRecipient: Option<Addr>, leftRecipient: Option<Addr>, sender: Addr): seq<Transfer> {
    (if claimable == 0 then []
     else [Transfer(if vestedRecipient.Some? then vestedRecipient.value else account.address, claimable)])
    + (if left == 0 then []
       else [Transfer(if leftRecipient.Some? then leftRecipient.value else sender, left)])
  }

  ghost function Deregister(s: State, env: Env, address: Addr, vestedRecipient: Option<Addr>,
                            leftRecipient: Option<Addr>)
    : Result<Outcome>
  {
    if s.owner != env.sender then Failure(Unauthorized)
    else if address !in s.accounts then Failure(NoVestingEntry)
    else
      var account := s.accounts[address];
      var (s', record) :- SnapshotStep(s.(accounts := s.accounts - {address}), env.block);
      var vested :- account.VestedAmount(env.block);
      var claimable :- CheckedSub(vested, account.claimedAmount);
      var left :- CheckedSub(account.vestingAmount, vested);
      Success(Outcome(
        s',
        Response(Settlement(account, vested, claimable, left, vestedRecipient, leftRecipient, env.sender),
                 Deregistered(address, account.vestingAmount, claimable, vested, left)),
        [record]))
  }

  /** Anyone may trigger the claim of any account; the account is paid. */
  ghost function ExecuteClaim(s: State, env: Env, recipient: Option<Addr>): Result<Outcome> {
    var address := if recipient.Some? then recipient.value else env.sender;
    if address !in s.accounts then Failure(NoVestingEntry)
    else
      var account := s.accounts[address];
      var vested :- account.VestedAmount(env.block);
      var claimable :- CheckedSub(vested, account.claimedAmount);
      var account' := account.(claimedAmount := vested);
      var (s', record) :- SnapshotStep(s.(accounts := s.accounts[address := account']), env.block);
      Success(Outcome(s', Response([Transfer(address, claimable)], Claimed(address, claimable)), [record]))
  }

  ghost function Step(s: State, env: Env, msg: Msg): Result<Outcome> {
    match msg
    case UpdateOwnerAddress(address) =>
      if s.owner != env.sender then Failure(Unauthorized)
      else Success(Outcome(s.(owner := address), Response([], OwnerUpdated), []))
    case RegisterVestingAccount(address, startTime, endTime, vesting, prevesting) =>
      Register(s, env, address, startTime, endTime, vesting, prevesting)
    case DeregisterVestingAccount(address, vestedRecipient, leftRecipient) =>
      Deregister(s, env, address, vestedRecipient, leftRecipient)
    case Claim(recipient) => ExecuteClaim(s, env, recipient)
    case TakeSnapshot =>
      var (s', record) :- SnapshotStep(s, env.block);
      Success(Outcome(s', Response([], Snapshotted(env.block.height)), [record]))
  }

  // ----- queries -----

  ghost function QueryAccount(s: State, address: Addr, height: nat): VestingData {
    match SnapshotOf(s.vestingData, address).LoadAt(height)
    case Some(row) => row
    case None => NO_VESTING
  }

  ghost function QueryTotal(s: State, height: nat): TotalInfo {
    match s.vestingTotal.LoadAt(height)
    case Some(total) => total
    case None => NO_TOTAL
  }

  // ----- runs -----

  datatype Call = Call(env: Env, msg: Msg)

  /** A run's state, the responses of its successful messages, and its snapshots. */
  datatype World = World(state: State, log: seq<Response>, history: seq<Record>)

  ghost function Deliver(w: World, call: Call): World {
    match Step(w.state, call.env, call.msg)
    case Success(o) => World(o.state, w.log + [o.response], w.history + o.records)
    case Failure(_) => w
  }

  ghost function Run(w: World, calls: seq<Call>): World
    decreases calls
  {
    if calls == [] then w else Run(Deliver(w, calls[0]), calls[1..])
  }

  /** The block of the last message, blocks never going back. */
  ghost predicate Ordered(now: Block, calls: seq<Call>, end: Block)
    decreases calls
  {
    if calls == [] then now == end
    else now.NotAfter(calls[0].env.block) && Ordered(calls[0].env.block, calls[1..], end)
  }
}
