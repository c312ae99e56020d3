/** The proposal module as a state machine: what each message does to the stored configuration,
    proposals and ballots, and which messages it sends out. */
module Governance {
  import opened Cosmos
  import opened Voting
  import opened Proposals

  datatype Config = Config(
    threshold: Threshold,
    maxVotingPeriod: Duration,
    minVotingPeriod: Option<Duration>,
    onlyMembersExecute: bool,
    allowRevoting: bool,
    dao: Addr,
    depositInfo: Option<DepositInfo>)

  datatype Ballot = Ballot(power: Uint128, vote: Vote)

  datatype State = State(
    config: Config,
    proposalCount: nat,
    proposals: map<nat, Proposal>,
    ballots: map<(nat, Addr), Ballot>,
    allowedAddresses: set<Addr>)

  /** `daoActive` is the voting module's answer to the activity query (true if it has none). */
  datatype Env = Env(block: Block, sender: Addr, contract: Addr, daoActive: bool)

  /** The voting module: the power of an address, and the total, at a height. */
  datatype Querier = Querier(power: (Addr, Addr, nat) -> Uint128, total: (Addr, nat) -> Uint128)

  /** `size` is the length of the serialised proposal. */
  datatype Msg =
    | Propose(msgs: seq<CosmosMsg>, size: nat)
    | CastVote(proposalId: nat, vote: Vote)
    | Execute(proposalId: nat)
    | Close(proposalId: nat)
    | UpdateConfig(config: Config)
    | RegisterAllowedAddress(address: Addr)
    | DeregisterAllowedAddress(address: Addr)

  datatype Outgoing =
    | TransferFrom(token: Addr, owner: Addr, recipient: Addr, amount: Uint128)
    | Transfer(token: Addr, recipient: Addr, amount: Uint128)
    | ExecuteProposalHook(dao: Addr, msgs: seq<CosmosMsg>)

  datatype Outcome = Outcome(state: State, out: seq<Outgoing>)

  const MAX_PROPOSAL_SIZE: nat := 30_000

  function ValidateVotingPeriod(min: Option<Duration>, max: Duration): Result<()> {
    match (min, max)
    case (None, _) => Success(())
    case (Some(Time(lo)), Time(hi)) => if lo <= hi then Success(()) else Failure(InvalidMinVotingPeriod)
    case (Some(Height(lo)), Height(hi)) => if lo <= hi then Success(()) else Failure(InvalidMinVotingPeriod)
    case _ => Failure(DurationUnitsConflict)
  }

  function ValidateConfig(config: Config): Result<()> {
    if !config.threshold.Valid() then Failure(InvalidThreshold)
    else ValidateVotingPeriod(config.minVotingPeriod, config.maxVotingPeriod)
  }

  function Instantiate(config: Config, preAllowed: set<Addr>): Result<State> {
    var _ :- ValidateConfig(config);
    Success(State(config, 0, map[], map[], preAllowed))
  }

  function DepositMsg(info: Option<DepositInfo>, contract: Addr, sender: Addr): seq<Outgoing> {
    if info.Some? && info.value.deposit != 0
    then [TransferFrom(info.value.token, sender, contract, info.value.deposit)]
    else []
  }

  function ReturnDepositMsg(info: DepositInfo, proposer: Addr): seq<Outgoing> {
    if info.deposit == 0 then [] else [Transfer(info.token, proposer, info.deposit)]
  }

  function NewProposal(q: Querier, config: Config, env: Env, msgs: seq<CosmosMsg>): Proposal {
    Proposal(
      env.sender,
      env.block.height,
      if config.minVotingPeriod.Some? then Some(config.minVotingPeriod.value.After(env.block)) else None,
      config.maxVotingPeriod.After(env.block),
      config.threshold,
      q.total(config.dao, env.block.height),
      msgs,
      Open,
      ZERO_VOTES,
      config.allowRevoting,
      config.depositInfo)
  }

  function ExecutePropose(q: Querier, s: State, env: Env, msgs: seq<CosmosMsg>, size: nat): Result<Outcome> {
    if !env.daoActive then Failure(InactiveDao)
    else if q.power(s.config.dao, env.sender, env.block.height) == 0 then Failure(Unauthorized)
    else if env.sender !in s.allowedAddresses then Failure(NotAllowed)
    else
      // A proposal may expire in the very block that creates it.
      var prop :- NewProposal(q, s.config, env, msgs).UpdateStatus(env.block);
      if size > MAX_PROPOSAL_SIZE then Failure(ProposalTooLarge)
      else
        var id := s.proposalCount + 1;
        Success(Outcome(
          s.(proposalCount := id, proposals := s.proposals[id := prop]),
          DepositMsg(s.config.depositInfo, env.contract, env.sender)))
  }

  /** The ballot update of a vote: the sender's earlier ballot, if one is being replaced. */
  function ReplacedBallot(s: State, prop: Proposal, key: (nat, Addr), vote: Vote): Result<Option<Ballot>> {
    if key !in s.ballots then Success(None)
    else if !prop.allowRevoting then Failure(AlreadyVoted)
    else if s.ballots[key].vote == vote then Failure(AlreadyCast)
    else Success(Some(s.ballots[key]))
  }

  function ExecuteVote(q: Querier, s: State, env: Env, id: nat, vote: Vote): Result<Outcome> {
    if id !in s.proposals then Failure(NoSuchProposal)
    else
      var prop := s.proposals[id];
      var current :- prop.CurrentStatus(env.block);
      if current != Open then Failure(NotOpen)
      else
        var power := q.power(s.config.dao, env.sender, prop.startHeight);
        if power == 0 then Failure(NotRegistered)
        else
          var key := (id, env.sender);
          var replaced :- ReplacedBallot(s, prop, key, vote);
          var kept :- if replaced.Some? then prop.votes.RemoveVote(replaced.value.vote, replaced.value.power)
                      else Success(prop.votes);
          var votes :- kept.AddVote(vote, power);
          var prop' :- prop.(votes := votes).UpdateStatus(env.block);
          Success(Outcome(
            s.(proposals := s.proposals[id := prop'], ballots := s.ballots[key := Ballot(power, vote)]),
            []))
  }

  function ExecuteExecute(q: Querier, s: State, env: Env, id: nat): Result<Outcome> {
    if s.config.onlyMembersExecute && q.power(s.config.dao, env.sender, env.block.height) == 0
    then Failure(Unauthorized)
    else if id !in s.proposals then Failure(NoSuchProposal)
    else
      var prop :- s.proposals[id].UpdateStatus(env.block);
      if prop.status != Passed then Failure(NotPassed)
      else
        var refund := if prop.depositInfo.Some? then ReturnDepositMsg(prop.depositInfo.value, prop.proposer) else [];
        var hook := if prop.msgs == [] then [] else [ExecuteProposalHook(s.config.dao, prop.msgs)];
        Success(Outcome(s.(proposals := s.proposals[id := prop.(status := Executed)]), hook + refund))
  }

  function ExecuteClose(s: State, env: Env, id: nat): Result<Outcome> {
    if id !in s.proposals then Failure(NotFound)
    else
      var prop :- s.proposals[id].UpdateStatus(env.block);
      if prop.status != Rejected then Failure(WrongCloseStatus)
      else
        var refund := if prop.depositInfo.Some? && prop.depositInfo.value.refundFailedProposals
                      then ReturnDepositMsg(prop.depositInfo.value, prop.proposer) else [];
        Success(Outcome(s.(proposals := s.proposals[id := prop.(status := Closed)]), refund))
  }

  function ExecuteUpdateConfig(s: State, env: Env, config: Config): Result<Outcome> {
    if env.sender != s.config.dao then Failure(Unauthorized)
    else
      var _ :- ValidateConfig(config);
      Success(Outcome(s.(config := config), []))
  }

  function ExecuteRegisterAllowed(s: State, env: Env, address: Addr): Result<Outcome> {
    if env.sender != s.config.dao then Failure(Unauthorized)
    else if address in s.allowedAddresses then Failure(Exist)
    else Success(Outcome(s.(allowedAddresses := s.allowedAddresses + {address}), []))
  }

  function ExecuteDeregisterAllowed(s: State, env: Env, address: Addr): Result<Outcome> {
    if env.sender != s.config.dao then Failure(Unauthorized)
    else if address !in s.allowedAddresses then Failure(NotExist)
    else Success(Outcome(s.(allowedAddresses := s.allowedAddresses - {address}), []))
  }

  function Step(q: Querier, s: State, env: Env, msg: Msg): Result<Outcome> {
    match msg
    case Propose(msgs, size) => ExecutePropose(q, s, env, msgs, size)
    case CastVote(id, vote) => ExecuteVote(q, s, env, id, vote)
    case Execute(id) => ExecuteExecute(q, s, env, id)
    case Close(id) => ExecuteClose(s, env, id)
    case UpdateConfig(config) => ExecuteUpdateConfig(s, env, config)
    case RegisterAllowedAddress(address) => ExecuteRegisterAllowed(s, env, address)
    case DeregisterAllowedAddress(address) => ExecuteDeregisterAllowed(s, env, address)
  }

  // ----- runs -----

  datatype Call = Call(env: Env, msg: Msg)

  /** A failed message leaves the state unchanged and sends nothing. */
  function Deliver(q: Querier, s: State, call: Call): Outcome {
    var r := Step(q, s, call.env, call.msg);
    if r.Success? then r.value else Outcome(s, [])
  }

  /** The state after a run, and everything sent out during it. */
  function Run(q: Querier, s: State, calls: seq<Call>): Outcome
    decreases calls
  {
    if calls == [] then Outcome(s, [])
    else
      var first := Deliver(q, s, calls[0]);
      var rest := Run(q, first.state, calls[1..]);
      Outcome(rest.state, first.out + rest.out)
  }

  /** Blocks never go back, and the contract keeps its address. */
  ghost predicate Ordered(self: Addr, now: Block, calls: seq<Call>)
    decreases calls
  {
    calls == [] ||
    (&& now.NotAfter(calls[0].env.block)
     && calls[0].env.contract == self
     && Ordered(self, calls[0].env.block, calls[1..]))
  }
}
