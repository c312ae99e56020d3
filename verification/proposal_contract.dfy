/** The proposal module as the contract runs it: storage items that each message loads, changes and
    saves in turn. Every method is proved against its step in `Governance`. */
module ProposalContract {
  import opened Cosmos
  import opened Voting
  import opened Proposals
  import G = Governance

  /** A method that succeeded left the state, and returned the messages, its step prescribes; one that
      failed returned the step's error (and may have left changes behind for the chain to undo). */
  ghost predicate Implements(r: Result<seq<G.Outgoing>>, after: G.State, step: Result<G.Outcome>) {
    match step
    case Success(outcome) => r == Success(outcome.out) && after == outcome.state
    case Failure(error) => r == Failure(error)
  }

  class ProposalModule {
    var config: G.Config
    var proposalCount: nat
    var proposals: map<nat, Proposal>
    var ballots: map<(nat, Addr), G.Ballot>
    var allowedAddresses: set<Addr>

    ghost function View(): G.State
      reads this
    {
      G.State(config, proposalCount, proposals, ballots, allowedAddresses)
    }

    constructor (config: G.Config, preAllowed: set<Addr>)
      ensures View() == G.State(config, 0, map[], map[], preAllowed)
    {
      this.config := config;
      proposalCount, proposals, ballots := 0, map[], map[];
      allowedAddresses := preAllowed;
    }

    static method Instantiate(config: G.Config, preAllowed: set<Addr>) returns (r: Result<ProposalModule>)
      ensures r.Success? <==> G.Instantiate(config, preAllowed).Success?
      ensures r.Success? ==> fresh(r.value) && r.value.View() == G.Instantiate(config, preAllowed).value
      ensures r.Failure? ==> r.error == G.Instantiate(config, preAllowed).error
    {
      if !config.threshold.Valid() {
        return Failure(InvalidThreshold);
      }
      var _ :- G.ValidateVotingPeriod(config.minVotingPeriod, config.maxVotingPeriod);
      var instance := new ProposalModule(config, preAllowed);
      return Success(instance);
    }

    method AdvanceProposalId() returns (id: nat)
      modifies this`proposalCount
      ensures id == proposalCount == old(proposalCount) + 1
    {
      id := proposalCount + 1;
      proposalCount := id;
    }

    method ExecutePropose(q: G.Querier, env: G.Env, msgs: seq<CosmosMsg>, size: nat)
      returns (r: Result<seq<G.Outgoing>>)
      modifies this
      ensures Implements(r, View(), G.ExecutePropose(q, old(View()), env, msgs, size))
    {
      hide Proposal.CurrentStatus;
      if !env.daoActive {
        return Failure(InactiveDao);
      }
      if q.power(config.dao, env.sender, env.block.height) == 0 {
        return Failure(Unauthorized);
      }
      if env.sender !in allowedAddresses {
        return Failure(NotAllowed);
      }
      var expiration := config.maxVotingPeriod.After(env.block);
      var totalPower := q.total(config.dao, env.block.height);
      var minVotingPeriod := None;
      if config.minVotingPeriod.Some? {
        minVotingPeriod := Some(config.minVotingPeriod.value.After(env.block));
      }
      var prop := Proposal(env.sender, env.block.height, minVotingPeriod, expiration, config.threshold,
                           totalPower, msgs,
                           Open, ZERO_VOTES, config.allowRevoting, config.depositInfo);
      prop :- prop.UpdateStatus(env.block);
      var id := AdvanceProposalId();
      if size > G.MAX_PROPOSAL_SIZE {
        return Failure(ProposalTooLarge);
      }
      proposals := proposals[id := prop];
      return Success(G.DepositMsg(config.depositInfo, env.contract, env.sender));
    }

    method ExecuteVote(q: G.Querier, env: G.Env, id: nat, vote: Vote) returns (r: Result<seq<G.Outgoing>>)
      modifies this
      ensures Implements(r, View(), G.ExecuteVote(q, old(View()), env, id, vote))
    {
      hide Proposal.CurrentStatus, Votes.AddVote, Votes.RemoveVote;
      if id !in proposals {
        return Failure(NoSuchProposal);
      }
      var prop := proposals[id];
      var current :- prop.CurrentStatus(env.block);
      if current != Open {
        return Failure(NotOpen);
      }
      var power := q.power(config.dao, env.sender, prop.startHeight);
      if power == 0 {
        return Failure(NotRegistered);
      }
      var key, previous := (id, env.sender), None;
      if key in ballots {
        if !prop.allowRevoting {
          return Failure(AlreadyVoted);
        }
        if ballots[key].vote == vote {
          return Failure(AlreadyCast);
        }
        previous := Some(ballots[key]);
      }
      ballots := ballots[key := G.Ballot(power, vote)];
      var votes := prop.votes;
      if previous.Some? {
        votes :- votes.RemoveVote(previous.value.vote, previous.value.power);
      }
      votes :- votes.AddVote(vote, power);
      prop := prop.(votes := votes);
      prop :- prop.UpdateStatus(env.block);
      proposals := proposals[id := prop];
      return Success([]);
    }

    method ExecuteExecute(q: G.Querier, env: G.Env, id: nat) returns (r: Result<seq<G.Outgoing>>)
      modifies this
      ensures Implements(r, View(), G.ExecuteExecute(q, old(View()), env, id))
    {
      hide Proposal.CurrentStatus;
      if config.onlyMembersExecute {
        if q.power(config.dao, env.sender, env.block.height) == 0 {
          return Failure(Unauthorized);
        }
      }
      if id !in proposals {
        return Failure(NoSuchProposal);
      }
      var prop :- proposals[id].UpdateStatus(env.block);
      if prop.status != Passed {
        return Failure(NotPassed);
      }
      prop := prop.(status := Executed);
      proposals := proposals[id := prop];
      var out := [];
      if prop.msgs != [] {
        out := [G.ExecuteProposalHook(config.dao, prop.msgs)];
      }
      assert out + [] == out;
      if prop.depositInfo.Some? {
        out := out + G.ReturnDepositMsg(prop.depositInfo.value, prop.proposer);
      }
      return Success(out);
    }

    method ExecuteClose(env: G.Env, id: nat) returns (r: Result<seq<G.Outgoing>>)
      modifies this
      ensures Implements(r, View(), G.ExecuteClose(old(View()), env, id))
    {
      hide Proposal.CurrentStatus;
      if id !in proposals {
        return Failure(NotFound);
      }
      var prop :- proposals[id].UpdateStatus(env.block);
      if prop.status != Rejected {
        return Failure(WrongCloseStatus);
      }
      var out := [];
      if prop.depositInfo.Some? && prop.depositInfo.value.refundFailedProposals {
        out := G.ReturnDepositMsg(prop.depositInfo.value, prop.proposer);
      }
      prop := prop.(status := Closed);
      proposals := proposals[id := prop];
      return Success(out);
    }

    method ExecuteUpdateConfig(env: G.Env, newConfig: G.Config) returns (r: Result<seq<G.Outgoing>>)
      modifies this
      ensures Implements(r, View(), G.ExecuteUpdateConfig(old(View()), env, newConfig))
    {
      if env.sender != config.dao {
        return Failure(Unauthorized);
      }
      if !newConfig.threshold.Valid() {
        return Failure(InvalidThreshold);
      }
      var _ :- G.ValidateVotingPeriod(newConfig.minVotingPeriod, newConfig.maxVotingPeriod);
      config := newConfig;
      return Success([]);
    }

    method ExecuteRegisterAllowed(env: G.Env, address: Addr) returns (r: Result<seq<G.Outgoing>>)
      modifies this
      ensures Implements(r, View(), G.ExecuteRegisterAllowed(old(View()), env, address))
    {
      if env.sender != config.dao {
        return Failure(Unauthorized);
      }
      if address in allowedAddresses {
        return Failure(Exist);
      }
      allowedAddresses := allowedAddresses + {address};
      return Success([]);
    }

    method ExecuteDeregisterAllowed(env: G.Env, address: Addr) returns (r: Result<seq<G.Outgoing>>)
      modifies this
      ensures Implements(r, View(), G.ExecuteDeregisterAllowed(old(View()), env, address))
    {
      if env.sender != config.dao {
        return Failure(Unauthorized);
      }
      if address !in allowedAddresses {
        return Failure(NotExist);
      }
      allowedAddresses := allowedAddresses - {address};
      return Success([]);
    }

    /** One message, with the chain's rollback of failed ones: the state moves as `Deliver` says. */
    method Execute(q: G.Querier, env: G.Env, msg: G.Msg) returns (r: Result<seq<G.Outgoing>>)
      modifies this
      ensures View() == G.Deliver(q, old(View()), G.Call(env, msg)).state
      ensures match G.Step(q, old(View()), env, msg)
              case Success(outcome) => r == Success(outcome.out)
              case Failure(error) => r == Failure(error)
    {
      hide G.ExecutePropose, G.ExecuteVote, G.ExecuteExecute, G.ExecuteClose;
      var saved := (config, proposalCount, proposals, ballots, allowedAddresses);
      match msg {
        case Propose(msgs, size) => r := ExecutePropose(q, env, msgs, size);
        case CastVote(id, vote) => r := ExecuteVote(q, env, id, vote);
        case Execute(id) => r := ExecuteExecute(q, env, id);
        case Close(id) => r := ExecuteClose(env, id);
        case UpdateConfig(newConfig) => r := ExecuteUpdateConfig(env, newConfig);
        case RegisterAllowedAddress(address) => r := ExecuteRegisterAllowed(env, address);
        case DeregisterAllowedAddress(address) => r := ExecuteDeregisterAllowed(env, address);
      }
      if r.Failure? {
        config, proposalCount, proposals, ballots, allowedAddresses := saved.0, saved.1, saved.2, saved.3, saved.4;
      }
    }
  }
}
