/** What a message and the configuration of its moment turn into: the terms of a new proposal, who may
    change what, and what each message sends, followed to the execution or the close of the proposal. */
module ProposalTerms {
  import opened Cosmos
  import opened Voting
  import opened Proposals
  import opened EarlyDecisions
  import opened Governance
  import opened GovernanceInvariants
  import opened LateDecision
  import opened ProposalEnds

  // ----- creation -----

  /** `e` is over from exactly the block on at which a period of length `d`, begun at `start`, is over. */
  ghost predicate EndsAfter(e: Expiration, d: Duration, start: Block) {
    forall b: Block ::
      e.IsExpired(b) <==> match d
                          case Height(n) => b.height >= start.height + n
                          case Time(n) => b.time >= start.time + n * 1_000_000_000
  }

  /** The configurations that creation and update accept. */
  lemma ConfigAcceptedExactly(config: Config)
    ensures ValidateConfig(config).Success? <==>
              && (match config.threshold
                  case AbsolutePercentage(Percent(share)) => 0 < share <= 1_000_000_000_000_000_000
                  case ThresholdQuorum(threshold, quorum) =>
                    && (threshold.Percent? ==> 0 < threshold.atomics <= 1_000_000_000_000_000_000)
                    && (quorum.Percent? ==> quorum.atomics <= 1_000_000_000_000_000_000)
                  case _ => true)
              && forall start: Block, later: Block ::
                   config.minVotingPeriod.Some? && config.maxVotingPeriod.After(start).IsExpired(later) ==>
                     config.minVotingPeriod.value.After(start).IsExpired(later)
  {
    hide Expiration.IsExpired, Duration.After;
    PeriodsValidExactly(config.minVotingPeriod, config.maxVotingPeriod);
  }

  /** An accepted configuration is stored as it is, with the given addresses and nothing else. */
  lemma CreationExact(config: Config, preAllowed: set<Addr>)
    ensures Instantiate(config, preAllowed).Success? <==> ValidateConfig(config).Success?
    ensures Instantiate(config, preAllowed).Success? ==>
              var s := Instantiate(config, preAllowed).value;
              && s.config == config && s.allowedAddresses == preAllowed
              && s.proposalCount == 0 && s.proposals == map[] && s.ballots == map[]
  {
  }

  lemma PeriodEnds(d: Duration, start: Block)
    ensures EndsAfter(d.After(start), d, start)
  {
  }

  lemma NewProposalEvaluates(q: Querier, s: State, env: Env, msgs: seq<CosmosMsg>)
    requires Inv(s)
    ensures NewProposal(q, s.config, env, msgs).UpdateStatus(env.block).Success?
  {
    hide Inv, Aligned, NewProposal, ValidateConfig, Countable, Proposal.CurrentStatus;
    var p := NewProposal(q, s.config, env, msgs);
    ConfigKnown(s);
    NewProposalSound(q, s.config, env, msgs);
    TestsNeverPanic(p, env.block);
  }

  /** A proposal is accepted exactly from an allowed member of an active DAO, up to the size limit. */
  lemma ProposeSucceedsExactly(q: Querier, s: State, env: Env, msgs: seq<CosmosMsg>, size: nat)
    requires Inv(s)
    ensures ExecutePropose(q, s, env, msgs, size).Success? <==>
              && env.daoActive && q.power(s.config.dao, env.sender, env.block.height) != 0
              && env.sender in s.allowedAddresses && size <= 30_000
  {
    hide Inv, NewProposal, Proposal.UpdateStatus;
    NewProposalEvaluates(q, s, env, msgs);
  }

  /** The terms of a proposal are what was proposed and configured when it was, and nothing else is
      touched. */
  ghost predicate HasTerms(q: Querier, config: Config, env: Env, msgs: seq<CosmosMsg>, p: Proposal) {
    && p.proposer == env.sender && p.startHeight == env.block.height && p.msgs == msgs
    && p.threshold == config.threshold && p.totalPower == q.total(config.dao, env.block.height)
    && p.allowRevoting == config.allowRevoting && p.depositInfo == config.depositInfo
    && EndsAfter(p.expiration, config.maxVotingPeriod, env.block)
    && (p.minVotingPeriod.Some? <==> config.minVotingPeriod.Some?)
    && (p.minVotingPeriod.Some? ==> EndsAfter(p.minVotingPeriod.value, config.minVotingPeriod.value, env.block))
  }

  lemma ProposedTerms(q: Querier, s: State, env: Env, msgs: seq<CosmosMsg>, size: nat)
    requires Inv(s) && ExecutePropose(q, s, env, msgs, size).Success?
    ensures var s', id := ExecutePropose(q, s, env, msgs, size).value.state, s.proposalCount + 1;
            && id !in s.proposals && id in s'.proposals
            && HasTerms(q, s.config, env, msgs, s'.proposals[id])
            && s'.proposals[id].votes == Votes(0, 0, 0) && BallotsOf(s'.ballots, id) == map[]
            && s' == s.(proposalCount := id, proposals := s.proposals[id := s'.proposals[id]])
  {
    hide BallotsOf, TalliesMatch, Aligned, ValidateConfig, EndsAfter, Duration.After, Proposal.CurrentStatus;
    PeriodEnds(s.config.maxVotingPeriod, env.block);
    if s.config.minVotingPeriod.Some? {
      PeriodEnds(s.config.minVotingPeriod.value, env.block);
    }
    NoBallotsYet(s, s.proposalCount + 1);
  }

  // ----- settings -----

  /** Only the DAO changes the configuration and the allowed addresses, and as it says. */
  lemma SettingsFollowTheDao(q: Querier, s: State, call: Call, a: Addr)
    ensures var s', byDao := Deliver(q, s, call).state, call.env.sender == s.config.dao;
            && s'.config == (if byDao && call.msg.UpdateConfig? && ValidateConfig(call.msg.config).Success?
                             then call.msg.config else s.config)
            && (a in s'.allowedAddresses <==>
                  if byDao && call.msg == RegisterAllowedAddress(a) then true
                  else if byDao && call.msg == DeregisterAllowedAddress(a) then false
                  else a in s.allowedAddresses)
  {
    hide ValidateConfig, Proposal.CurrentStatus, Votes.AddVote, Votes.RemoveVote;
  }

  // ----- what is sent -----

  /** The payment of a deposit back to the proposer. */
  ghost predicate IsRefund(p: Proposal, out: seq<Outgoing>) {
    match p.depositInfo
    case Some(DepositInfo(token, deposit, _)) =>
      out == if deposit > 0 then [Transfer(token, p.proposer, deposit)] else []
    case None => out == []
  }

  /** A proposal asks its sender for the configured deposit. */
  lemma ProposalRequests(q: Querier, s: State, env: Env, msgs: seq<CosmosMsg>, size: nat)
    requires ExecutePropose(q, s, env, msgs, size).Success?
    ensures ExecutePropose(q, s, env, msgs, size).value.out
         == match s.config.depositInfo
            case Some(DepositInfo(token, deposit, _)) =>
              if deposit > 0 then [TransferFrom(token, env.sender, env.contract, deposit)] else []
            case None => []
  {
    hide Proposal.UpdateStatus, NewProposal;
  }

  lemma ExecutionSends(q: Querier, s: State, env: Env, id: nat)
    requires ExecuteExecute(q, s, env, id).Success?
    ensures id in s.proposals
    ensures exists refund :: IsRefund(s.proposals[id], refund) &&
              ExecuteExecute(q, s, env, id).value.out
              == (if s.proposals[id].msgs == [] then [] else [ExecuteProposalHook(s.config.dao, s.proposals[id].msgs)])
                 + refund
  {
    hide Proposal.CurrentStatus;
    var p := s.proposals[id];
    var refund := if p.depositInfo.Some? then ReturnDepositMsg(p.depositInfo.value, p.proposer) else [];
    assert IsRefund(p, refund);
  }

  lemma ClosingSends(s: State, env: Env, id: nat)
    requires ExecuteClose(s, env, id).Success?
    ensures id in s.proposals
    ensures var p, out := s.proposals[id], ExecuteClose(s, env, id).value.out;
            if p.depositInfo.Some? && p.depositInfo.value.refundFailedProposals then IsRefund(p, out) else out == []
  {
    hide Proposal.CurrentStatus;
  }

  /** Why a message was sent, by a call that found state `s`. */
  ghost predicate Explains(s: State, call: Call, m: Outgoing) {
    match m
    case ExecuteProposalHook(dao, msgs) =>
      && dao == s.config.dao
      && call.msg.Execute? && call.msg.proposalId in s.proposals
      && s.proposals[call.msg.proposalId].CurrentStatus(call.env.block) == Success(Passed)
      && msgs == s.proposals[call.msg.proposalId].msgs
    case TransferFrom(token, owner, recipient, amount) =>
      && call.msg.Propose? && owner == call.env.sender && recipient == call.env.contract
      && s.config.depositInfo.Some?
      && token == s.config.depositInfo.value.token && amount == s.config.depositInfo.value.deposit
    case Transfer(token, recipient, amount) =>
      && (call.msg.Execute? || call.msg.Close?) && call.msg.proposalId in s.proposals
      && recipient == s.proposals[call.msg.proposalId].proposer
      && s.proposals[call.msg.proposalId].depositInfo.Some?
      && token == s.proposals[call.msg.proposalId].depositInfo.value.token
      && amount == s.proposals[call.msg.proposalId].depositInfo.value.deposit
  }

  lemma VoteSendsNothing(q: Querier, s: State, env: Env, id: nat, vote: Vote)
    ensures ExecuteVote(q, s, env, id, vote).Success? ==> ExecuteVote(q, s, env, id, vote).value.out == []
  {
    hide Proposal.CurrentStatus, Votes.AddVote, Votes.RemoveVote;
  }

  lemma SentIsExplained(q: Querier, s: State, call: Call, m: Outgoing)
    requires m in Deliver(q, s, call).out
    ensures Explains(s, call, m)
  {
    hide Proposal.CurrentStatus, ValidateConfig, ExecuteVote, NewProposal;
    match call.msg
    case Propose(msgs, size) => ProposalRequests(q, s, call.env, msgs, size);
    case CastVote(id, vote) => VoteSendsNothing(q, s, call.env, id, vote);
    case Execute(id) => ExecutionSends(q, s, call.env, id);
    case Close(id) => ClosingSends(s, call.env, id);
    case _ =>
  }

  /** Every message sent in a run was sent by one of its calls, for a reason: in particular a proposal's
      messages are sent to the DAO configured at that moment, by an execution of that proposal while it
      read passed. */
  lemma {:induction false} EverythingSentIsExplained(q: Querier, s: State, calls: seq<Call>, m: Outgoing)
    requires m in Run(q, s, calls).out
    ensures exists i :: 0 <= i < |calls| && Explains(Run(q, s, calls[..i]).state, calls[i], m)
    decreases calls
  {
    hide Deliver, Explains;
    var d := Deliver(q, s, calls[0]);
    if m in d.out {
      SentIsExplained(q, s, calls[0], m);
      assert calls[..0] == [];
      assert Explains(Run(q, s, calls[..0]).state, calls[0], m);
    } else {
      EverythingSentIsExplained(q, d.state, calls[1..], m);
      var i :| 0 <= i < |calls[1..]| && Explains(Run(q, d.state, calls[1..][..i]).state, calls[1..][i], m);
      assert calls[..i + 1][1..] == calls[1..][..i];
      assert Explains(Run(q, s, calls[..i + 1]).state, calls[i + 1], m);
    }
  }

  // ----- from proposal to execution -----

  /** The refund of the deposit that `config` asked of `proposer`. */
  ghost function RefundOf(config: Config, proposer: Addr): seq<Outgoing> {
    match config.depositInfo
    case Some(DepositInfo(token, deposit, _)) => if deposit > 0 then [Transfer(token, proposer, deposit)] else []
    case None => []
  }

  lemma TermsStay(q: Querier, config: Config, env: Env, msgs: seq<CosmosMsg>, p: Proposal, p': Proposal)
    requires HasTerms(q, config, env, msgs, p) && p'.SameTerms(p)
    ensures HasTerms(q, config, env, msgs, p')
  {
    hide EndsAfter;
  }

  lemma RefundsTerms(q: Querier, config: Config, env: Env, msgs: seq<CosmosMsg>, p: Proposal, out: seq<Outgoing>)
    requires HasTerms(q, config, env, msgs, p) && IsRefund(p, out)
    ensures out == RefundOf(config, env.sender)
  {
    hide EndsAfter;
  }

  /** From the message to its effect, over any run before and any run after it: a proposal keeps the terms it
      was proposed with, and its execution sends exactly the messages that were proposed, to the DAO of that
      moment, and the deposit of the configuration it was proposed under, back to its proposer; its close
      sends that refund if that configuration refunds failed proposals, and nothing otherwise. */
  lemma ProposedIsExecuted(q: Querier, config: Config, preAllowed: set<Addr>, before: seq<Call>,
                           env: Env, msgs: seq<CosmosMsg>, size: nat, after: seq<Call>, last: Env)
    requires Instantiate(config, preAllowed).Success?
    requires ExecutePropose(q, Run(q, Instantiate(config, preAllowed).value, before).state, env, msgs, size).Success?
    ensures var s0 := Run(q, Instantiate(config, preAllowed).value, before).state;
            var s := Run(q, ExecutePropose(q, s0, env, msgs, size).value.state, after).state;
            var id := s0.proposalCount + 1;
            && id in s.proposals && HasTerms(q, s0.config, env, msgs, s.proposals[id])
            && (ExecuteExecute(q, s, last, id).Success? ==>
                  ExecuteExecute(q, s, last, id).value.out
                  == (if msgs == [] then [] else [ExecuteProposalHook(s.config.dao, msgs)])
                     + RefundOf(s0.config, env.sender))
            && (ExecuteClose(s, last, id).Success? ==>
                  ExecuteClose(s, last, id).value.out
                  == if s0.config.depositInfo.Some? && s0.config.depositInfo.value.refundFailedProposals
                     then RefundOf(s0.config, env.sender) else [])
  {
    hide Run, ExecutePropose, ExecuteExecute, ExecuteClose, IsRefund, RefundOf, EndsAfter, Inv;
    var start := Instantiate(config, preAllowed).value;
    var s0 := Run(q, start, before).state;
    var s1, id := ExecutePropose(q, s0, env, msgs, size).value.state, s0.proposalCount + 1;
    var s := Run(q, s1, after).state;
    InstantiateInv(config, preAllowed);
    RunKeepsInv(q, start, before);
    ProposeKeepsInv(q, s0, env, msgs, size);
    ProposedTerms(q, s0, env, msgs, size);
    RunMovesForward(q, s1, after, id);
    TermsStay(q, s0.config, env, msgs, s1.proposals[id], s.proposals[id]);
    var p := s.proposals[id];
    if ExecuteExecute(q, s, last, id).Success? {
      ExecutionSends(q, s, last, id);
      var refund :| IsRefund(p, refund) &&
        ExecuteExecute(q, s, last, id).value.out
        == (if p.msgs == [] then [] else [ExecuteProposalHook(s.config.dao, p.msgs)]) + refund;
      RefundsTerms(q, s0.config, env, msgs, p, refund);
    }
    if ExecuteClose(s, last, id).Success? {
      ClosingSends(s, last, id);
      if p.depositInfo.Some? && p.depositInfo.value.refundFailedProposals {
        RefundsTerms(q, s0.config, env, msgs, p, ExecuteClose(s, last, id).value.out);
      }
    }
  }
}
