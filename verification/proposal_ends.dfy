/** Whether a proposal can always be brought to an end: under a fair voting module it can, by the message
    its verdict calls for; without one an evaluation can abort for good, in exactly one situation. */
module ProposalEnds {
  import opened Cosmos
  import opened Voting
  import opened Proposals
  import opened EarlyDecisions
  import opened Governance
  import opened GovernanceInvariants
  import opened LateDecision

  // ----- every proposal ends, under a fair module -----

  /** A stored verdict is the one its tally has at the close. */
  ghost predicate Judged(p: Proposal) {
    && p.votes.Cast() <= p.totalPower
    && (p.status == Passed ==> PassesAtClose(p, p.votes))
    && (p.status == Rejected ==> !PassesAtClose(p, p.votes))
  }

  ghost predicate AllJudged(s: State) {
    forall id :: id in s.proposals ==> Judged(s.proposals[id])
  }

  lemma EvaluatedIsJudged(p: Proposal, b: Block)
    requires Sound(p) && p.status == Open && p.UpdateStatus(b).Success?
    ensures Judged(p.UpdateStatus(b).value)
  {
    hide PassesAtClose, Proposal.CurrentStatus, Proposal.MinPeriodOver;
    VerdictsIgnoreStatus(p, p.UpdateStatus(b).value.status);
    assert Extends(p, p.votes);
    if p.expiration.IsExpired(b) {
      StatusAtClose(p, b);
    } else if p.allowRevoting {
      RevotingDecidesNothingEarly(p, b);
    } else {
      StatusBeforeClose(p, b);
    }
  }

  lemma VoteKeepsJudged(q: Querier, s: State, env: Env, id: nat, vote: Vote)
    requires Fair(q) && Inv(s) && Backed(q, s) && AllJudged(s) && ExecuteVote(q, s, env, id, vote).Success?
    ensures AllJudged(ExecuteVote(q, s, env, id, vote).value.state)
  {
    hide Tally, BallotsOf, Judged, ExecuteVote, Inv, Backed, Fair, Sound, Proposal.CurrentStatus;
    var s' := ExecuteVote(q, s, env, id, vote).value.state;
    VoteEffect(q, s, env, id, vote);
    StoredStatusShows(s.proposals[id], env.block);
    VoteKeepsInv(q, s, env, id, vote);
    VoteKeepsBacked(q, s, env, id, vote);
    BackedIsSound(q, s', id);
    VerdictsIgnoreStatus(s'.proposals[id], Open);
    EvaluatedIsJudged(s.proposals[id].(votes := s'.proposals[id].votes), env.block);
  }

  lemma ProposeKeepsJudged(q: Querier, s: State, env: Env, msgs: seq<CosmosMsg>, size: nat)
    requires Inv(s) && AllJudged(s) && ExecutePropose(q, s, env, msgs, size).Success?
    ensures AllJudged(ExecutePropose(q, s, env, msgs, size).value.state)
  {
    hide Judged, Inv, Sound, ValidateConfig, NewProposal, Proposal.CurrentStatus;
    ConfigKnown(s);
    NewProposalSound(q, s.config, env, msgs);
    NewProposalTerms(q, s.config, env, msgs);
    EvaluatedIsJudged(NewProposal(q, s.config, env, msgs), env.block);
  }

  lemma DeliverKeepsJudged(q: Querier, s: State, call: Call)
    requires Fair(q) && Inv(s) && Backed(q, s) && AllJudged(s)
    ensures AllJudged(Deliver(q, s, call).state)
  {
    hide Inv, Fair, Backed, PassesAtClose, ValidateConfig, ExecutePropose, ExecuteVote, Proposal.CurrentStatus;
    if Step(q, s, call.env, call.msg).Success? {
      match call.msg
      case Propose(msgs, size) => ProposeKeepsJudged(q, s, call.env, msgs, size);
      case CastVote(id, vote) => VoteKeepsJudged(q, s, call.env, id, vote);
      case Execute(id) => VerdictsIgnoreStatus(s.proposals[id], Executed);
      case Close(id) => VerdictsIgnoreStatus(s.proposals[id], Closed);
      case _ =>
    }
  }

  lemma {:induction false} RunKeepsJudged(q: Querier, s: State, calls: seq<Call>)
    requires Fair(q) && Inv(s) && Backed(q, s) && AllJudged(s)
    ensures AllJudged(Run(q, s, calls).state)
    decreases calls
  {
    hide Inv, Fair, Backed, AllJudged, Deliver;
    if calls != [] {
      DeliverKeepsInv(q, s, calls[0]);
      DeliverKeepsBacked(q, s, calls[0]);
      DeliverKeepsJudged(q, s, calls[0]);
      RunKeepsJudged(q, Deliver(q, s, calls[0]).state, calls[1..]);
    }
  }

  /** The verdict a proposal reads past its expiration, whether stored or still to be evaluated. */
  lemma VerdictShows(p: Proposal, b: Block)
    requires Sound(p) && Judged(p) && !Final(p.status) && p.expiration.IsExpired(b)
    ensures p.CurrentStatus(b) == Success(if PassesAtClose(p, p.votes) then Passed else Rejected)
  {
    hide PassesAtClose, Proposal.IsPassed, Proposal.IsRejected, Proposal.MinPeriodOver;
    if p.status == Open {
      StatusAtClose(p, b);
    }
  }

  /** Over any run under a fair module, a proposal past its expiration can be brought to an end exactly
      once more: closed, by anyone, if its ballots lose; executed, by anyone who may execute, if they
      win. */
  lemma EveryProposalEnds(q: Querier, config: Config, preAllowed: set<Addr>, calls: seq<Call>, id: nat, env: Env)
    requires Fair(q) && Instantiate(config, preAllowed).Success?
    ensures var s := Run(q, Instantiate(config, preAllowed).value, calls).state;
            id in s.proposals && s.proposals[id].expiration.IsExpired(env.block) && !Final(s.proposals[id].status) ==>
              var p, tally := s.proposals[id], Tally(BallotsOf(s.ballots, id));
              && tally.Cast() <= p.totalPower
              && (ExecuteClose(s, env, id).Success? <==> !PassesAtClose(p, tally))
              && (ExecuteExecute(q, s, env, id).Success? <==>
                    && PassesAtClose(p, tally)
                    && (s.config.onlyMembersExecute ==> q.power(s.config.dao, env.sender, env.block.height) != 0))
  {
    hide Tally, BallotsOf, PassesAtClose, Sound, Run, Proposal.CurrentStatus, Fair, Aligned, ValidateConfig;
    var s0 := Instantiate(config, preAllowed).value;
    var s := Run(q, s0, calls).state;
    InstantiateInv(config, preAllowed);
    RunKeepsInv(q, s0, calls);
    RunKeepsBacked(q, s0, calls);
    RunKeepsJudged(q, s0, calls);
    if id in s.proposals && s.proposals[id].expiration.IsExpired(env.block) && !Final(s.proposals[id].status) {
      BackedIsSound(q, s, id);
      VerdictShows(s.proposals[id], env.block);
    }
  }

  // ----- before the close -----

  /** A verdict stored before the close is one that no vote can change, and not stored too early. */
  ghost predicate JudgedEarly(p: Proposal, now: Block) {
    !p.expiration.IsExpired(now) ==>
      && (p.status == Passed ==> !p.allowRevoting && p.MinPeriodOver(now) && AlwaysPasses(p))
      && (p.status == Rejected ==> !p.allowRevoting && NeverPasses(p))
  }

  ghost predicate AllJudgedEarly(s: State, now: Block) {
    forall id :: id in s.proposals ==> JudgedEarly(s.proposals[id], now)
  }

  lemma EvaluatedIsJudgedEarly(p: Proposal, b: Block)
    requires Sound(p) && p.status == Open && p.UpdateStatus(b).Success?
    ensures JudgedEarly(p.UpdateStatus(b).value, b)
  {
    hide AlwaysPasses, NeverPasses, Proposal.CurrentStatus;
    VerdictsIgnoreStatus(p, p.UpdateStatus(b).value.status);
    if !p.expiration.IsExpired(b) {
      if p.allowRevoting {
        RevotingDecidesNothingEarly(p, b);
      } else {
        StatusBeforeClose(p, b);
      }
    }
  }

  lemma JudgedEarlyAges(p: Proposal, now: Block, later: Block)
    requires JudgedEarly(p, now) && now.NotAfter(later)
    ensures JudgedEarly(p, later)
  {
    hide AlwaysPasses, NeverPasses;
  }

  lemma EndedIsJudgedEarly(p: Proposal, status: Status, now: Block)
    requires status in {Executed, Closed}
    ensures JudgedEarly(p.(status := status), now)
  {
  }

  lemma DeliverKeepsJudgedEarly(q: Querier, s: State, now: Block, call: Call)
    requires Fair(q) && Inv(s) && Backed(q, s) && AllJudgedEarly(s, now) && now.NotAfter(call.env.block)
    ensures AllJudgedEarly(Deliver(q, s, call).state, call.env.block)
  {
    hide Inv, Fair, Backed, Sound, JudgedEarly, ValidateConfig, NewProposal, ExecuteVote, Proposal.CurrentStatus;
    var b, s' := call.env.block, Deliver(q, s, call).state;
    forall id | id in s.proposals ensures JudgedEarly(s.proposals[id], b) {
      JudgedEarlyAges(s.proposals[id], now, b);
    }
    if Step(q, s, call.env, call.msg).Success? {
      match call.msg
      case Propose(msgs, size) =>
        ConfigKnown(s);
        NewProposalSound(q, s.config, call.env, msgs);
        NewProposalTerms(q, s.config, call.env, msgs);
        EvaluatedIsJudgedEarly(NewProposal(q, s.config, call.env, msgs), b);
      case CastVote(id, vote) =>
        VoteEffect(q, s, call.env, id, vote);
        StoredStatusShows(s.proposals[id], b);
        VoteKeepsInv(q, s, call.env, id, vote);
        VoteKeepsBacked(q, s, call.env, id, vote);
        BackedIsSound(q, s', id);
        VerdictsIgnoreStatus(s'.proposals[id], Open);
        EvaluatedIsJudgedEarly(s.proposals[id].(votes := s'.proposals[id].votes), b);
      case Execute(id) => EndedIsJudgedEarly(s.proposals[id], Executed, b);
      case Close(id) => EndedIsJudgedEarly(s.proposals[id], Closed, b);
      case _ =>
    }
  }

  lemma {:induction false} RunKeepsJudgedEarly(q: Querier, s: State, self: Addr, now: Block, calls: seq<Call>,
                                               end: Block)
    requires Fair(q) && Inv(s) && Backed(q, s) && AllJudgedEarly(s, now)
    requires Ordered(self, now, calls) && now.NotAfter(end) && forall c :: c in calls ==> c.env.block.NotAfter(end)
    ensures AllJudgedEarly(Run(q, s, calls).state, end)
    decreases calls
  {
    hide Inv, Fair, Backed, JudgedEarly, Deliver;
    if calls == [] {
      forall id | id in s.proposals ensures JudgedEarly(s.proposals[id], end) {
        JudgedEarlyAges(s.proposals[id], now, end);
      }
    } else {
      DeliverKeepsInv(q, s, calls[0]);
      DeliverKeepsBacked(q, s, calls[0]);
      DeliverKeepsJudgedEarly(q, s, now, calls[0]);
      RunKeepsJudgedEarly(q, Deliver(q, s, calls[0]).state, self, calls[0].env.block, calls[1..], end);
    }
  }

  lemma VerdictShowsEarly(p: Proposal, b: Block)
    requires Sound(p) && JudgedEarly(p, b) && !Final(p.status) && !p.expiration.IsExpired(b)
    ensures p.CurrentStatus(b) == Success(
              if p.allowRevoting then Open
              else if p.MinPeriodOver(b) && AlwaysPasses(p) then Passed
              else if NeverPasses(p) then Rejected
              else Open)
  {
    hide PassesAtClose, Proposal.IsPassed, Proposal.IsRejected;
    assert Extends(p, p.votes);
    if p.status == Open {
      if p.allowRevoting {
        RevotingDecidesNothingEarly(p, b);
      } else {
        StatusBeforeClose(p, b);
      }
    }
  }

  lemma MinPeriodIs(p: Proposal, b: Block)
    ensures p.MinPeriodOver(b) <==> (p.minVotingPeriod.Some? ==> p.minVotingPeriod.value.IsExpired(b))
  {
  }

  lemma NotBoth(p: Proposal)
    requires p.votes.Cast() <= p.totalPower
    ensures !(AlwaysPasses(p) && NeverPasses(p))
  {
    hide PassesAtClose;
    assert Extends(p, p.votes);
  }

  /** Over any ordered run under a fair module, before a proposal expires: with revoting it cannot be ended;
      without, it can be executed exactly when its minimum period is over and no remaining vote can make it
      lose, by anyone who may execute, and closed, by anyone, exactly when none can make it win. */
  lemma EndsEarlyExactly(q: Querier, config: Config, preAllowed: set<Addr>, start: Block, calls: seq<Call>,
                         id: nat, env: Env)
    requires Fair(q) && Instantiate(config, preAllowed).Success?
    requires Ordered(env.contract, start, calls) && start.NotAfter(env.block)
    requires forall c :: c in calls ==> c.env.block.NotAfter(env.block)
    ensures var s := Run(q, Instantiate(config, preAllowed).value, calls).state;
            id in s.proposals && !s.proposals[id].expiration.IsExpired(env.block) && !Final(s.proposals[id].status) ==>
              var p := s.proposals[id];
              && p.votes == Tally(BallotsOf(s.ballots, id)) && p.votes.Cast() <= p.totalPower
              && (ExecuteClose(s, env, id).Success? <==> !p.allowRevoting && NeverPasses(p))
              && (ExecuteExecute(q, s, env, id).Success? <==>
                    && !p.allowRevoting && AlwaysPasses(p)
                    && (p.minVotingPeriod.Some? ==> p.minVotingPeriod.value.IsExpired(env.block))
                    && (s.config.onlyMembersExecute ==> q.power(s.config.dao, env.sender, env.block.height) != 0))
  {
    hide Tally, BallotsOf, Sound, Run, Fair, Aligned, ValidateConfig, AlwaysPasses, NeverPasses, JudgedEarly,
         Proposal.CurrentStatus, Proposal.MinPeriodOver;
    var s0 := Instantiate(config, preAllowed).value;
    var s := Run(q, s0, calls).state;
    InstantiateInv(config, preAllowed);
    RunKeepsInv(q, s0, calls);
    RunKeepsBacked(q, s0, calls);
    RunKeepsJudgedEarly(q, s0, env.contract, start, calls, env.block);
    if id in s.proposals && !s.proposals[id].expiration.IsExpired(env.block) && !Final(s.proposals[id].status) {
      BackedIsSound(q, s, id);
      SoundTally(s.proposals[id]);
      VerdictShowsEarly(s.proposals[id], env.block);
      NotBoth(s.proposals[id]);
      MinPeriodIs(s.proposals[id], env.block);
    }
  }

  // ----- without a fair module -----

  /** The checked arithmetic of the status tests goes through on the tally, at the close or before. */
  ghost predicate Countable(p: Proposal, atClose: bool) {
    match p.threshold
    case AbsolutePercentage(_) => p.votes.abstain <= p.totalPower
    case ThresholdQuorum(_, _) => p.votes.Cast() <= U128_MAX && (atClose || p.votes.abstain <= p.totalPower)
    case AbsoluteCount(_) => atClose || p.votes.Cast() <= p.totalPower
  }

  lemma TooManyMeetQuorum(cast: nat, power: nat, quorum: PercentageThreshold)
    requires cast > power && ValidQuorum(quorum)
    ensures DoesVoteCountPass(cast, power, quorum) <==> power > 0
  {
    if power > 0 && quorum.Percent? {
      assert power * quorum.atomics <= power * DECIMAL_ONE;
    }
  }

  lemma RejectionComputes(percent: PercentageThreshold)
    requires ValidPassing(percent)
    ensures forall no: nat, options: nat :: RejectedAmong(no, options, percent).Success?
  {
  }

  /** Exactly when an evaluation aborts, for any proposal with valid terms and any tally. */
  lemma StatusAbortsExactly(p: Proposal, b: Block)
    requires p.threshold.Valid() && Aligned(p)
    ensures p.CurrentStatus(b).Failure? <==>
              && p.status == Open
              && (p.allowRevoting ==> p.expiration.IsExpired(b))
              && !Countable(p, p.expiration.IsExpired(b))
              && !(p.threshold.AbsoluteCount? && p.MinPeriodOver(b) && p.votes.yes >= p.threshold.count)
  {
    hide DoesVoteCountPass, RejectedAmong;
    match p.threshold
    case AbsolutePercentage(percentage) => RejectionComputes(percentage);
    case ThresholdQuorum(threshold, quorum) =>
      RejectionComputes(threshold);
      if p.votes.Cast() > p.totalPower {
        TooManyMeetQuorum(p.votes.Cast(), p.totalPower, quorum);
      }
    case AbsoluteCount(_) =>
  }

  /** What every run keeps, whatever the voting module reports: without revoting, a proposal stored as
      open has been evaluated on its very tally, before the close. */
  ghost predicate AllCountable(s: State) {
    forall id :: id in s.proposals && s.proposals[id].status == Open && !s.proposals[id].allowRevoting ==>
                   Countable(s.proposals[id], false)
  }

  lemma ReadsOpen(p: Proposal, b: Block)
    requires p.status == Open && p.CurrentStatus(b) == Success(Open) && !p.allowRevoting
    ensures !p.expiration.IsExpired(b)
    ensures !(p.threshold.AbsoluteCount? && p.MinPeriodOver(b) && p.votes.yes >= p.threshold.count)
  {
  }

  lemma NothingToCount(s: State)
    requires s.proposals == map[]
    ensures AllCountable(s)
  {
  }

  lemma OpenIsCountable(p: Proposal, b: Block)
    requires p.threshold.Valid() && Aligned(p) && !p.allowRevoting
    requires p.status == Open && p.CurrentStatus(b) == Success(Open)
    ensures Countable(p, false)
  {
    hide Aligned, Proposal.CurrentStatus, Proposal.MinPeriodOver;
    StatusAbortsExactly(p, b);
    ReadsOpen(p, b);
  }

  lemma TermsKnown(s: State, id: nat)
    requires Inv(s) && id in s.proposals
    ensures s.proposals[id].threshold.Valid() && Aligned(s.proposals[id])
  {
  }

  lemma NoVotesCountable(q: Querier, config: Config, env: Env, msgs: seq<CosmosMsg>)
    ensures forall status :: Countable(NewProposal(q, config, env, msgs).(status := status), false)
  {
  }

  lemma DeliverKeepsCountable(q: Querier, s: State, call: Call)
    requires Inv(s) && AllCountable(s)
    ensures AllCountable(Deliver(q, s, call).state)
  {
    hide Inv, Tally, BallotsOf, Aligned, Threshold.Valid, ValidateConfig, ExecuteVote, NewProposal, Countable,
         Proposal.CurrentStatus;
    if Step(q, s, call.env, call.msg).Success? {
      match call.msg
      case Propose(msgs, size) => NoVotesCountable(q, s.config, call.env, msgs);
      case CastVote(id, vote) =>
        var s' := ExecuteVote(q, s, call.env, id, vote).value.state;
        VoteEffect(q, s, call.env, id, vote);
        StoredStatusShows(s.proposals[id], call.env.block);
        if s'.proposals[id].status == Open && !s'.proposals[id].allowRevoting {
          VoteKeepsInv(q, s, call.env, id, vote);
          TermsKnown(s', id);
          OpenIsCountable(s'.proposals[id], call.env.block);
        }
      case _ =>
    }
  }

  lemma {:induction false} RunKeepsCountable(q: Querier, s: State, calls: seq<Call>)
    requires Inv(s) && AllCountable(s)
    ensures AllCountable(Run(q, s, calls).state)
    decreases calls
  {
    hide Inv, AllCountable, Deliver;
    if calls != [] {
      DeliverKeepsInv(q, s, calls[0]);
      DeliverKeepsCountable(q, s, calls[0]);
      RunKeepsCountable(q, Deliver(q, s, calls[0]).state, calls[1..]);
    }
  }

  /** When an evaluation aborts in a state as reached by runs. */
  ghost predicate Stuck(p: Proposal, b: Block) {
    && p.status == Open && p.allowRevoting && p.expiration.IsExpired(b)
    && match p.threshold
       case AbsolutePercentage(_) => p.votes.abstain > p.totalPower
       case ThresholdQuorum(_, _) => p.votes.Cast() > U128_MAX
       case AbsoluteCount(_) => false
  }

  lemma AbortsIffStuck(s: State, id: nat, b: Block)
    requires Inv(s) && AllCountable(s) && id in s.proposals
    ensures s.proposals[id].CurrentStatus(b).Failure? <==> Stuck(s.proposals[id], b)
  {
    hide TalliesMatch, ValidateConfig, Aligned, Proposal.CurrentStatus, Proposal.MinPeriodOver;
    StatusAbortsExactly(s.proposals[id], b);
  }

  /** From instantiation on, whatever the voting module reports: an evaluation aborts exactly for a
      proposal with revoting, past its expiration, with more power abstaining than there is in total, or,
      under a quorum, with a tally beyond 128 bits. Without revoting it never aborts. */
  lemma ReachableAbortsExactly(q: Querier, config: Config, preAllowed: set<Addr>, calls: seq<Call>, id: nat, b: Block)
    requires Instantiate(config, preAllowed).Success?
    ensures var s := Run(q, Instantiate(config, preAllowed).value, calls).state;
            id in s.proposals ==> (s.proposals[id].CurrentStatus(b).Failure? <==> Stuck(s.proposals[id], b))
  {
    hide Inv, Run, Stuck, Proposal.CurrentStatus;
    var s0 := Instantiate(config, preAllowed).value;
    InstantiateInv(config, preAllowed);
    RunKeepsInv(q, s0, calls);
    RunKeepsCountable(q, s0, calls);
    if id in Run(q, s0, calls).state.proposals {
      AbortsIffStuck(Run(q, s0, calls).state, id, b);
    }
  }

  lemma StuckStepFails(q: Querier, s: State, id: nat, now: Block, call: Call)
    requires Inv(s) && AllCountable(s) && id in s.proposals
    requires Stuck(s.proposals[id], now) && now.NotAfter(call.env.block)
    ensures var s' := Deliver(q, s, call).state;
            id in s'.proposals && s'.proposals[id] == s.proposals[id]
  {
    hide Inv, AllCountable, Tally, BallotsOf, ValidateConfig, Proposal.CurrentStatus;
    IdsKnown(s);
    AbortsIffStuck(s, id, call.env.block);
  }

  /** A stuck proposal stays as it is over every later run: never decided, executed or closed, its
      deposit never refunded. */
  lemma {:induction false} StuckForever(q: Querier, s: State, id: nat, self: Addr, now: Block, calls: seq<Call>)
    requires Inv(s) && AllCountable(s) && id in s.proposals
    requires Stuck(s.proposals[id], now) && Ordered(self, now, calls)
    ensures var s' := Run(q, s, calls).state;
            id in s'.proposals && s'.proposals[id] == s.proposals[id]
    decreases calls
  {
    hide Inv, AllCountable, Deliver;
    if calls != [] {
      StuckStepFails(q, s, id, now, calls[0]);
      DeliverKeepsInv(q, s, calls[0]);
      DeliverKeepsCountable(q, s, calls[0]);
      StuckForever(q, Deliver(q, s, calls[0]).state, id, self, calls[0].env.block, calls[1..]);
    }
  }
}
