/** What every message, hence every run, of the proposal module keeps: tallies equal the stored
    ballots, nothing panics under a fair voting module, and statuses only move forward. */
module GovernanceInvariants {
  import opened Cosmos
  import opened Sums
  import opened Voting
  import opened Proposals
  import opened EarlyDecisions
  import opened Governance

  // ----- ballots -----

  function BallotsOf(ballots: map<(nat, Addr), Ballot>, id: nat): map<Addr, Ballot> {
    map k | k in ballots && k.0 == id :: k.1 := ballots[k]
  }

  function Weight(vote: Vote): (Addr, Ballot) -> nat {
    (voter: Addr, ballot: Ballot) => if ballot.vote == vote then ballot.power else 0
  }

  function DecidedWeight(): (Addr, Ballot) -> nat {
    (voter: Addr, ballot: Ballot) => if ballot.vote != Abstain then ballot.power else 0
  }

  function AnyWeight(): (Addr, Ballot) -> nat {
    (voter: Addr, ballot: Ballot) => ballot.power
  }

  /** The tally a set of ballots stands for. */
  ghost function Tally(b: map<Addr, Ballot>): Votes {
    Votes(Sum(b, Weight(Yes)), Sum(b, Weight(No)), Sum(b, Weight(Abstain)))
  }

  lemma TallyCast(b: map<Addr, Ballot>)
    ensures Tally(b).Cast() == Sum(b, AnyWeight())
  {
    SumPlus(b, Weight(Yes), Weight(No), DecidedWeight());
    SumPlus(b, DecidedWeight(), Weight(Abstain), AnyWeight());
  }

  lemma TallyRemove(b: map<Addr, Ballot>, voter: Addr)
    requires voter in b
    ensures Tally(b) == CastOne(Tally(b - {voter}), b[voter].power, Some(b[voter].vote))
  {
    SumRemove(b, Weight(Yes), voter);
    SumRemove(b, Weight(No), voter);
    SumRemove(b, Weight(Abstain), voter);
  }

  lemma TallyInsert(b: map<Addr, Ballot>, voter: Addr, ballot: Ballot)
    ensures Tally(b[voter := ballot]) == CastOne(Tally(b - {voter}), ballot.power, Some(ballot.vote))
  {
    TallyRemove(b[voter := ballot], voter);
    assert b[voter := ballot] - {voter} == b - {voter};
  }

  lemma BallotsOfMember(ballots: map<(nat, Addr), Ballot>, id: nat, voter: Addr)
    ensures voter in BallotsOf(ballots, id) <==> (id, voter) in ballots
    ensures voter in BallotsOf(ballots, id) ==> BallotsOf(ballots, id)[voter] == ballots[(id, voter)]
  {
  }

  lemma BallotsOfOne(ballots: map<(nat, Addr), Ballot>, id: nat, voter: Addr, ballot: Ballot, other: nat)
    ensures BallotsOf(ballots[(id, voter) := ballot], other)
         == if other == id then BallotsOf(ballots, id)[voter := ballot] else BallotsOf(ballots, other)
  {
    var ballots' := ballots[(id, voter) := ballot];
    forall a ensures a in BallotsOf(ballots', other) <==> (other, a) in ballots'
             ensures a in BallotsOf(ballots, other) <==> (other, a) in ballots
    {
      BallotsOfMember(ballots', other, a);
      BallotsOfMember(ballots, other, a);
    }
  }

  lemma BallotsOfUpdate(ballots: map<(nat, Addr), Ballot>, id: nat, voter: Addr, ballot: Ballot)
    ensures BallotsOf(ballots[(id, voter) := ballot], id) == BallotsOf(ballots, id)[voter := ballot]
    ensures forall other :: other != id ==>
                              BallotsOf(ballots[(id, voter) := ballot], other) == BallotsOf(ballots, other)
  {
    hide BallotsOf;
    BallotsOfOne(ballots, id, voter, ballot, id);
    forall other | other != id
      ensures BallotsOf(ballots[(id, voter) := ballot], other) == BallotsOf(ballots, other)
    {
      BallotsOfOne(ballots, id, voter, ballot, other);
    }
  }

  // ----- the invariant -----

  ghost predicate Aligned(p: Proposal) {
    forall b: Block :: p.expiration.IsExpired(b) ==> p.MinPeriodOver(b)
  }

  ghost predicate TalliesMatch(s: State) {
    forall id :: id in s.proposals ==> s.proposals[id].votes == Tally(BallotsOf(s.ballots, id))
  }

  ghost predicate Inv(s: State) {
    && ValidateConfig(s.config).Success?
    && (forall id :: id in s.proposals <==> 1 <= id <= s.proposalCount)
    && (forall k :: k in s.ballots ==> 1 <= k.0 <= s.proposalCount)
    && (forall id :: id in s.proposals ==> s.proposals[id].threshold.Valid() && Aligned(s.proposals[id]))
    && TalliesMatch(s)
  }

  lemma InstantiateInv(config: Config, preAllowed: set<Addr>)
    ensures var r := Instantiate(config, preAllowed); r.Success? ==> Inv(r.value)
  {
  }

  /** `validate_voting_period` lets through exactly the pairs for which no vote, opened at any block,
      can be over at a block where its minimum period is not. */
  lemma PeriodsValidExactly(min: Option<Duration>, max: Duration)
    ensures ValidateVotingPeriod(min, max).Success? <==>
              forall start: Block, later: Block ::
                min.Some? && max.After(start).IsExpired(later) ==> min.value.After(start).IsExpired(later)
  {
    if min.Some? && ValidateVotingPeriod(min, max).Failure? {
      var end := max.After(Block(1, 1));
      var later := if end.AtHeight? then Block(end.height, 0) else Block(0, end.time);
      assert end.IsExpired(later) && !min.value.After(Block(1, 1)).IsExpired(later);
    }
  }

  /** `validate_voting_period` is what makes the minimum period end no later than the vote. */
  lemma NewProposalAligned(q: Querier, config: Config, env: Env, msgs: seq<CosmosMsg>)
    requires ValidateConfig(config).Success?
    ensures Aligned(NewProposal(q, config, env, msgs))
  {
  }

  /** One vote: the ballots of the proposal and its tally after it. */
  lemma VoteEffect(q: Querier, s: State, env: Env, id: nat, vote: Vote)
    requires Inv(s) && ExecuteVote(q, s, env, id, vote).Success?
    ensures id in s.proposals && id in ExecuteVote(q, s, env, id, vote).value.state.proposals
    ensures var s' := ExecuteVote(q, s, env, id, vote).value.state;
            var p, p' := s.proposals[id], s'.proposals[id];
            var power := q.power(s.config.dao, env.sender, p.startHeight);
            && p'.SameTerms(p) && p.CurrentStatus(env.block) == Success(Open)
            && power > 0 && ((id, env.sender) in s.ballots ==> p.allowRevoting)
            && p'.votes == CastOne(Tally(BallotsOf(s.ballots, id) - {env.sender}), power, Some(vote))
            && BallotsOf(s'.ballots, id) == BallotsOf(s.ballots, id)[env.sender := Ballot(power, vote)]
            && p.(votes := p'.votes).UpdateStatus(env.block) == Success(p')
            && p'.status in {Open, Passed, Rejected}
            && s' == s.(proposals := s.proposals[id := p'],
                         ballots := s.ballots[(id, env.sender) := Ballot(power, vote)])
  {
    hide Sum, BallotsOf, Aligned, ValidateConfig, Proposal.CurrentStatus;
    var b := BallotsOf(s.ballots, id);
    var power := q.power(s.config.dao, env.sender, s.proposals[id].startHeight);
    BallotsOfMember(s.ballots, id, env.sender);
    if env.sender in b {
      TallyRemove(b, env.sender);
    } else {
      assert b - {env.sender} == b;
    }
    BallotsOfUpdate(s.ballots, id, env.sender, Ballot(power, vote));
    var p := s.proposals[id];
    StoredStatusShows(p, env.block);
    StoredStatusShows(p.(votes := ExecuteVote(q, s, env, id, vote).value.state.proposals[id].votes), env.block);
  }

  lemma VoteKeepsInv(q: Querier, s: State, env: Env, id: nat, vote: Vote)
    requires Inv(s) && ExecuteVote(q, s, env, id, vote).Success?
    ensures Inv(ExecuteVote(q, s, env, id, vote).value.state)
  {
    hide Tally, BallotsOf, ValidateConfig, Threshold.Valid, ExecuteVote, Proposal.UpdateStatus, Proposal.CurrentStatus;
    var s' := ExecuteVote(q, s, env, id, vote).value.state;
    VoteEffect(q, s, env, id, vote);
    var power := q.power(s.config.dao, env.sender, s.proposals[id].startHeight);
    TallyInsert(BallotsOf(s.ballots, id), env.sender, Ballot(power, vote));
    BallotsOfUpdate(s.ballots, id, env.sender, Ballot(power, vote));
    assert forall other :: other in s'.proposals && other != id ==> s'.proposals[other] == s.proposals[other];
  }

  lemma NoBallotsYet(s: State, id: nat)
    requires Inv(s) && id !in s.proposals
    ensures BallotsOf(s.ballots, id) == map[] && Tally(BallotsOf(s.ballots, id)) == ZERO_VOTES
  {
  }

  lemma ProposeKeepsInv(q: Querier, s: State, env: Env, msgs: seq<CosmosMsg>, size: nat)
    requires Inv(s) && ExecutePropose(q, s, env, msgs, size).Success?
    ensures Inv(ExecutePropose(q, s, env, msgs, size).value.state)
  {
    hide Sum, BallotsOf, Proposal.CurrentStatus;
    var s' := ExecutePropose(q, s, env, msgs, size).value.state;
    var id := s'.proposalCount;
    NewProposalAligned(q, s.config, env, msgs);
    NoBallotsYet(s, id);
    assert forall other :: other in s'.proposals && other != id ==> s'.proposals[other] == s.proposals[other];
  }

  /** Neither a status nor the configuration or the allowed addresses matter to the ballots. */
  lemma StatusKeepsInv(s: State, id: nat, status: Status)
    requires Inv(s) && id in s.proposals
    ensures Inv(s.(proposals := s.proposals[id := s.proposals[id].(status := status)]))
  {
    hide Tally, BallotsOf, ValidateConfig, Threshold.Valid;
  }

  lemma SettingsKeepInv(s: State, config: Config, allowed: set<Addr>)
    requires Inv(s) && ValidateConfig(config).Success?
    ensures Inv(s.(config := config, allowedAddresses := allowed))
  {
    hide Tally, BallotsOf, ValidateConfig, Aligned, Threshold.Valid;
  }

  lemma ConfigKnown(s: State)
    requires Inv(s)
    ensures ValidateConfig(s.config).Success?
  {
  }

  /** Every successful message keeps the invariant, in particular that each proposal's yes, no and
      abstain counts are the sums of its stored ballots, through any number of revotes. */
  lemma StepKeepsInv(q: Querier, s: State, env: Env, msg: Msg)
    requires Inv(s) && Step(q, s, env, msg).Success?
    ensures Inv(Step(q, s, env, msg).value.state)
  {
    hide Inv, ValidateConfig, Proposal.CurrentStatus, ExecutePropose, ExecuteVote;
    var s' := Step(q, s, env, msg).value.state;
    ConfigKnown(s);
    match msg
    case Propose(msgs, size) => ProposeKeepsInv(q, s, env, msgs, size);
    case CastVote(id, vote) => VoteKeepsInv(q, s, env, id, vote);
    case Execute(id) => StatusKeepsInv(s, id, Executed);
    case Close(id) => StatusKeepsInv(s, id, Closed);
    case _ => SettingsKeepInv(s, s'.config, s'.allowedAddresses);
  }

  lemma DeliverKeepsInv(q: Querier, s: State, call: Call)
    requires Inv(s)
    ensures Inv(Deliver(q, s, call).state)
  {
    hide Inv, Step;
    if Step(q, s, call.env, call.msg).Success? {
      StepKeepsInv(q, s, call.env, call.msg);
    }
  }

  lemma {:induction false} RunKeepsInv(q: Querier, s: State, calls: seq<Call>)
    requires Inv(s)
    ensures Inv(Run(q, s, calls).state)
    decreases calls
  {
    if calls != [] {
      DeliverKeepsInv(q, s, calls[0]);
      RunKeepsInv(q, Deliver(q, s, calls[0]).state, calls[1..]);
    }
  }

  // ----- under a fair voting module -----

  /** One ballot per voter, each with the power the module reports, whichever DAO is asked. */
  ghost predicate ReportedBallots(q: Querier, height: nat, b: map<Addr, Ballot>) {
    forall voter, dao :: voter in b ==> b[voter].power == q.power(dao, voter, height)
  }

  ghost predicate Caps(q: Querier, height: nat, total: nat) {
    forall b :: ReportedBallots(q, height, b) ==> Sum(b, AnyWeight()) <= total
  }

  /** The assumption on the voting module: powers at a height are fixed, do not depend on which DAO
      the configuration names, and add up to at most the reported total. */
  ghost predicate Fair(q: Querier) {
    && (forall dao, dao', voter, height :: q.power(dao, voter, height) == q.power(dao', voter, height))
    && (forall dao, height :: Caps(q, height, q.total(dao, height)))
  }

  ghost predicate BackedProposal(q: Querier, p: Proposal, b: map<Addr, Ballot>) {
    Caps(q, p.startHeight, p.totalPower) && ReportedBallots(q, p.startHeight, b)
  }

  ghost predicate Backed(q: Querier, s: State) {
    forall id :: id in s.proposals ==> BackedProposal(q, s.proposals[id], BallotsOf(s.ballots, id))
  }

  lemma VoteKeepsBacked(q: Querier, s: State, env: Env, id: nat, vote: Vote)
    requires Fair(q) && Inv(s) && Backed(q, s) && ExecuteVote(q, s, env, id, vote).Success?
    ensures Backed(q, ExecuteVote(q, s, env, id, vote).value.state)
  {
    hide Tally, Sum, BallotsOf, ValidateConfig, Aligned, Caps, Proposal.CurrentStatus, Votes.AddVote, Votes.RemoveVote;
    var power := q.power(s.config.dao, env.sender, s.proposals[id].startHeight);
    BallotsOfUpdate(s.ballots, id, env.sender, Ballot(power, vote));
  }

  lemma StepKeepsBacked(q: Querier, s: State, env: Env, msg: Msg)
    requires Fair(q) && Inv(s) && Backed(q, s) && Step(q, s, env, msg).Success?
    ensures Backed(q, Step(q, s, env, msg).value.state)
  {
    hide Tally, Sum, BallotsOf, ValidateConfig, Aligned, Caps, Proposal.CurrentStatus, ExecuteVote, TalliesMatch;
    match msg
    case Propose(msgs, size) =>
      NoBallotsYet(s, Step(q, s, env, msg).value.state.proposalCount);
    case CastVote(id, vote) =>
      VoteKeepsBacked(q, s, env, id, vote);
    case _ =>
  }

  lemma DeliverKeepsBacked(q: Querier, s: State, call: Call)
    requires Fair(q) && Inv(s) && Backed(q, s)
    ensures Backed(q, Deliver(q, s, call).state)
  {
    hide Inv, Backed, Step;
    if Step(q, s, call.env, call.msg).Success? {
      StepKeepsBacked(q, s, call.env, call.msg);
    }
  }

  lemma {:induction false} RunKeepsBacked(q: Querier, s: State, calls: seq<Call>)
    requires Fair(q) && Inv(s) && Backed(q, s)
    ensures Backed(q, Run(q, s, calls).state)
    decreases calls
  {
    if calls != [] {
      DeliverKeepsInv(q, s, calls[0]);
      DeliverKeepsBacked(q, s, calls[0]);
      RunKeepsBacked(q, Deliver(q, s, calls[0]).state, calls[1..]);
    }
  }

  lemma BackedIsSound(q: Querier, s: State, id: nat)
    requires Inv(s) && Backed(q, s) && id in s.proposals
    ensures Sound(s.proposals[id])
  {
    hide BallotsOf, Sum;
    TallyCast(BallotsOf(s.ballots, id));
  }

  /** From instantiation on, whatever is sent, no stored tally exceeds its proposal's total power,
      and evaluating the status of any proposal at any block cannot abort. */
  lemma ReachableNeverPanics(q: Querier, config: Config, preAllowed: set<Addr>, calls: seq<Call>, id: nat, b: Block)
    requires Fair(q) && Instantiate(config, preAllowed).Success?
    ensures var s := Run(q, Instantiate(config, preAllowed).value, calls).state;
            id in s.proposals ==>
              && Sound(s.proposals[id])
              && s.proposals[id].IsPassed(b).Success?
              && s.proposals[id].IsRejected(b).Success?
              && s.proposals[id].CurrentStatus(b).Success?
  {
    var s0 := Instantiate(config, preAllowed).value;
    var s := Run(q, s0, calls).state;
    InstantiateInv(config, preAllowed);
    RunKeepsInv(q, s0, calls);
    RunKeepsBacked(q, s0, calls);
    if id in s.proposals {
      BackedIsSound(q, s, id);
      TestsNeverPanic(s.proposals[id], b);
    }
  }

  /** Counting a ballot, after taking out the one it replaces, cannot under- or overflow as long as
      the new tally fits. */
  lemma CountingSucceeds(b: map<Addr, Ballot>, voter: Addr, ballot: Ballot)
    requires Tally(b[voter := ballot]).Cast() <= U128_MAX
    ensures voter in b ==> Tally(b).RemoveVote(b[voter].vote, b[voter].power) == Success(Tally(b - {voter}))
    ensures voter !in b ==> b - {voter} == b
    ensures Tally(b - {voter}).AddVote(ballot.vote, ballot.power) == Success(Tally(b[voter := ballot]))
  {
    hide Tally;
    TallyInsert(b, voter, ballot);
    if voter in b {
      TallyRemove(b, voter);
    } else {
      assert b - {voter} == b;
    }
  }

  lemma NewTallySound(q: Querier, p: Proposal, b: map<Addr, Ballot>, voter: Addr, ballot: Ballot)
    requires BackedProposal(q, p, b) && p.threshold.Valid() && Aligned(p)
    requires forall dao :: ballot.power == q.power(dao, voter, p.startHeight)
    ensures Tally(b[voter := ballot]).Cast() <= p.totalPower
    ensures Sound(p.(votes := Tally(b[voter := ballot])))
  {
    hide Tally;
    assert ReportedBallots(q, p.startHeight, b[voter := ballot]);
    TallyCast(b[voter := ballot]);
  }

  /** A vote is counted exactly when its proposal is open, the sender has power, and any earlier
      ballot may be and is being changed: neither the tally update nor the status evaluations around
      it can abort. */
  lemma VoteCountedExactly(q: Querier, s: State, env: Env, id: nat, vote: Vote)
    requires Fair(q) && Inv(s) && Backed(q, s)
    ensures ExecuteVote(q, s, env, id, vote).Success? <==>
              && id in s.proposals
              && s.proposals[id].CurrentStatus(env.block) == Success(Open)
              && q.power(s.config.dao, env.sender, s.proposals[id].startHeight) != 0
              && ((id, env.sender) in s.ballots ==>
                    s.proposals[id].allowRevoting && s.ballots[(id, env.sender)].vote != vote)
  {
    hide Tally, BallotsOf, ValidateConfig, Caps, ReportedBallots, Sound,
         Votes.AddVote, Votes.RemoveVote, Proposal.CurrentStatus;
    if id in s.proposals {
      var p, b := s.proposals[id], BallotsOf(s.ballots, id);
      var ballot := Ballot(q.power(s.config.dao, env.sender, p.startHeight), vote);
      var p' := p.(votes := Tally(b[env.sender := ballot]));
      BackedIsSound(q, s, id);
      TestsNeverPanic(p, env.block);
      BallotsOfMember(s.ballots, id, env.sender);
      NewTallySound(q, p, b, env.sender, ballot);
      CountingSucceeds(b, env.sender, ballot);
      TestsNeverPanic(p', env.block);
    }
  }

  // ----- statuses -----

  predicate Final(status: Status) {
    status == Executed || status == Closed
  }

  /** The moves a stored status can make. */
  predicate MayBecome(from: Status, to: Status) {
    match from
    case Open => true
    case Passed => to == Passed || to == Executed
    case Rejected => to == Rejected || to == Closed
    case Executed => to == Executed
    case Closed => to == Closed
  }

  lemma IdsKnown(s: State)
    requires Inv(s)
    ensures forall id :: id in s.proposals <==> 1 <= id <= s.proposalCount
  {
  }

  /** No message removes a proposal or touches its terms; once its status has left open its tally is
      frozen too; and it is executed only while its status reads passed, closed only while rejected. */
  lemma StepMovesForward(q: Querier, s: State, call: Call, id: nat)
    requires Inv(s) && id in s.proposals
    ensures var s' := Deliver(q, s, call).state;
            && id in s'.proposals
            && s'.proposals[id].SameTerms(s.proposals[id])
            && MayBecome(s.proposals[id].status, s'.proposals[id].status)
            && (s.proposals[id].status != Open ==> s'.proposals[id].votes == s.proposals[id].votes)
            && (s'.proposals[id].status == Executed != s.proposals[id].status ==>
                  call.msg == Execute(id) && s.proposals[id].CurrentStatus(call.env.block) == Success(Passed))
            && (s'.proposals[id].status == Closed != s.proposals[id].status ==>
                  call.msg == Close(id) && s.proposals[id].CurrentStatus(call.env.block) == Success(Rejected))
  {
    hide Inv, Tally, BallotsOf, ValidateConfig, Proposal.CurrentStatus, ExecuteVote;
    StoredStatusShows(s.proposals[id], call.env.block);
    IdsKnown(s);
    match call.msg
    case CastVote(voted, vote) =>
      if Step(q, s, call.env, call.msg).Success? {
        VoteEffect(q, s, call.env, voted, vote);
      }
    case _ =>
  }

  /** Message `i` of a run was `msg`, and proposal `id` read `status` when it came. */
  ghost predicate CameWhileReading(q: Querier, s: State, calls: seq<Call>, i: nat, id: nat, msg: Msg, status: Status)
    requires i < |calls|
  {
    var before := Run(q, s, calls[..i]).state;
    && calls[i].msg == msg
    && id in before.proposals
    && before.proposals[id].CurrentStatus(calls[i].env.block) == Success(status)
  }

  lemma CameLater(q: Querier, s: State, calls: seq<Call>, i: nat, id: nat, msg: Msg, status: Status)
    requires i + 1 < |calls|
    requires CameWhileReading(q, Deliver(q, s, calls[0]).state, calls[1..], i, id, msg, status)
    ensures CameWhileReading(q, s, calls, i + 1, id, msg, status)
  {
    hide Deliver, Proposal.CurrentStatus;
    assert calls[..i + 1][1..] == calls[1..][..i];
  }

  lemma FirstCame(q: Querier, s: State, calls: seq<Call>, id: nat)
    requires Inv(s) && id in s.proposals && calls != []
    ensures var d := Deliver(q, s, calls[0]).state;
            && id in d.proposals
            && (d.proposals[id].status == Executed != s.proposals[id].status ==>
                  CameWhileReading(q, s, calls, 0, id, Execute(id), Passed))
            && (d.proposals[id].status == Closed != s.proposals[id].status ==>
                  CameWhileReading(q, s, calls, 0, id, Close(id), Rejected))
  {
    hide Proposal.CurrentStatus, Inv, Deliver;
    StepMovesForward(q, s, calls[0], id);
  }

  /** The same over runs: a proposal that was executed, or closed, on the way was so by a message that
      found it reading passed, or rejected. */
  lemma {:induction false} RunMovesForward(q: Querier, s: State, calls: seq<Call>, id: nat)
    requires Inv(s) && id in s.proposals
    ensures var s' := Run(q, s, calls).state;
            && id in s'.proposals
            && s'.proposals[id].SameTerms(s.proposals[id])
            && MayBecome(s.proposals[id].status, s'.proposals[id].status)
            && (s.proposals[id].status != Open ==> s'.proposals[id].votes == s.proposals[id].votes)
            && (s'.proposals[id].status == Executed != s.proposals[id].status ==>
                  exists i :: 0 <= i < |calls| && CameWhileReading(q, s, calls, i, id, Execute(id), Passed))
            && (s'.proposals[id].status == Closed != s.proposals[id].status ==>
                  exists i :: 0 <= i < |calls| && CameWhileReading(q, s, calls, i, id, Close(id), Rejected))
    decreases calls
  {
    hide Proposal.CurrentStatus, Inv, Deliver, CameWhileReading;
    if calls != [] {
      var d, s' := Deliver(q, s, calls[0]).state, Run(q, s, calls).state;
      StepMovesForward(q, s, calls[0], id);
      DeliverKeepsInv(q, s, calls[0]);
      RunMovesForward(q, d, calls[1..], id);
      FirstCame(q, s, calls, id);
      if s'.proposals[id].status == Executed != d.proposals[id].status {
        var i :| 0 <= i < |calls[1..]| && CameWhileReading(q, d, calls[1..], i, id, Execute(id), Passed);
        CameLater(q, s, calls, i, id, Execute(id), Passed);
      }
      if s'.proposals[id].status == Closed != d.proposals[id].status {
        var i :| 0 <= i < |calls[1..]| && CameWhileReading(q, d, calls[1..], i, id, Close(id), Rejected);
        CameLater(q, s, calls, i, id, Close(id), Rejected);
      }
    }
  }

  predicate Finalises(q: Querier, s: State, call: Call, id: nat) {
    (call.msg == Execute(id) || call.msg == Close(id)) && Step(q, s, call.env, call.msg).Success?
  }

  /** How many messages of a run executed or closed proposal `id`. */
  function Finalisations(q: Querier, s: State, calls: seq<Call>, id: nat): nat
    decreases calls
  {
    if calls == [] then 0
    else
      (if Finalises(q, s, calls[0], id) then 1 else 0)
      + Finalisations(q, Deliver(q, s, calls[0]).state, calls[1..], id)
  }

  lemma StepFinalises(q: Querier, s: State, call: Call, id: nat)
    requires Inv(s) && id in s.proposals
    ensures id in Deliver(q, s, call).state.proposals
    ensures Final(Deliver(q, s, call).state.proposals[id].status)
       <==> Final(s.proposals[id].status) || Finalises(q, s, call, id)
    ensures Finalises(q, s, call, id) ==> !Final(s.proposals[id].status)
  {
    hide TalliesMatch, Aligned, ValidateConfig, Proposal.IsPassed, Proposal.IsRejected, Votes.AddVote, Votes.RemoveVote;
  }

  /** A proposal is executed or closed at most once, never both: one message of the run made it
      final exactly if it was not final before and is final now. */
  lemma {:induction false} FinalisedOnce(q: Querier, s: State, calls: seq<Call>, id: nat)
    requires Inv(s) && id in s.proposals
    ensures id in Run(q, s, calls).state.proposals
    ensures Finalisations(q, s, calls, id) + (if Final(s.proposals[id].status) then 1 else 0)
         == (if Final(Run(q, s, calls).state.proposals[id].status) then 1 else 0)
    decreases calls
  {
    hide Proposal.CurrentStatus, Inv;
    if calls != [] {
      StepFinalises(q, s, calls[0], id);
      DeliverKeepsInv(q, s, calls[0]);
      FinalisedOnce(q, Deliver(q, s, calls[0]).state, calls[1..], id);
    }
  }
}
