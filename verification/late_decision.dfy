/** The contract decides early; a simpler machine would accept every vote until the close and count
    then. Over any run, both reach the same verdict on a proposal without revoting. */
module LateDecision {
  import opened Cosmos
  import opened Sums
  import opened Voting
  import opened Proposals
  import opened EarlyDecisions
  import opened Governance
  import opened GovernanceInvariants

  // ----- the simple machine -----

  /** It keeps the first ballot of every voter with power, until the proposal expires. */
  function LateStep(q: Querier, dao: Addr, p: Proposal, id: nat, late: map<Addr, Ballot>, call: Call)
    : map<Addr, Ballot>
  {
    match call.msg
    case CastVote(proposalId, vote) =>
      var power := q.power(dao, call.env.sender, p.startHeight);
      if proposalId == id && !p.expiration.IsExpired(call.env.block) && power != 0 && call.env.sender !in late
      then late[call.env.sender := Ballot(power, vote)]
      else late
    case _ => late
  }

  function LateRun(q: Querier, dao: Addr, p: Proposal, id: nat, late: map<Addr, Ballot>, calls: seq<Call>)
    : map<Addr, Ballot>
    decreases calls
  {
    if calls == [] then late
    else LateRun(q, dao, p, id, LateStep(q, dao, p, id, late, calls[0]), calls[1..])
  }

  // ----- how the contract treats one proposal -----

  datatype Effect = Untouched | Voted | WasExecuted | WasClosed

  /** What a message did to proposal `id`, as far as the two machines are concerned. */
  ghost predicate HasEffect(q: Querier, s: State, call: Call, id: nat, e: Effect)
    requires id in s.proposals
  {
    var s' := Deliver(q, s, call).state;
    var p, b := s.proposals[id], BallotsOf(s.ballots, id);
    var now := call.env.block;
    && id in s'.proposals
    && match e
       case Untouched => s'.proposals[id] == p && BallotsOf(s'.ballots, id) == b
       case Voted =>
         && call.msg.CastVote? && call.msg.proposalId == id
         && p.CurrentStatus(now) == Success(Open)
         && q.power(s.config.dao, call.env.sender, p.startHeight) != 0
         && call.env.sender !in b
         && (var power := q.power(s.config.dao, call.env.sender, p.startHeight);
             var b' := b[call.env.sender := Ballot(power, call.msg.vote)];
             && BallotsOf(s'.ballots, id) == b'
             && Success(s'.proposals[id]) == p.(votes := Tally(b')).UpdateStatus(now))
       case WasExecuted => p.CurrentStatus(now) == Success(Passed) && s'.proposals[id] == p.(status := Executed)
                           && BallotsOf(s'.ballots, id) == b
       case WasClosed => p.CurrentStatus(now) == Success(Rejected) && s'.proposals[id] == p.(status := Closed)
                         && BallotsOf(s'.ballots, id) == b
  }

  lemma EffectOf(q: Querier, s: State, call: Call, id: nat) returns (e: Effect)
    requires Inv(s) && id in s.proposals && !s.proposals[id].allowRevoting
    ensures HasEffect(q, s, call, id, e)
    // A vote on an undecided proposal is turned away only for lack of power or a second attempt.
    ensures e == Untouched && call.msg.CastVote? && call.msg.proposalId == id
            && s.proposals[id].CurrentStatus(call.env.block) == Success(Open) && Fair(q) && Backed(q, s)
            ==> q.power(s.config.dao, call.env.sender, s.proposals[id].startHeight) == 0
                || call.env.sender in BallotsOf(s.ballots, id)
  {
    hide Tally, BallotsOf, ValidateConfig, Aligned, Fair, Backed, Proposal.CurrentStatus,
         Votes.AddVote, Votes.RemoveVote;
    e := Untouched;
    if Step(q, s, call.env, call.msg).Success? {
      match call.msg
      case CastVote(other, vote) =>
        var ballot := Ballot(q.power(s.config.dao, call.env.sender, s.proposals[other].startHeight), vote);
        BallotsOfUpdate(s.ballots, other, call.env.sender, ballot);
        if other == id {
          VoteEffect(q, s, call.env, id, vote);
          TallyInsert(BallotsOf(s.ballots, id), call.env.sender, ballot);
          BallotsOfMember(s.ballots, id, call.env.sender);
          e := Voted;
        }
      case Execute(other) =>
        if other == id {
          e := WasExecuted;
        }
      case Close(other) =>
        if other == id {
          e := WasClosed;
        }
      case _ =>
    } else if call.msg.CastVote? && call.msg.proposalId == id && Fair(q) && Backed(q, s) {
      VoteCountedExactly(q, s, call.env, id, call.msg.vote);
      BallotsOfMember(s.ballots, id, call.env.sender);
    }
  }

  // ----- the simulation -----

  /** The vote is won (lost) whatever the simple machine still collects after `now`. */
  ghost predicate Won(p: Proposal, late: map<Addr, Ballot>, now: Block)
    requires p.votes.Cast() <= p.totalPower
  {
    || (p.MinPeriodOver(now) && AlwaysPasses(p))
    || (p.expiration.IsExpired(now) && Tally(late) == p.votes && PassesAtClose(p, p.votes))
  }

  ghost predicate Lost(p: Proposal, late: map<Addr, Ballot>, now: Block)
    requires p.votes.Cast() <= p.totalPower
  {
    || NeverPasses(p)
    || (p.expiration.IsExpired(now) && Tally(late) == p.votes && !PassesAtClose(p, p.votes))
  }

  /** The relation between a stored proposal with ballots `b` and the simple machine's `late`. */
  ghost predicate Agree(q: Querier, p: Proposal, b: map<Addr, Ballot>, late: map<Addr, Ballot>, now: Block) {
    && !p.allowRevoting && Sound(p)
    && p.votes == Tally(b)
    && BackedProposal(q, p, late)
    && Extends(p, Tally(late))
    && match p.status
       case Open => late == b || Won(p, late, now) || Lost(p, late, now)
       case Passed => Won(p, late, now)
       case Executed => Won(p, late, now)
       case Rejected => Lost(p, late, now)
       case Closed => Lost(p, late, now)
  }

  lemma LateStepGrows(q: Querier, dao: Addr, p: Proposal, id: nat, late: map<Addr, Ballot>, call: Call)
    requires Fair(q) && BackedProposal(q, p, late) && Extends(p, Tally(late))
    ensures var late' := LateStep(q, dao, p, id, late, call);
            BackedProposal(q, p, late') && Extends(p, Tally(late'))
  {
    hide Tally;
    var late' := LateStep(q, dao, p, id, late, call);
    if late' != late {
      TallyInsert(late, call.env.sender, late'[call.env.sender]);
      assert late - {call.env.sender} == late;
      TallyCast(late');
    }
  }

  /** Time and further late votes keep a decided vote decided. */
  lemma DecidedStaysDecided(q: Querier, dao: Addr, p: Proposal, id: nat, late: map<Addr, Ballot>,
                            now: Block, call: Call)
    requires p.votes.Cast() <= p.totalPower && now.NotAfter(call.env.block)
    ensures var late' := LateStep(q, dao, p, id, late, call);
            && (Won(p, late, now) ==> Won(p, late', call.env.block))
            && (Lost(p, late, now) ==> Lost(p, late', call.env.block))
  {
    hide Tally, AlwaysPasses, NeverPasses, PassesAtClose;
  }

  lemma AgreeAges(q: Querier, p: Proposal, b: map<Addr, Ballot>, late: map<Addr, Ballot>, now: Block, later: Block)
    requires Agree(q, p, b, late, now) && now.NotAfter(later)
    ensures Agree(q, p, b, late, later)
  {
    hide Tally, AlwaysPasses, NeverPasses, PassesAtClose, BackedProposal;
  }

  /** The status the contract computes is the simple machine's verdict, or open. */
  lemma StatusFollows(q: Querier, p: Proposal, b: map<Addr, Ballot>, late: map<Addr, Ballot>, now: Block)
    requires Agree(q, p, b, late, now)
    ensures p.CurrentStatus(now).Success?
    ensures p.CurrentStatus(now).value in {Passed, Executed} ==> Won(p, late, now)
    ensures p.CurrentStatus(now).value in {Rejected, Closed} ==> Lost(p, late, now)
    ensures p.CurrentStatus(now) == Success(Open) ==> p.status == Open && late == b && !p.expiration.IsExpired(now)
  {
    hide Tally, PassesAtClose, BackedProposal, Proposal.IsPassed, Proposal.IsRejected;
    TestsNeverPanic(p, now);
    if p.status == Open {
      assert Extends(p, p.votes);
      if p.expiration.IsExpired(now) {
        StatusAtClose(p, now);
      } else {
        StatusBeforeClose(p, now);
      }
    }
  }

  lemma BackedIgnoresVotes(q: Querier, p: Proposal, p': Proposal, b: map<Addr, Ballot>)
    requires BackedProposal(q, p, b) && p'.SameTerms(p)
    ensures BackedProposal(q, p', b)
  {
  }

  /** A vote that both machines count. */
  lemma VotedKeepsAgree(q: Querier, p: Proposal, b: map<Addr, Ballot>, p': Proposal, b': map<Addr, Ballot>, now: Block)
    requires Agree(q, p, b, b, now) && !p.expiration.IsExpired(now) && p.status == Open
    requires BackedProposal(q, p, b') && Extends(p, Tally(b'))
    requires Success(p') == p.(votes := Tally(b')).UpdateStatus(now)
    ensures Agree(q, p', b', b', now)
  {
    hide Tally, PassesAtClose, DoesVoteCountPass, BackedProposal, Proposal.CurrentStatus, AlwaysPasses, NeverPasses;
    var p1 := p.(votes := Tally(b'));
    StatusBeforeClose(p1, now);
    VerdictsIgnoreStatus(p1, p'.status);
    assert BackedProposal(q, p', b') by { BackedIgnoresVotes(q, p, p', b'); }
  }

  lemma SoundTally(p: Proposal)
    requires Sound(p)
    ensures p.votes.Cast() <= p.totalPower
  {
  }

  lemma FinalisedKeepsAgree(q: Querier, p: Proposal, b: map<Addr, Ballot>, late: map<Addr, Ballot>, now: Block,
                            status: Status)
    requires Agree(q, p, b, late, now)
    requires (status == Executed && Won(p, late, now)) || (status == Closed && Lost(p, late, now))
    ensures Agree(q, p.(status := status), b, late, now)
  {
    hide Tally, PassesAtClose, BackedProposal, AlwaysPasses, NeverPasses, Sound;
    SoundTally(p);
    VerdictsIgnoreStatus(p, status);
    BackedIgnoresVotes(q, p, p.(status := status), late);
  }

  /** The simple machine's step on a proposal the contract leaves alone. */
  lemma LateAloneKeepsAgree(q: Querier, dao: Addr, p: Proposal, b: map<Addr, Ballot>, late: map<Addr, Ballot>,
                            id: nat, call: Call)
    requires Fair(q) && Agree(q, p, b, late, call.env.block)
    requires p.CurrentStatus(call.env.block) == Success(Open) ==> LateStep(q, dao, p, id, b, call) == b
    ensures Agree(q, p, b, LateStep(q, dao, p, id, late, call), call.env.block)
  {
    hide Tally, PassesAtClose, BackedProposal, AlwaysPasses, NeverPasses, LateStep,
         Won, Lost, Sound, Fair, Proposal.CurrentStatus;
    SoundTally(p);
    StatusFollows(q, p, b, late, call.env.block);
    DecidedStaysDecided(q, dao, p, id, late, call.env.block, call);
    LateStepGrows(q, dao, p, id, late, call);
    StoredStatusShows(p, call.env.block);
  }

  lemma StepKeepsAgree(q: Querier, s: State, id: nat, late: map<Addr, Ballot>, now: Block, call: Call)
    requires Fair(q) && Inv(s) && Backed(q, s) && id in s.proposals
    requires Agree(q, s.proposals[id], BallotsOf(s.ballots, id), late, now)
    requires now.NotAfter(call.env.block)
    ensures var s' := Deliver(q, s, call).state;
            && id in s'.proposals
            && Agree(q, s'.proposals[id], BallotsOf(s'.ballots, id),
                     LateStep(q, s.config.dao, s.proposals[id], id, late, call), call.env.block)
  {
    hide Tally, BallotsOf, Deliver, Inv, Backed, Fair, AlwaysPasses, NeverPasses, PassesAtClose, BackedProposal,
         Proposal.CurrentStatus, Sound, Won, Lost, Extends, Proposal.UpdateStatus;
    var p, b := s.proposals[id], BallotsOf(s.ballots, id);
    var late' := LateStep(q, s.config.dao, p, id, late, call);
    AgreeAges(q, p, b, late, now, call.env.block);
    StatusFollows(q, p, b, late, call.env.block);
    LateStepGrows(q, s.config.dao, p, id, late, call);
    var e := EffectOf(q, s, call, id);
    if e == Voted {
      var s' := Deliver(q, s, call).state;
      VotedKeepsAgree(q, p, b, s'.proposals[id], late', call.env.block);
    } else {
      LateAloneKeepsAgree(q, s.config.dao, p, b, late, id, call);
      SoundTally(p);
      if e == WasExecuted {
        DecidedStaysDecided(q, s.config.dao, p, id, late, call.env.block, call);
        FinalisedKeepsAgree(q, p, b, late', call.env.block, Executed);
      } else if e == WasClosed {
        DecidedStaysDecided(q, s.config.dao, p, id, late, call.env.block, call);
        FinalisedKeepsAgree(q, p, b, late', call.env.block, Closed);
      }
    }
  }

  lemma SameDaoSameLate(q: Querier, dao: Addr, dao': Addr, p: Proposal, id: nat, late: map<Addr, Ballot>, call: Call)
    requires Fair(q)
    ensures LateStep(q, dao, p, id, late, call) == LateStep(q, dao', p, id, late, call)
  {
    hide Caps;
  }

  lemma {:induction false} LateIgnoresTally(q: Querier, dao: Addr, p: Proposal, p': Proposal, id: nat,
                                            late: map<Addr, Ballot>, calls: seq<Call>)
    requires p'.SameTerms(p)
    ensures LateRun(q, dao, p', id, late, calls) == LateRun(q, dao, p, id, late, calls)
    decreases calls
  {
    if calls != [] {
      LateIgnoresTally(q, dao, p, p', id, LateStep(q, dao, p, id, late, calls[0]), calls[1..]);
    }
  }

  lemma {:induction false} RunKeepsAgree(q: Querier, s: State, id: nat, late: map<Addr, Ballot>, self: Addr, now: Block,
                                         calls: seq<Call>, dao: Addr, end: Block)
    requires Fair(q) && Inv(s) && Backed(q, s) && id in s.proposals
    requires Agree(q, s.proposals[id], BallotsOf(s.ballots, id), late, now)
    requires Ordered(self, now, calls) && now.NotAfter(end)
    requires forall c :: c in calls ==> c.env.block.NotAfter(end)
    ensures var s' := Run(q, s, calls).state;
            && id in s'.proposals
            && Agree(q, s'.proposals[id], BallotsOf(s'.ballots, id),
                     LateRun(q, dao, s.proposals[id], id, late, calls), end)
    decreases calls
  {
    hide Tally, BallotsOf, Deliver, Inv, Backed, Agree, LateStep;
    if calls == [] {
      AgreeAges(q, s.proposals[id], BallotsOf(s.ballots, id), late, now, end);
    } else {
      var call, p := calls[0], s.proposals[id];
      var s1, late1 := Deliver(q, s, call).state, LateStep(q, s.config.dao, p, id, late, call);
      StepKeepsAgree(q, s, id, late, now, call);
      StepMovesForward(q, s, call, id);
      DeliverKeepsInv(q, s, call);
      DeliverKeepsBacked(q, s, call);
      SameDaoSameLate(q, s.config.dao, dao, p, id, late, call);
      RunKeepsAgree(q, s1, id, late1, self, call.env.block, calls[1..], dao, end);
      LateIgnoresTally(q, dao, p, s1.proposals[id], id, late1, calls[1..]);
    }
  }

  lemma FinalVerdict(q: Querier, p: Proposal, b: map<Addr, Ballot>, late: map<Addr, Ballot>, end: Block)
    requires Agree(q, p, b, late, end) && p.expiration.IsExpired(end)
    ensures Tally(late).Cast() <= p.totalPower
    ensures p.CurrentStatus(end).Success?
    ensures p.CurrentStatus(end).value in {Passed, Executed} <==> PassesAtClose(p, Tally(late))
    ensures p.CurrentStatus(end).value in {Rejected, Closed} <==> !PassesAtClose(p, Tally(late))
  {
    hide Tally, PassesAtClose, BackedProposal, Proposal.CurrentStatus;
    StatusFollows(q, p, b, late, end);
    StoredStatusShows(p, end);
  }

  lemma VerdictOfTerms(p: Proposal, p': Proposal, w: Votes)
    requires p'.SameTerms(p) && w.Cast() <= p.totalPower
    ensures PassesAtClose(p', w) == PassesAtClose(p, w)
  {
  }

  // ----- the refinement -----

  /** The contract's verdict on a stored proposal at `end` is the count of the tally `w`: it reads
      passed (or was executed) if `w` passes at the close, rejected (or was closed) if it does not. */
  ghost predicate SameVerdict(s: State, id: nat, end: Block, p: Proposal, w: Votes) {
    && id in s.proposals
    && w.Cast() <= p.totalPower
    && s.proposals[id].CurrentStatus(end).Success?
    && (s.proposals[id].CurrentStatus(end).value in {Passed, Executed} <==> PassesAtClose(p, w))
    && (s.proposals[id].CurrentStatus(end).value in {Rejected, Closed} <==> !PassesAtClose(p, w))
  }

  /** From any related pair of states on. */
  lemma AgreeingVerdicts(q: Querier, s: State, id: nat, late: map<Addr, Ballot>, self: Addr, now: Block,
                         calls: seq<Call>, dao: Addr, end: Block)
    requires Fair(q) && Inv(s) && Backed(q, s) && id in s.proposals
    requires Agree(q, s.proposals[id], BallotsOf(s.ballots, id), late, now)
    requires Ordered(self, now, calls) && now.NotAfter(end) && forall c :: c in calls ==> c.env.block.NotAfter(end)
    requires s.proposals[id].expiration.IsExpired(end)
    ensures SameVerdict(Run(q, s, calls).state, id, end, s.proposals[id],
                        Tally(LateRun(q, dao, s.proposals[id], id, late, calls)))
  {
    hide Tally, Inv, BallotsOf, Run, LateRun, Backed, Agree, Proposal.CurrentStatus;
    var p, s' := s.proposals[id], Run(q, s, calls).state;
    var late' := LateRun(q, dao, p, id, late, calls);
    RunKeepsAgree(q, s, id, late, self, now, calls, dao, end);
    RunMovesForward(q, s, calls, id);
    FinalVerdict(q, s'.proposals[id], BallotsOf(s'.ballots, id), late', end);
    VerdictOfTerms(p, s'.proposals[id], Tally(late'));
  }

  /** Storing the evaluated status keeps two machines related. */
  lemma EvaluatedKeepsAgree(q: Querier, p: Proposal, b: map<Addr, Ballot>, late: map<Addr, Ballot>, now: Block)
    requires Agree(q, p, b, late, now)
    ensures p.UpdateStatus(now).Success? && Agree(q, p.UpdateStatus(now).value, b, late, now)
  {
    hide Tally, PassesAtClose, BackedProposal, AlwaysPasses, NeverPasses, Sound, Proposal.CurrentStatus;
    StatusFollows(q, p, b, late, now);
    StoredStatusShows(p, now);
    SoundTally(p);
    VerdictsIgnoreStatus(p, p.CurrentStatus(now).value);
    BackedIgnoresVotes(q, p, p.UpdateStatus(now).value, late);
  }

  lemma NewProposalTerms(q: Querier, config: Config, env: Env, msgs: seq<CosmosMsg>)
    requires ValidateConfig(config).Success?
    ensures var p := NewProposal(q, config, env, msgs);
            && p.threshold.Valid() && p.votes == ZERO_VOTES && p.status == Open
            && p.allowRevoting == config.allowRevoting
            && p.startHeight == env.block.height && p.totalPower == q.total(config.dao, env.block.height)
  {
  }

  lemma NewProposalSound(q: Querier, config: Config, env: Env, msgs: seq<CosmosMsg>)
    requires ValidateConfig(config).Success?
    ensures Sound(NewProposal(q, config, env, msgs))
  {
    hide NewProposal, ValidateConfig;
    NewProposalTerms(q, config, env, msgs);
    NewProposalAligned(q, config, env, msgs);
  }

  lemma NewProposalBacked(q: Querier, p: Proposal, dao: Addr, b: map<Addr, Ballot>)
    requires Fair(q) && p.totalPower == q.total(dao, p.startHeight) && b == map[]
    ensures BackedProposal(q, p, b)
  {
    hide Caps;
  }

  lemma EmptyTally(b: map<Addr, Ballot>)
    requires b == map[]
    ensures Tally(b) == ZERO_VOTES
  {
  }

  lemma NewProposalAgrees(q: Querier, config: Config, env: Env, msgs: seq<CosmosMsg>, b: map<Addr, Ballot>)
    requires Fair(q) && ValidateConfig(config).Success? && !config.allowRevoting && b == map[]
    ensures Agree(q, NewProposal(q, config, env, msgs), b, b, env.block)
  {
    hide Tally, Fair, Won, Lost, NewProposal, ValidateConfig, Sound, BackedProposal;
    NewProposalTerms(q, config, env, msgs);
    NewProposalSound(q, config, env, msgs);
    NewProposalBacked(q, NewProposal(q, config, env, msgs), config.dao, b);
    EmptyTally(b);
  }

  /** A new proposal, which its own creation may already have decided, is related to a simple machine
      without any ballots. */
  lemma CreatedAgrees(q: Querier, s: State, env: Env, msgs: seq<CosmosMsg>, size: nat)
    requires Fair(q) && Inv(s) && !s.config.allowRevoting
    requires ExecutePropose(q, s, env, msgs, size).Success?
    ensures var s' := ExecutePropose(q, s, env, msgs, size).value.state;
            && s'.proposalCount in s'.proposals
            && BallotsOf(s'.ballots, s'.proposalCount) == map[]
            && Agree(q, s'.proposals[s'.proposalCount], map[], map[], env.block)
  {
    hide BallotsOf, TalliesMatch, Aligned, Agree, Fair, NewProposal, Proposal.UpdateStatus;
    NoBallotsYet(s, s.proposalCount + 1);
    NewProposalAgrees(q, s.config, env, msgs, map[]);
    EvaluatedKeepsAgree(q, NewProposal(q, s.config, env, msgs), map[], map[], env.block);
  }

  lemma NothingToBack(q: Querier, s: State)
    requires s.proposals == map[]
    ensures Backed(q, s)
  {
  }

  /** Early decisions refine the simple machine, for every proposal the contract ever stores without
      revoting: take any run from instantiation, let it create a proposal, let any messages follow, and
      look at a block past the proposal's expiration. The contract's verdict is that of the ballots the
      simple machine collected from creation to the close, however early the contract decided, even in
      the message that created the proposal. */
  lemma EarlyRefinesLate(q: Querier, config: Config, preAllowed: set<Addr>, before: seq<Call>,
                         env: Env, msgs: seq<CosmosMsg>, size: nat, after: seq<Call>, dao: Addr, end: Block)
    requires Fair(q) && Instantiate(config, preAllowed).Success?
    requires var s := Run(q, Instantiate(config, preAllowed).value, before).state;
             !s.config.allowRevoting && ExecutePropose(q, s, env, msgs, size).Success?
    requires Ordered(env.contract, env.block, after) && env.block.NotAfter(end)
    requires forall c :: c in after ==> c.env.block.NotAfter(end)
    ensures var s := Run(q, Instantiate(config, preAllowed).value, before).state;
            var s' := ExecutePropose(q, s, env, msgs, size).value.state;
            var id := s'.proposalCount;
            && id in s'.proposals
            && (s'.proposals[id].expiration.IsExpired(end) ==>
                  SameVerdict(Run(q, s', after).state, id, end, s'.proposals[id],
                              Tally(LateRun(q, dao, s'.proposals[id], id, map[], after))))
  {
    hide Tally, Inv, BallotsOf, Run, LateRun, Backed, Agree, SameVerdict, ExecutePropose;
    var s0 := Instantiate(config, preAllowed).value;
    var s := Run(q, s0, before).state;
    var s' := ExecutePropose(q, s, env, msgs, size).value.state;
    InstantiateInv(config, preAllowed);
    NothingToBack(q, s0);
    RunKeepsInv(q, s0, before);
    RunKeepsBacked(q, s0, before);
    CreatedAgrees(q, s, env, msgs, size);
    ProposeKeepsInv(q, s, env, msgs, size);
    StepKeepsBacked(q, s, env, Propose(msgs, size));
    if s'.proposals[s'.proposalCount].expiration.IsExpired(end) {
      AgreeingVerdicts(q, s', s'.proposalCount, map[], env.contract, env.block, after, dao, end);
    }
  }

  lemma OpenAgrees(q: Querier, s: State, id: nat, now: Block)
    requires Inv(s) && Backed(q, s) && id in s.proposals
    requires s.proposals[id].status == Open && !s.proposals[id].allowRevoting
    ensures Agree(q, s.proposals[id], BallotsOf(s.ballots, id), BallotsOf(s.ballots, id), now)
  {
    hide Tally, BallotsOf, ValidateConfig;
    BackedIsSound(q, s, id);
  }

  /** The same from the middle of a vote: the simple machine may as well take over the ballots of a
      proposal that is still stored as open. */
  lemma OpenProposalRefinesLate(q: Querier, s: State, id: nat, self: Addr, now: Block, calls: seq<Call>,
                                dao: Addr, end: Block)
    requires Fair(q) && Inv(s) && Backed(q, s) && id in s.proposals
    requires s.proposals[id].status == Open && !s.proposals[id].allowRevoting
    requires Ordered(self, now, calls) && now.NotAfter(end) && forall c :: c in calls ==> c.env.block.NotAfter(end)
    requires s.proposals[id].expiration.IsExpired(end)
    ensures SameVerdict(Run(q, s, calls).state, id, end, s.proposals[id],
                        Tally(LateRun(q, dao, s.proposals[id], id, BallotsOf(s.ballots, id), calls)))
  {
    hide Tally, Inv, BallotsOf, Run, LateRun, Backed, Agree, SameVerdict;
    OpenAgrees(q, s, id, now);
    AgreeingVerdicts(q, s, id, BallotsOf(s.ballots, id), self, now, calls, dao, end);
  }

  // ----- examples -----

  /** A voting module in which one voter holds one unit of power. */
  function OneVoter(): Querier {
    Querier((dao: Addr, voter: Addr, height: nat) => if voter == Addr(0) then 1 else 0, (dao: Addr, height: nat) => 1)
  }

  /** Fair modules with power exist. */
  lemma OneVoterIsFair()
    ensures Fair(OneVoter())
  {
    forall dao, height ensures Caps(OneVoter(), height, OneVoter().total(dao, height)) {
      forall b: map<Addr, Ballot> | ReportedBallots(OneVoter(), height, b) ensures Sum(b, AnyWeight()) <= 1 {
        assert forall a :: a in b ==> b[a].power == OneVoter().power(dao, a, height);
        assert forall a :: a in b - {Addr(0)} ==> AnyWeight()(a, b[a]) == 0;
        SumZero(b - {Addr(0)}, AnyWeight());
        if Addr(0) in b {
          SumRemove(b, AnyWeight(), Addr(0));
        } else {
          SumAbsent(b, AnyWeight(), Addr(0));
        }
      }
    }
  }

  lemma UnreachableCountRejected(p: Proposal, b: Block)
    requires p.threshold == AbsoluteCount(5) && p.totalPower == 1 && p.votes == ZERO_VOTES && p.status == Open
    requires !p.allowRevoting && !p.expiration.IsExpired(b) && p.minVotingPeriod == None
    ensures p.UpdateStatus(b) == Success(p.(status := Rejected))
  {
  }

  /** Creation alone can decide: a count above the total power is stored as rejected at once. */
  lemma DecidedByCreation() returns (q: Querier, config: Config, env: Env)
    ensures Fair(q) && Instantiate(config, {env.sender}).Success?
    ensures var r := ExecutePropose(q, Instantiate(config, {env.sender}).value, env, [], 0);
            r.Success? && 1 in r.value.state.proposals && r.value.state.proposals[1].status == Rejected
  {
    q, env := OneVoter(), Env(Block(1, 0), Addr(0), Addr(1), true);
    config := Config(AbsoluteCount(5), Height(10), None, false, false, Addr(2), None);
    hide Fair, Proposal.UpdateStatus;
    OneVoterIsFair();
    UnreachableCountRejected(NewProposal(q, config, env, []), env.block);
  }
}
