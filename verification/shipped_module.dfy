/** The voting-power module as the proposal module sees it: whether its answers are fair, and what
    happens to a proposal when they are not. */
module ShippedModule {
  import opened Cosmos
  import opened Sums
  import opened Voting
  import opened VestingAccounts
  import opened Snapshots
  import opened Vesting
  import opened VestingHistory
  import opened VotingPower
  import P = Proposals
  import G = Governance
  import GI = GovernanceInvariants
  import PE = ProposalEnds

  /** The answers of the module, for a vesting state and the stakes at each height. */
  ghost function Reporting(s: State, staking: nat -> map<Addr, nat>): G.Querier {
    G.Querier(
      (dao, voter, height) => VotingPowerAt(StakeOf(staking(height), voter), QueryAccount(s, voter, height)),
      (dao, height) => TotalPowerAt(Sum(staking(height), Amount()), QueryTotal(s, height)))
  }

  // ----- when the answers are fair -----

  /** The addresses that can have power. */
  ghost function Known(s: State, staked: map<Addr, nat>): set<Addr> {
    staked.Keys + s.vestingData.Keys
  }

  lemma UnknownHaveNoPower(s: State, staking: nat -> map<Addr, nat>, height: nat, a: Addr)
    requires a !in Known(s, staking(height))
    ensures VotingPowerAt(StakeOf(staking(height), a), QueryAccount(s, a, height)) == 0
  {
  }

  /** The ballots of all who can have power weigh most. */
  lemma CapsIsSum(s: State, staking: nat -> map<Addr, nat>, height: nat, total: nat)
    ensures GI.Caps(Reporting(s, staking), height, total)
       <==> Sum(QueriedRows(s, Known(s, staking(height)), height), FullPowerWeight(staking(height))) <= total
  {
    hide Sum, Known, QueryAccount, StakeOf, VotingPowerAt;
    var q, known := Reporting(s, staking), Known(s, staking(height));
    var rows, weight := QueriedRows(s, known, height), FullPowerWeight(staking(height));
    var all := map a | a in known :: G.Ballot(q.power(Addr(0), a, height), Yes);
    assert GI.ReportedBallots(q, height, all);
    SumEqual(all, GI.AnyWeight(), rows, weight);
    forall b | GI.ReportedBallots(q, height, b) ensures Sum(b, GI.AnyWeight()) <= Sum(rows, weight) {
      var voters := known * b.Keys;
      forall a | a in b ensures b[a].power == q.power(Addr(0), a, height) {
      }
      SumSplit(b, GI.AnyWeight(), known);
      forall a | a in b - known ensures GI.AnyWeight()(a, b[a]) == 0 {
        UnknownHaveNoPower(s, staking, height, a);
      }
      SumZero(b - known, GI.AnyWeight());
      SumSplit(rows, weight, b.Keys);
      SumEqual(Restrict(b, known), GI.AnyWeight(), Restrict(rows, b.Keys), weight);
    }
  }

  /** Everything the module adds up at a height fits in 128 bits. */
  ghost predicate RoomFor(s: State, staked: map<Addr, nat>, height: nat) {
    Sum(staked, Amount()) + Sum(QueriedRows(s, Known(s, staked), height), PowerWeight()) <= U128_MAX
  }

  ghost predicate FairAt(q: G.Querier, height: nat) {
    forall dao :: GI.Caps(q, height, q.total(dao, height))
  }

  lemma FairAtEachHeight(s: State, staking: nat -> map<Addr, nat>)
    ensures GI.Fair(Reporting(s, staking)) <==> forall height :: FairAt(Reporting(s, staking), height)
  {
    hide GI.Caps, VotingPowerAt, TotalPowerAt;
    var q := Reporting(s, staking);
    if forall height :: FairAt(q, height) {
      forall dao, height ensures GI.Caps(q, height, q.total(dao, height)) {
        assert FairAt(q, height);
      }
    }
  }

  lemma CapsWithoutStakes(s: State, staking: nat -> map<Addr, nat>, height: nat)
    requires RoomFor(s, staking(height), height)
    requires TotalVestingPower(QueryTotal(s, height))
             <= Sum(QueriedRows(s, Known(s, staking(height)), height), PowerWeight())
    ensures var q := Reporting(s, staking);
            FairAt(q, height)
            <==> Sum(QueriedRows(s, Known(s, staking(height)), height), PowerWeight())
                 == TotalVestingPower(QueryTotal(s, height))
  {
    hide Sum, QueryAccount, QueryTotal, TotalVestingPower, GI.Caps;
    var q, total := Reporting(s, staking), TotalPowerAt(Sum(staking(height), Amount()), QueryTotal(s, height));
    FullPowersSplit(QueriedRows(s, Known(s, staking(height)), height), staking(height));
    CapsIsSum(s, staking, height, total);
    assert q.total(Addr(0), height) == total;
  }

  /** A row whose power the reported total leaves out: that of a deregistered account, or any row stored in
      the block of instantiation, at whose height the total reads zero. */
  predicate Uncounted(history: seq<Record>, born: nat, a: Addr, height: nat) {
    && (height <= born || a !in GoverningRows(history, height))
    && LastRow(history, a, height).Some?
    && IndividualVestingPower(LastRow(history, a, height).value) > 0
  }

  lemma KnownByHistory(w: World, born: nat, now: Block, a: Addr, height: nat)
    requires Inv(w, born, now) && a !in w.state.vestingData
    ensures LastRow(w.history, a, height).None? && a !in GoverningRows(w.history, height)
  {
    hide LastRow, Governing;
    assert SnapshotOf(w.state.vestingData, a).LoadAt(height) == LastRow(w.history, a, height);
    if a in GoverningRows(w.history, height) {
      GoverningRow(w.history, a, height);
    }
  }

  lemma PowerAtBirth(w: World, born: nat, now: Block, height: nat, known: set<Addr>)
    requires Inv(w, born, now) && height <= born && w.state.vestingData.Keys <= known
    ensures TotalVestingPower(QueryTotal(w.state, height)) == 0
    ensures Sum(QueriedRows(w.state, known, height), PowerWeight()) == 0
       <==> forall a :: !Uncounted(w.history, born, a, height)
  {
    hide Inv, Sum, QueryAccount, QueryTotal, LastRow, Governing;
    var rows := QueriedRows(w.state, known, height);
    TotalQueriesRightExceptAtBirth(w, born, now, height);
    SumZero(rows, PowerWeight());
    forall a
      ensures a in known ==> (IndividualVestingPower(rows[a]) == 0 <==> !Uncounted(w.history, born, a, height))
      ensures a !in known ==> !Uncounted(w.history, born, a, height)
    {
      if a in known {
        RowQueriesRight(w, born, now, a, height);
      } else {
        KnownByHistory(w, born, now, a, height);
      }
    }
  }

  lemma PowerAfterBirth(owner: Addr, birth: Block, calls: seq<Call>, end: Block, height: nat, known: set<Addr>)
    requires Ordered(birth, calls, end) && height > birth.height
    requires Reached(owner, birth, calls).state.vestingData.Keys <= known
    ensures var w := Reached(owner, birth, calls);
            var powers := Sum(QueriedRows(w.state, known, height), PowerWeight());
            && TotalVestingPower(QueryTotal(w.state, height)) <= powers
            && (powers == TotalVestingPower(QueryTotal(w.state, height))
                <==> forall a :: !Uncounted(w.history, birth.height, a, height))
  {
    hide Inv, Reached, Sum, QueryAccount, QueryTotal, LastRow, Governing, IndividualVestingPower;
    var w := Reached(owner, birth, calls);
    var governing := GoverningRows(w.history, height).Keys;
    ReachedInv(owner, birth, calls, end);
    forall a | a !in known ensures a !in governing && !Uncounted(w.history, birth.height, a, height) {
      KnownByHistory(w, birth.height, end, a, height);
    }
    VestingPowerOfSet(owner, birth, calls, end, height, known);
    StaleRowsCarryThePower(w, birth.height, end, height, known - governing);
    assert forall a :: Uncounted(w.history, birth.height, a, height) <==> StalePower(w.history, a, height);
  }

  /** At one height of a reachable world: no ballots outweigh the total exactly if no row has power that
      the total leaves out. */
  lemma FairAtExactly(owner: Addr, birth: Block, calls: seq<Call>, end: Block, staking: nat -> map<Addr, nat>,
                      height: nat)
    requires Ordered(birth, calls, end)
    requires RoomFor(Reached(owner, birth, calls).state, staking(height), height)
    ensures FairAt(Reporting(Reached(owner, birth, calls).state, staking), height)
       <==> forall a :: !Uncounted(Reached(owner, birth, calls).history, birth.height, a, height)
  {
    hide Inv, Reached, Sum, QueryAccount, QueryTotal, FairAt, Uncounted, Reporting;
    var w := Reached(owner, birth, calls);
    var known := Known(w.state, staking(height));
    ReachedInv(owner, birth, calls, end);
    if height <= birth.height {
      PowerAtBirth(w, birth.height, end, height, known);
    } else {
      PowerAfterBirth(owner, birth, calls, end, height, known);
    }
    CapsWithoutStakes(w.state, staking, height);
  }

  /** In every reachable world, whatever is staked, and as long as everything fits in 128 bits: the
      module's answers are fair exactly if no row has power that the reported total leaves out. */
  lemma FairExactly(owner: Addr, birth: Block, calls: seq<Call>, end: Block, staking: nat -> map<Addr, nat>)
    requires Ordered(birth, calls, end)
    requires forall height :: RoomFor(Reached(owner, birth, calls).state, staking(height), height)
    ensures GI.Fair(Reporting(Reached(owner, birth, calls).state, staking))
       <==> forall a, height :: !Uncounted(Reached(owner, birth, calls).history, birth.height, a, height)
  {
    hide Reached, FairAt, GI.Fair, Uncounted, RoomFor, Reporting;
    var w := Reached(owner, birth, calls);
    var q := Reporting(w.state, staking);
    FairAtEachHeight(w.state, staking);
    forall height: nat
      ensures FairAt(q, height) <==> forall a :: !Uncounted(w.history, birth.height, a, height)
    {
      FairAtExactly(owner, birth, calls, end, staking, height);
    }
    if GI.Fair(q) {
      forall a, height ensures !Uncounted(w.history, birth.height, a, height) {
        assert FairAt(q, height);
      }
    }
  }

  // ----- a proposal that gets stuck -----

  function ProposeAndAbstain(env: G.Env): seq<G.Call> {
    [G.Call(env, G.Propose([], 0)), G.Call(env, G.CastVote(1, Abstain))]
  }

  lemma NewTerms(q: G.Querier, config: G.Config, env: G.Env)
    requires config.threshold.AbsolutePercentage? && config.allowRevoting
    requires !config.maxVotingPeriod.After(env.block).IsExpired(env.block)
    ensures var p := G.NewProposal(q, config, env, []);
            && p.totalPower == q.total(config.dao, env.block.height) && p.startHeight == env.block.height
            && p.status == Open && p.allowRevoting && p.votes == ZERO_VOTES && p.threshold == config.threshold
            && p.expiration == config.maxVotingPeriod.After(env.block)
            && forall votes :: p.(votes := votes).CurrentStatus(env.block) == Success(Open)
  {
  }

  lemma TwoSteps(q: G.Querier, s: G.State, first: G.Call, second: G.Call)
    ensures G.Run(q, s, [first, second]).state == G.Deliver(q, G.Deliver(q, s, first).state, second).state
  {
    hide G.Deliver;
    var s1 := G.Deliver(q, s, first).state;
    assert [first, second][1..] == [second] && [second][1..] == [];
    assert G.Run(q, s1, [second]).state == G.Deliver(q, s1, second).state;
  }

  /** A voter with more power than the reported total gets the first proposal stuck, under a percentage of
      the total power and with revoting: by proposing and abstaining. */
  lemma AbstentionSticks(q: G.Querier, config: G.Config, env: G.Env, b: Block)
    requires G.Instantiate(config, {env.sender}).Success? && env.daoActive
    requires config.threshold.AbsolutePercentage? && config.allowRevoting
    requires !config.maxVotingPeriod.After(env.block).IsExpired(env.block)
    requires config.maxVotingPeriod.After(env.block).IsExpired(b)
    requires q.power(config.dao, env.sender, env.block.height) > q.total(config.dao, env.block.height)
    ensures var s := G.Run(q, G.Instantiate(config, {env.sender}).value, ProposeAndAbstain(env)).state;
            1 in s.proposals && PE.Stuck(s.proposals[1], b)
  {
    hide G.NewProposal, G.ValidateConfig, P.Proposal.CurrentStatus;
    NewTerms(q, config, env);
    var propose, abstain := G.Call(env, G.Propose([], 0)), G.Call(env, G.CastVote(1, Abstain));
    var s0, p := G.Instantiate(config, {env.sender}).value, G.NewProposal(q, config, env, []);
    var s1 := G.Deliver(q, s0, propose).state;
    assert p.(votes := ZERO_VOTES) == p;
    assert s1 == s0.(proposalCount := 1, proposals := map[1 := p]);
    var s2 := G.Deliver(q, s1, abstain).state;
    var power := q.power(config.dao, env.sender, env.block.height);
    assert s2.proposals == map[1 := p.(votes := Votes(0, 0, power))];
    TwoSteps(q, s0, propose, abstain);
  }

  lemma Outweighs(q: G.Querier, dao: Addr, a: Addr, height: nat)
    requires q.power(dao, a, height) > q.total(dao, height)
    ensures !GI.Fair(q)
  {
    var b := map[a := G.Ballot(q.power(dao, a, height), Yes)];
    SumMember(b, GI.AnyWeight(), a);
    assert GI.Fair(q) ==> GI.ReportedBallots(q, height, b);
  }

  function NothingStaked(): nat -> map<Addr, nat> {
    (height: nat) => map[]
  }

  lemma ReportsWithoutStakes(s: State, dao: Addr, a: Addr, height: nat)
    ensures var q := Reporting(s, NothingStaked());
            && q.power(dao, a, height) == VotingPowerAt(0, QueryAccount(s, a, height))
            && q.total(dao, height) == TotalPowerAt(0, QueryTotal(s, height))
  {
    SumEmpty(NothingStaked()(height), Amount());
  }

  /** The run after which a deregistered account still has power: the module's answers are not fair, and
      that account can open a proposal, with a deposit, which no later run decides. */
  lemma ShippedModuleSticks()
    returns (owner: Addr, birth: Block, calls: seq<Call>, end: Block, config: G.Config, env: G.Env, late: Block)
    ensures Ordered(birth, calls, end) && env.block == end && end.NotAfter(late)
    ensures config.depositInfo.Some? && config.depositInfo.value.deposit > 0
    ensures var q := Reporting(Reached(owner, birth, calls).state, NothingStaked());
            && !GI.Fair(q)
            && G.Instantiate(config, {env.sender}).Success?
            && var s := G.Run(q, G.Instantiate(config, {env.sender}).value, ProposeAndAbstain(env)).state;
            && 1 in s.proposals && s.proposals[1].status == Open && s.proposals[1].expiration.IsExpired(late)
            && forall more | G.Ordered(env.contract, late, more) ::
                 && 1 in G.Run(q, s, more).state.proposals
                 && G.Run(q, s, more).state.proposals[1] == s.proposals[1]
  {
    hide Reached, QueryAccount, QueryTotal, Reporting, G.Run, GI.Inv, PE.AllCountable, StalePower;
    var a;
    owner, birth, calls, end, a := DeregisteredKeepsPower();
    var q := Reporting(Reached(owner, birth, calls).state, NothingStaked());
    env := G.Env(end, a, Addr(8), true);
    late := Block(end.height + 10, end.time);
    config := G.Config(AbsolutePercentage(Majority), Height(10), None, false, true, Addr(9),
                       Some(P.DepositInfo(Addr(7), 5, true)));
    ReportsWithoutStakes(Reached(owner, birth, calls).state, config.dao, a, end.height);
    Outweighs(q, config.dao, a, end.height);
    AbstentionSticks(q, config, env, late);
    var s0 := G.Instantiate(config, {env.sender}).value;
    GI.InstantiateInv(config, {env.sender});
    GI.RunKeepsInv(q, s0, ProposeAndAbstain(env));
    assert PE.AllCountable(s0) by { PE.NothingToCount(s0); }
    PE.RunKeepsCountable(q, s0, ProposeAndAbstain(env));
    var s := G.Run(q, s0, ProposeAndAbstain(env)).state;
    forall more | G.Ordered(env.contract, late, more)
      ensures 1 in G.Run(q, s, more).state.proposals && G.Run(q, s, more).state.proposals[1] == s.proposals[1]
    {
      PE.StuckForever(q, s, 1, env.contract, late, more);
    }
  }
}
