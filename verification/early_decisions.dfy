/** The early verdicts of a proposal without revoting are exact: "passed" and "rejected" are
    declared before the vote closes precisely when nothing that can still be cast matters. */
module EarlyDecisions {
  import opened Cosmos
  import opened Voting
  import opened Proposals

  /** The reference verdict: how tally `w` is counted once voting on `p` is over. */
  predicate PassesAtClose(p: Proposal, w: Votes)
    requires w.Cast() <= p.totalPower
  {
    match p.threshold
    case AbsolutePercentage(percentage) => DoesVoteCountPass(w.yes, p.totalPower - w.abstain, percentage)
    case ThresholdQuorum(threshold, quorum) =>
      && DoesVoteCountPass(w.yes + w.no + w.abstain, p.totalPower, quorum)
      && DoesVoteCountPass(w.yes, w.yes + w.no, threshold)
    case AbsoluteCount(count) => w.yes >= count
  }

  /** The same in plain numbers, percentages in units of 10^-18. Abstentions count towards a quorum and
      towards nothing else. */
  ghost predicate Wins(p: Proposal, w: Votes) {
    var decided := w.yes + w.no;
    match p.threshold
    case AbsolutePercentage(Majority) => 2 * w.yes > p.totalPower - w.abstain
    case AbsolutePercentage(Percent(share)) =>
      w.abstain < p.totalPower && w.yes * 1_000_000_000_000_000_000 >= (p.totalPower - w.abstain) * share
    case ThresholdQuorum(threshold, quorum) =>
      && (match quorum
          case Majority => 2 * (decided + w.abstain) > p.totalPower
          case Percent(share) =>
            p.totalPower > 0 && (decided + w.abstain) * 1_000_000_000_000_000_000 >= p.totalPower * share)
      && (match threshold
          case Majority => 2 * w.yes > decided
          case Percent(share) => decided > 0 && w.yes * 1_000_000_000_000_000_000 >= decided * share)
    case AbsoluteCount(count) => w.yes >= count
  }

  /** `w` is a tally that further votes could still turn `p`'s tally into. */
  ghost predicate Extends(p: Proposal, w: Votes) {
    && p.votes.yes <= w.yes && p.votes.no <= w.no && p.votes.abstain <= w.abstain
    && w.Cast() <= p.totalPower
  }

  ghost predicate AlwaysPasses(p: Proposal) {
    forall w :: Extends(p, w) ==> PassesAtClose(p, w)
  }

  ghost predicate NeverPasses(p: Proposal) {
    forall w :: Extends(p, w) ==> !PassesAtClose(p, w)
  }

  /** What every stored proposal satisfies (see `GovernanceInvariants`). */
  ghost predicate Sound(p: Proposal) {
    && p.threshold.Valid()
    && p.votes.Cast() <= p.totalPower
    && forall b: Block :: p.expiration.IsExpired(b) ==> p.MinPeriodOver(b)
  }

  // ----- counting -----

  lemma PassMonotone(yes: nat, options: nat, yes': nat, options': nat, percent: PercentageThreshold)
    requires ValidPassing(percent)
    requires DoesVoteCountPass(yes, options, percent)
    requires yes <= yes' <= options' <= options
    ensures DoesVoteCountPass(yes', options', percent)
  {
    if percent.Percent? {
      var p := percent.atomics;
      assert options' * p <= options * p;
      assert options * p > 0;
    }
  }

  lemma ScaledSum(a: nat, b: nat, p: nat)
    requires p <= DECIMAL_ONE
    ensures (a + b) * p <= a * p + b * DECIMAL_ONE
  {
    assert (a + b) * p == a * p + b * p;
    assert b * p <= b * DECIMAL_ONE;
  }

  /** Turning abstentions into yes votes never hurts. */
  lemma PassGrows(yes: nat, options: nat, extra: nat, percent: PercentageThreshold)
    requires ValidPassing(percent)
    requires DoesVoteCountPass(yes, options, percent)
    ensures DoesVoteCountPass(yes + extra, options + extra, percent)
  {
    if percent.Percent? {
      ScaledSum(options, extra, percent.atomics);
    }
  }

  /** The inverted test, special 100% branch included, says exactly that the proposal would fail
      even if everyone who did not say no said yes. */
  lemma RejectedIffUnreachable(no: nat, options: nat, percent: PercentageThreshold)
    requires no <= options && ValidPassing(percent)
    ensures RejectedAmong(no, options, percent) == Success(!DoesVoteCountPass(options - no, options, percent))
  {
    if percent.Percent? {
      var p := percent.atomics;
      assert options * (DECIMAL_ONE - p) == options * DECIMAL_ONE - options * p;
    }
  }

  /** The comment on the 100% branch fears a 0% no-vote requirement that no votes at all would meet.
      With exact counting the branch changes nothing: the comparison is strict. */
  lemma HundredPercentBranchIsRedundant(no: nat, options: nat)
    ensures RejectedAmong(no, options, Percent(DECIMAL_ONE)) == DoesVoteCountFail(no, options, Percent(DECIMAL_ONE))
  {
    assert options * 0 == 0;
  }

  /** The verdict in numbers, for every kind of threshold. */
  lemma VerdictInNumbers(p: Proposal, w: Votes)
    requires w.Cast() <= p.totalPower
    ensures PassesAtClose(p, w) <==> Wins(p, w)
  {
  }

  // ----- no panics -----

  /** None of the unsigned subtractions and additions in the two tests can abort. */
  lemma TestsNeverPanic(p: Proposal, b: Block)
    requires Sound(p)
    ensures p.IsPassed(b).Success? && p.IsRejected(b).Success? && p.CurrentStatus(b).Success?
  {
    hide RejectedAmong, DoesVoteCountPass;
    assert p.votes.Cast() <= U128_MAX;
    match p.threshold
    case AbsolutePercentage(percentage) =>
      RejectedIffUnreachable(p.votes.no, p.totalPower - p.votes.abstain, percentage);
    case ThresholdQuorum(threshold, quorum) =>
      RejectedIffUnreachable(p.votes.no, p.totalPower - p.votes.abstain, threshold);
      RejectedIffUnreachable(p.votes.no, p.votes.Cast() - p.votes.abstain, threshold);
    case AbsoluteCount(_) =>
  }

  // ----- exactness -----

  lemma ClosedPassExact(p: Proposal, b: Block)
    requires Sound(p) && p.expiration.IsExpired(b)
    ensures p.IsPassed(b) == Success(PassesAtClose(p, p.votes))
  {
    hide RejectedAmong, DoesVoteCountPass;
    assert p.votes.Cast() <= U128_MAX;
  }

  lemma QuorumGrows(cast: nat, cast': nat, power: nat, quorum: PercentageThreshold)
    requires cast <= cast' && DoesVoteCountPass(cast, power, quorum)
    ensures DoesVoteCountPass(cast', power, quorum)
  {
  }

  lemma PassingShareStays(p: Proposal, w: Votes, percentage: PercentageThreshold)
    requires p.threshold == AbsolutePercentage(percentage) && ValidPassing(percentage) && Extends(p, w)
    requires DoesVoteCountPass(p.votes.yes, p.totalPower - p.votes.abstain, percentage)
    ensures PassesAtClose(p, w)
  {
    hide DoesVoteCountPass;
    PassMonotone(p.votes.yes, p.totalPower - p.votes.abstain, w.yes, p.totalPower - w.abstain, percentage);
  }

  lemma QuorumVerdict(p: Proposal, w: Votes, threshold: PercentageThreshold, quorum: PercentageThreshold)
    requires p.threshold == ThresholdQuorum(threshold, quorum) && w.Cast() <= p.totalPower
    ensures PassesAtClose(p, w) <==>
              && DoesVoteCountPass(w.Cast(), p.totalPower, quorum)
              && DoesVoteCountPass(w.yes, w.yes + w.no, threshold)
  {
    hide DoesVoteCountPass;
  }

  lemma PassingQuorumStays(p: Proposal, w: Votes, threshold: PercentageThreshold, quorum: PercentageThreshold)
    requires p.threshold == ThresholdQuorum(threshold, quorum) && ValidPassing(threshold) && Extends(p, w)
    requires DoesVoteCountPass(p.votes.Cast(), p.totalPower, quorum)
    requires DoesVoteCountPass(p.votes.yes, p.totalPower - p.votes.abstain, threshold)
    ensures PassesAtClose(p, w)
  {
    hide DoesVoteCountPass, PassesAtClose, ValidPassing;
    QuorumVerdict(p, w, threshold, quorum);
    QuorumGrows(p.votes.Cast(), w.Cast(), p.totalPower, quorum);
    PassMonotone(p.votes.yes, p.totalPower - p.votes.abstain, w.yes, w.yes + w.no, threshold);
  }

  /** The tallies in which everyone yet to vote says no, or says yes. */
  function AllNo(p: Proposal): Votes
    requires p.votes.Cast() <= p.totalPower
  {
    p.votes.(no := p.totalPower - p.votes.yes - p.votes.abstain)
  }

  function AllYes(p: Proposal): Votes
    requires p.votes.Cast() <= p.totalPower
  {
    p.votes.(yes := p.totalPower - p.votes.no - p.votes.abstain)
  }

  /** What the pass test asks before the close, for each kind of threshold. */
  lemma OpenPassTest(p: Proposal, b: Block)
    requires Sound(p) && !p.allowRevoting && !p.expiration.IsExpired(b) && p.MinPeriodOver(b)
    ensures p.threshold.AbsolutePercentage? ==>
              p.IsPassed(b)
              == Success(DoesVoteCountPass(p.votes.yes, p.totalPower - p.votes.abstain, p.threshold.percentage))
    ensures p.threshold.ThresholdQuorum? ==>
              p.IsPassed(b)
              == Success(&& DoesVoteCountPass(p.votes.Cast(), p.totalPower, p.threshold.quorum)
                         && DoesVoteCountPass(p.votes.yes, p.totalPower - p.votes.abstain, p.threshold.threshold))
    ensures p.threshold.AbsoluteCount? ==> p.IsPassed(b) == Success(p.votes.yes >= p.threshold.count)
  {
    hide DoesVoteCountPass, Threshold.Valid, PassesAtClose, Votes.Total, Proposal.MinPeriodOver;
    assert p.votes.Cast() <= U128_MAX;
  }

  lemma PassedTallyStaysPassed(p: Proposal, b: Block, w: Votes)
    requires Sound(p) && !p.allowRevoting && !p.expiration.IsExpired(b) && p.MinPeriodOver(b)
    requires p.IsPassed(b) == Success(true) && Extends(p, w)
    ensures PassesAtClose(p, w)
  {
    hide DoesVoteCountPass, Proposal.IsPassed, Proposal.MinPeriodOver;
    OpenPassTest(p, b);
    match p.threshold
    case AbsolutePercentage(percentage) => PassingShareStays(p, w, percentage);
    case ThresholdQuorum(threshold, quorum) => PassingQuorumStays(p, w, threshold, quorum);
    case AbsoluteCount(_) =>
  }

  /** Two tallies decide whether the vote can still be lost: the present one and `AllNo`. */
  lemma PassDecidedByExtremes(p: Proposal, b: Block)
    requires Sound(p) && !p.allowRevoting && !p.expiration.IsExpired(b) && p.MinPeriodOver(b)
    ensures p.IsPassed(b) == Success(PassesAtClose(p, p.votes) && PassesAtClose(p, AllNo(p)))
  {
    hide DoesVoteCountPass, Proposal.IsPassed, Proposal.MinPeriodOver;
    OpenPassTest(p, b);
    if p.IsPassed(b) == Success(true) {
      PassedTallyStaysPassed(p, b, p.votes);
      PassedTallyStaysPassed(p, b, AllNo(p));
    }
  }

  /** An open proposal without revoting is declared passed exactly when its minimum period is over
      and every tally it can still reach would pass at the close. */
  lemma EarlyPassExact(p: Proposal, b: Block)
    requires Sound(p) && !p.allowRevoting && !p.expiration.IsExpired(b)
    ensures p.IsPassed(b) == Success(p.MinPeriodOver(b) && AlwaysPasses(p))
  {
    hide PassesAtClose;
    if p.MinPeriodOver(b) {
      hide Proposal.IsPassed, Proposal.MinPeriodOver;
      PassDecidedByExtremes(p, b);
      assert Extends(p, p.votes) && Extends(p, AllNo(p));
      if p.IsPassed(b) == Success(true) {
        forall w | Extends(p, w) ensures PassesAtClose(p, w) {
          PassedTallyStaysPassed(p, b, w);
        }
      }
    }
  }

  lemma RejectedTallyStaysRejected(p: Proposal, w: Votes, percent: PercentageThreshold)
    requires Sound(p) && Extends(p, w) && ValidPassing(percent)
    requires !DoesVoteCountPass(p.totalPower - p.votes.abstain - p.votes.no, p.totalPower - p.votes.abstain, percent)
    ensures !DoesVoteCountPass(w.yes, p.totalPower - w.abstain, percent)
    ensures !DoesVoteCountPass(w.yes, w.yes + w.no, percent)
  {
    hide DoesVoteCountPass, ValidPassing, ValidQuorum, Expiration.IsExpired, Proposal.MinPeriodOver;
    var options := p.totalPower - p.votes.abstain;
    forall o | w.yes + w.no <= o <= options && DoesVoteCountPass(w.yes, o, percent) ensures false {
      PassGrows(w.yes, o, options - o, percent);
      PassMonotone(w.yes + options - o, options, options - p.votes.no, options, percent);
    }
  }

  lemma FullTurnoutMeetsQuorum(power: nat, quorum: PercentageThreshold)
    requires power > 0 && ValidQuorum(quorum)
    ensures DoesVoteCountPass(power, power, quorum)
  {
    if quorum.Percent? {
      assert power * quorum.atomics <= power * DECIMAL_ONE;
    }
  }

  lemma NoOptionsNoPass(percent: PercentageThreshold)
    ensures !DoesVoteCountPass(0, 0, percent)
  {
  }

  /** What the rejection test asks before the close, for each kind of threshold. */
  lemma OpenRejectTest(p: Proposal, b: Block)
    requires Sound(p) && !p.allowRevoting && !p.expiration.IsExpired(b)
    ensures p.threshold.AbsolutePercentage? ==>
              p.IsRejected(b) == RejectedAmong(p.votes.no, p.totalPower - p.votes.abstain, p.threshold.percentage)
    ensures p.threshold.ThresholdQuorum? ==>
              p.IsRejected(b) == RejectedAmong(p.votes.no, p.totalPower - p.votes.abstain, p.threshold.threshold)
    ensures p.threshold.AbsoluteCount? ==> p.IsRejected(b) == Success(AllYes(p).yes < p.threshold.count)
  {
    hide RejectedAmong, DoesVoteCountPass, Threshold.Valid, PassesAtClose, Votes.Total, Proposal.MinPeriodOver;
    assert p.votes.Cast() <= U128_MAX;
  }

  /** Full turnout meets every quorum, unless there is no power at all and nothing passes. */
  lemma QuorumNoObstacle(p: Proposal)
    requires Sound(p) && p.threshold.ThresholdQuorum?
    ensures PassesAtClose(p, AllYes(p))
       <==> DoesVoteCountPass(AllYes(p).yes, p.totalPower - p.votes.abstain, p.threshold.threshold)
  {
    hide DoesVoteCountPass, PassesAtClose, ValidPassing, ValidQuorum, Proposal.MinPeriodOver;
    QuorumVerdict(p, AllYes(p), p.threshold.threshold, p.threshold.quorum);
    if p.totalPower > 0 {
      FullTurnoutMeetsQuorum(p.totalPower, p.threshold.quorum);
    } else {
      NoOptionsNoPass(p.threshold.threshold);
    }
  }

  /** One tally decides whether the vote can still be won: `AllYes`. */
  lemma RejectDecidedByAllYes(p: Proposal, b: Block)
    requires Sound(p) && !p.allowRevoting && !p.expiration.IsExpired(b)
    ensures p.IsRejected(b) == Success(!PassesAtClose(p, AllYes(p)))
  {
    hide RejectedAmong, DoesVoteCountPass, Proposal.IsRejected, Proposal.MinPeriodOver;
    OpenRejectTest(p, b);
    var options := p.totalPower - p.votes.abstain;
    match p.threshold
    case AbsolutePercentage(percentage) => RejectedIffUnreachable(p.votes.no, options, percentage);
    case ThresholdQuorum(threshold, quorum) =>
      RejectedIffUnreachable(p.votes.no, options, threshold);
      QuorumNoObstacle(p);
    case AbsoluteCount(count) =>
  }

  lemma LostTallyStaysLost(p: Proposal, w: Votes)
    requires Sound(p) && Extends(p, w) && !PassesAtClose(p, AllYes(p))
    ensures !PassesAtClose(p, w)
  {
    hide DoesVoteCountPass, Proposal.MinPeriodOver;
    match p.threshold
    case AbsolutePercentage(percentage) => RejectedTallyStaysRejected(p, w, percentage);
    case ThresholdQuorum(threshold, quorum) =>
      QuorumNoObstacle(p);
      RejectedTallyStaysRejected(p, w, threshold);
    case AbsoluteCount(_) =>
  }

  /** An open proposal without revoting is declared rejected exactly when no tally it can still
      reach would pass at the close; the minimum period plays no part. */
  lemma EarlyRejectExact(p: Proposal, b: Block)
    requires Sound(p) && !p.allowRevoting && !p.expiration.IsExpired(b)
    ensures p.IsRejected(b) == Success(NeverPasses(p))
  {
    hide PassesAtClose, Proposal.IsRejected, Proposal.MinPeriodOver;
    RejectDecidedByAllYes(p, b);
    assert Extends(p, AllYes(p));
    if !PassesAtClose(p, AllYes(p)) {
      forall w | Extends(p, w) ensures !PassesAtClose(p, w) {
        LostTallyStaysLost(p, w);
      }
    }
  }

  /** What the rejection test asks at the close, for each kind of threshold. */
  lemma ClosedRejectTest(p: Proposal, b: Block)
    requires Sound(p) && p.expiration.IsExpired(b)
    ensures p.threshold.AbsolutePercentage? ==>
              p.IsRejected(b) == RejectedAmong(p.votes.no, p.totalPower - p.votes.abstain, p.threshold.percentage)
    ensures p.threshold.ThresholdQuorum? ==>
              p.IsRejected(b)
              == if DoesVoteCountPass(p.votes.Cast(), p.totalPower, p.threshold.quorum)
                 then RejectedAmong(p.votes.no, p.votes.yes + p.votes.no, p.threshold.threshold)
                 else Success(true)
    ensures p.threshold.AbsoluteCount? ==> p.IsRejected(b) == Success(AllYes(p).yes < p.threshold.count)
  {
    hide RejectedAmong, DoesVoteCountPass, Threshold.Valid, PassesAtClose, Votes.Total, Proposal.MinPeriodOver;
    assert p.votes.Cast() <= U128_MAX;
  }

  /** The rejection test at the close. With a quorum the vote is decided then, and the test is the
      opposite of the verdict; without one it still grants the proposal every vote not cast, so that
      both tests can fail. */
  lemma ClosedRejectExact(p: Proposal, b: Block)
    requires Sound(p) && p.expiration.IsExpired(b)
    ensures p.IsRejected(b) == Success(!PassesAtClose(p, if p.threshold.ThresholdQuorum? then p.votes else AllYes(p)))
  {
    hide RejectedAmong, DoesVoteCountPass, Proposal.IsRejected, Proposal.MinPeriodOver;
    ClosedRejectTest(p, b);
    match p.threshold
    case AbsolutePercentage(percentage) =>
      RejectedIffUnreachable(p.votes.no, p.totalPower - p.votes.abstain, percentage);
    case ThresholdQuorum(threshold, quorum) =>
      RejectedIffUnreachable(p.votes.no, p.votes.yes + p.votes.no, threshold);
    case AbsoluteCount(_) =>
  }

  /** The two tests never agree, whatever the block and whether or not revoting is allowed. */
  lemma PassAndRejectExclude(p: Proposal, b: Block)
    requires Sound(p)
    ensures !(p.IsPassed(b) == Success(true) && p.IsRejected(b) == Success(true))
  {
    hide PassesAtClose, Proposal.MinPeriodOver;
    assert Extends(p, p.votes);
    if p.expiration.IsExpired(b) {
      hide Proposal.IsPassed, Proposal.IsRejected;
      ClosedPassExact(p, b);
      ClosedRejectExact(p, b);
      if !PassesAtClose(p, AllYes(p)) {
        LostTallyStaysLost(p, p.votes);
      }
    } else if !p.allowRevoting {
      hide Proposal.IsPassed, Proposal.IsRejected;
      EarlyPassExact(p, b);
      EarlyRejectExact(p, b);
    }
  }

  /** With a quorum exactly one of the two tests holds at the close. */
  lemma QuorumDecidesAtClose(p: Proposal, b: Block)
    requires Sound(p) && p.threshold.ThresholdQuorum? && p.expiration.IsExpired(b)
    ensures p.IsPassed(b).Success? && p.IsRejected(b) == Success(!p.IsPassed(b).value)
  {
    hide RejectedAmong, DoesVoteCountPass, Proposal.IsPassed, Proposal.IsRejected;
    ClosedPassExact(p, b);
    ClosedRejectExact(p, b);
  }

  /** Without a quorum the tests can leave a tally undecided at the close; the status then reads
      rejected. In every case the status at the close is the reference verdict. */
  lemma StatusAtClose(p: Proposal, b: Block)
    requires Sound(p) && p.status == Open && p.expiration.IsExpired(b)
    ensures p.CurrentStatus(b) == Success(if PassesAtClose(p, p.votes) then Passed else Rejected)
  {
    hide RejectedAmong, DoesVoteCountPass;
    ClosedPassExact(p, b);
  }

  lemma StatusAtCloseInNumbers(p: Proposal, b: Block)
    requires Sound(p) && p.status == Open && p.expiration.IsExpired(b)
    ensures p.CurrentStatus(b) == Success(if Wins(p, p.votes) then Passed else Rejected)
  {
    hide PassesAtClose, Wins;
    StatusAtClose(p, b);
    VerdictInNumbers(p, p.votes);
  }

  /** Before the close an open proposal without revoting has the status its reachable tallies
      dictate. */
  lemma StatusBeforeClose(p: Proposal, b: Block)
    requires Sound(p) && p.status == Open && !p.allowRevoting && !p.expiration.IsExpired(b)
    ensures p.CurrentStatus(b) == Success(
              if p.MinPeriodOver(b) && AlwaysPasses(p) then Passed
              else if NeverPasses(p) then Rejected
              else Open)
  {
    hide RejectedAmong, DoesVoteCountPass;
    EarlyPassExact(p, b);
    EarlyRejectExact(p, b);
  }

  /** With revoting nothing is decided before the close. */
  lemma RevotingDecidesNothingEarly(p: Proposal, b: Block)
    requires p.status == Open && p.allowRevoting && !p.expiration.IsExpired(b)
    ensures p.CurrentStatus(b) == Success(Open)
  {
  }

  // ----- real voters -----

  /** `powers` belong to the voters yet to vote; a future has each of them vote once or stay away. */
  type Future = seq<Option<Vote>>

  ghost function PowerOf(powers: seq<nat>): nat {
    if powers == [] then 0 else powers[0] + PowerOf(powers[1..])
  }

  function CastOne(v: Votes, power: nat, choice: Option<Vote>): Votes {
    match choice
    case None => v
    case Some(Yes) => v.(yes := v.yes + power)
    case Some(No) => v.(no := v.no + power)
    case Some(Abstain) => v.(abstain := v.abstain + power)
  }

  ghost function TallyAfter(v: Votes, powers: seq<nat>, future: Future): Votes
    requires |powers| == |future|
    decreases powers
  {
    if powers == [] then v else TallyAfter(CastOne(v, powers[0], future[0]), powers[1..], future[1..])
  }

  lemma {:induction false} TallyAfterGrows(v: Votes, powers: seq<nat>, future: Future)
    requires |powers| == |future|
    ensures var w := TallyAfter(v, powers, future);
            && v.yes <= w.yes && v.no <= w.no && v.abstain <= w.abstain
            && w.Cast() <= v.Cast() + PowerOf(powers)
    decreases powers
  {
    if powers != [] {
      TallyAfterGrows(CastOne(v, powers[0], future[0]), powers[1..], future[1..]);
    }
  }

  lemma {:induction false} TallyAfterUniform(v: Votes, powers: seq<nat>, choice: Option<Vote>)
    ensures TallyAfter(v, powers, seq(|powers|, _ => choice)) == CastOne(v, PowerOf(powers), choice)
    decreases powers
  {
    if powers != [] {
      var future := seq(|powers|, _ => choice);
      assert future[1..] == seq(|powers[1..]|, _ => choice);
      TallyAfterUniform(CastOne(v, powers[0], choice), powers[1..], choice);
    }
  }

  ghost predicate PassesAfter(p: Proposal, powers: seq<nat>, future: Future)
    requires |powers| == |future|
  {
    var w := TallyAfter(p.votes, powers, future);
    w.Cast() <= p.totalPower && PassesAtClose(p, w)
  }

  /** The doc comment of `is_passed`, word for word: when the voters yet to vote hold the rest of
      the power, the early verdicts hold if and only if no future sequence of their votes can
      change the outcome. */
  lemma EarlyVerdictsExactOverFutures(p: Proposal, b: Block, powers: seq<nat>)
    requires Sound(p) && !p.allowRevoting && !p.expiration.IsExpired(b)
    requires p.votes.Cast() + PowerOf(powers) == p.totalPower
    ensures p.MinPeriodOver(b) ==>
              (p.IsPassed(b) == Success(true) <==>
               forall future: Future | |future| == |powers| :: PassesAfter(p, powers, future))
    ensures p.IsRejected(b) == Success(true) <==>
              forall future: Future | |future| == |powers| :: !PassesAfter(p, powers, future)
  {
    hide RejectedAmong, DoesVoteCountPass;
    forall future: Future | |future| == |powers| ensures Extends(p, TallyAfter(p.votes, powers, future)) {
      TallyAfterGrows(p.votes, powers, future);
    }
    var stay, no, yes := seq(|powers|, _ => None), seq(|powers|, _ => Some(No)), seq(|powers|, _ => Some(Yes));
    TallyAfterUniform(p.votes, powers, None);
    TallyAfterUniform(p.votes, powers, Some(No));
    TallyAfterUniform(p.votes, powers, Some(Yes));
    assert PassesAfter(p, powers, stay) <==> PassesAtClose(p, p.votes);
    assert PassesAfter(p, powers, no) <==> PassesAtClose(p, AllNo(p));
    assert PassesAfter(p, powers, yes) <==> PassesAtClose(p, AllYes(p));
    EarlyRejectExact(p, b);
    RejectDecidedByAllYes(p, b);
    if p.MinPeriodOver(b) {
      EarlyPassExact(p, b);
      PassDecidedByExtremes(p, b);
    }
  }

  // ----- lazy evaluation -----

  /** The verdicts do not look at the stored status. */
  lemma VerdictsIgnoreStatus(p: Proposal, status: Status)
    ensures var p' := p.(status := status);
            && (Sound(p') <==> Sound(p)) && (AlwaysPasses(p') <==> AlwaysPasses(p))
            && (NeverPasses(p') <==> NeverPasses(p))
            && (p.votes.Cast() <= p.totalPower ==> PassesAtClose(p', p.votes) == PassesAtClose(p, p.votes))
  {
    hide DoesVoteCountPass;
    var p' := p.(status := status);
    assert forall w :: Extends(p', w) <==> Extends(p, w);
    assert forall w :: Extends(p, w) ==> PassesAtClose(p', w) == PassesAtClose(p, w);
  }

  /** Evaluation never moves a status that has left open, and moves an open one to a verdict at most. */
  lemma StoredStatusShows(p: Proposal, now: Block)
    ensures p.status != Open ==> p.CurrentStatus(now) == Success(p.status)
    ensures p.status == Open && p.CurrentStatus(now).Success? ==> p.CurrentStatus(now).value in {Open, Passed, Rejected}
  {
    hide Proposal.IsPassed, Proposal.IsRejected;
  }

  lemma ExpiryIsFinal(e: Expiration, b1: Block, b2: Block)
    requires b1.NotAfter(b2) && e.IsExpired(b1)
    ensures e.IsExpired(b2)
  {
  }

  /** Evaluating the status early and storing it gives what evaluating it late gives. */
  lemma LazyStatusIsPathIndependent(p: Proposal, b1: Block, b2: Block)
    requires Sound(p) && b1.NotAfter(b2)
    ensures p.UpdateStatus(b1).Success?
    ensures p.UpdateStatus(b1).value.CurrentStatus(b2) == p.CurrentStatus(b2)
  {
    hide RejectedAmong, DoesVoteCountPass;
    TestsNeverPanic(p, b1);
    TestsNeverPanic(p, b2);
    if p.status == Open {
      assert p.minVotingPeriod.Some? && p.MinPeriodOver(b1) ==> p.MinPeriodOver(b2);
      if p.expiration.IsExpired(b1) {
        ExpiryIsFinal(p.expiration, b1, b2);
        StatusAtClose(p, b1);
        StatusAtClose(p, b2);
      } else if !p.allowRevoting {
        StatusBeforeClose(p, b1);
        assert Extends(p, p.votes);
        if p.expiration.IsExpired(b2) {
          StatusAtClose(p, b2);
        } else {
          StatusBeforeClose(p, b2);
        }
      }
    }
  }

  /** Soundness is needed: a minimum period outliving the vote would let a stored rejection and a
      late evaluation disagree. */
  lemma MisalignedPeriodsDisagree() returns (p: Proposal, b1: Block, b2: Block)
    ensures p.threshold.Valid() && p.votes.Cast() <= p.totalPower && b1.NotAfter(b2)
    ensures p.UpdateStatus(b1).Success?
    ensures p.UpdateStatus(b1).value.CurrentStatus(b2) == Success(Rejected)
    ensures p.CurrentStatus(b2) == Success(Passed)
  {
    p := Proposal(Addr(0), 0, Some(AtHeight(2)), AtHeight(1), AbsoluteCount(1), 1, [], Open,
                  Votes(1, 0, 0), false, None);
    b1, b2 := Block(1, 0), Block(2, 0);
  }
}
