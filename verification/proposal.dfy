/** A proposal and how its status is read off its tally. */
module Proposals {
  import opened Cosmos
  import opened Voting

  type CosmosMsg = nat

  datatype DepositInfo = DepositInfo(token: Addr, deposit: Uint128, refundFailedProposals: bool)

  function DoesVoteCountPass(yesVotes: nat, options: nat, percent: PercentageThreshold): bool {
    // All-abstain tallies do not pass.
    if options == 0 then false
    else
      match percent
      case Majority => yesVotes * 2 > options
      case Percent(p) => CompareVoteCount(yesVotes, Geq, options, p)
  }

  function DoesVoteCountFail(noVotes: nat, options: nat, percent: PercentageThreshold): Result<bool> {
    // All-abstain tallies are rejected.
    if options == 0 then Success(true)
    else
      match percent
      case Majority => Success(noVotes * 2 >= options)
      case Percent(p) =>
        var complement :- CheckedSub(DECIMAL_ONE, p);
        Success(CompareVoteCount(noVotes, Greater, options, complement))
  }

  /** The "100% or fail count" step that `is_rejected` repeats for each of its denominators. */
  function RejectedAmong(noVotes: nat, options: nat, percent: PercentageThreshold): Result<bool> {
    if percent == Percent(DECIMAL_ONE) then
      if options == 0 then Success(true) else Success(noVotes >= 1)
    else
      DoesVoteCountFail(noVotes, options, percent)
  }

  datatype Proposal = Proposal(
    proposer: Addr,
    startHeight: nat,
    minVotingPeriod: Option<Expiration>,
    expiration: Expiration,
    threshold: Threshold,
    totalPower: Uint128,
    msgs: seq<CosmosMsg>,
    status: Status,
    votes: Votes,
    allowRevoting: bool,
    depositInfo: Option<DepositInfo>)
  {
    predicate MinPeriodOver(block: Block) {
      minVotingPeriod.Some? ==> minVotingPeriod.value.IsExpired(block)
    }

    function IsPassed(block: Block): Result<bool> {
      if allowRevoting && !expiration.IsExpired(block) then Success(false)
      else if !MinPeriodOver(block) then Success(false)
      else
        match threshold
        case AbsolutePercentage(percentage) =>
          var options :- CheckedSub(totalPower, votes.abstain);
          Success(DoesVoteCountPass(votes.yes, options, percentage))
        case ThresholdQuorum(threshold, quorum) =>
          var total :- votes.Total();
          if !DoesVoteCountPass(total, totalPower, quorum) then Success(false)
          else
            var options :- CheckedSub(if expiration.IsExpired(block) then total else totalPower, votes.abstain);
            Success(DoesVoteCountPass(votes.yes, options, threshold))
        case AbsoluteCount(count) => Success(votes.yes >= count)
    }

    function IsRejected(block: Block): Result<bool> {
      if allowRevoting && !expiration.IsExpired(block) then Success(false)
      else
        match threshold
        case AbsolutePercentage(percentage) =>
          var options :- CheckedSub(totalPower, votes.abstain);
          RejectedAmong(votes.no, options, percentage)
        case ThresholdQuorum(threshold, quorum) =>
          var total :- votes.Total();
          if !expiration.IsExpired(block) then
            var options :- CheckedSub(totalPower, votes.abstain);
            RejectedAmong(votes.no, options, threshold)
          else if DoesVoteCountPass(total, totalPower, quorum) then
            var options :- CheckedSub(total, votes.abstain);
            RejectedAmong(votes.no, options, threshold)
          else Success(true)
        case AbsoluteCount(count) =>
          var total :- votes.Total();
          var outstanding :- CheckedSub(totalPower, total);
          var reachable :- CheckedAdd(votes.yes, outstanding);
          Success(reachable < count)
    }

    function CurrentStatus(block: Block): Result<Status> {
      if status != Open then Success(status)
      else
        var passed :- IsPassed(block);
        if passed then Success(Passed)
        else if expiration.IsExpired(block) then Success(Rejected)
        else
          var rejected :- IsRejected(block);
          Success(if rejected then Rejected else Open)
    }

    function UpdateStatus(block: Block): Result<Proposal> {
      var current :- CurrentStatus(block);
      Success(this.(status := current))
    }

    /** The part of a proposal that no message may change. */
    ghost predicate SameTerms(p: Proposal) {
      this.(status := p.status, votes := p.votes) == p
    }
  }
}
