/** The vocabulary of the external `voting` crate: positions, tallies, thresholds, statuses.
    Percentages are decimals with 18 places, held as their atomics and compared exactly. */
module Voting {
  import opened Cosmos

  datatype Vote = Yes | No | Abstain

  datatype Votes = Votes(yes: nat, no: nat, abstain: nat) {
    /** The number of votes cast, as mathematics has it. */
    ghost function Cast(): nat {
      yes + no + abstain
    }

    function Total(): (r: Result<nat>)
      ensures r == if Cast() <= U128_MAX then Success(Cast()) else Failure(Overflow)
    {
      var decided :- CheckedAdd(yes, no);
      CheckedAdd(decided, abstain)
    }

    function AddVote(vote: Vote, power: nat): Result<Votes> {
      match vote
      case Yes => (var n :- CheckedAdd(yes, power); Success(this.(yes := n)))
      case No => (var n :- CheckedAdd(no, power); Success(this.(no := n)))
      case Abstain => (var n :- CheckedAdd(abstain, power); Success(this.(abstain := n)))
    }

    function RemoveVote(vote: Vote, power: nat): Result<Votes> {
      match vote
      case Yes => (var n :- CheckedSub(yes, power); Success(this.(yes := n)))
      case No => (var n :- CheckedSub(no, power); Success(this.(no := n)))
      case Abstain => (var n :- CheckedSub(abstain, power); Success(this.(abstain := n)))
    }
  }

  const ZERO_VOTES := Votes(0, 0, 0)

  datatype PercentageThreshold = Majority | Percent(atomics: nat)

  predicate ValidPassing(p: PercentageThreshold) {
    p.Percent? ==> 0 < p.atomics <= DECIMAL_ONE
  }

  predicate ValidQuorum(p: PercentageThreshold) {
    p.Percent? ==> p.atomics <= DECIMAL_ONE
  }

  datatype Threshold =
    | AbsolutePercentage(percentage: PercentageThreshold)
    | ThresholdQuorum(threshold: PercentageThreshold, quorum: PercentageThreshold)
    | AbsoluteCount(count: Uint128)
  {
    /** What the crate's own validation lets through. */
    predicate Valid() {
      match this
      case AbsolutePercentage(p) => ValidPassing(p)
      case ThresholdQuorum(t, q) => ValidPassing(t) && ValidQuorum(q)
      case AbsoluteCount(_) => true
    }
  }

  datatype Status = Open | Rejected | Passed | Executed | Closed

  datatype VoteCmp = Greater | Geq

  /** `votes` against `total * percent`, on exact integers. */
  predicate CompareVoteCount(votes: nat, cmp: VoteCmp, total: nat, atomics: nat) {
    match cmp
    case Greater => votes * DECIMAL_ONE > total * atomics
    case Geq => votes * DECIMAL_ONE >= total * atomics
  }
}
