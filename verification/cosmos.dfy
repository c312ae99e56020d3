/** What the contracts take from the chain and its standard crates: addresses, 128-bit amounts,
    failures, blocks, expirations and durations. */
module Cosmos {

  datatype Option<+T> = None | Some(value: T)

  /** The outcome of a message. A panic inside a contract is a `Failure` like any returned error:
      the chain rolls the state back either way. */
  datatype Result<+T> = Success(value: T) | Failure(error: Error) {
    predicate IsFailure() {
      Failure?
    }

    function PropagateFailure<U>(): Result<U>
      requires Failure?
    {
      Failure(error)
    }

    function Extract(): T
      requires Success?
    {
      value
    }
  }

  datatype Error =
    | Overflow | DivideByZero | NotFound | Unauthorized
    // proposal module
    | InactiveDao | NotAllowed | ProposalTooLarge | NoSuchProposal | NotOpen | NotRegistered
    | AlreadyCast | AlreadyVoted | NotPassed | WrongCloseStatus | InvalidThreshold
    | DurationUnitsConflict | InvalidMinVotingPeriod | Exist | NotExist
    // vesting
    | AlreadyExists | NoVestingEntry | InvalidAccount
    // airdrop
    | StageNotBegun | StageExpired | AlreadyClaimed | VerificationFailed
    // cw20
    | InvalidZeroAmount | CannotSetOwnAccount | AllowanceExpired | NoAllowance

  datatype Addr = Addr(id: nat)

  const U128_MAX: nat := 0xFFFF_FFFF_FFFF_FFFF_FFFF_FFFF_FFFF_FFFF

  lemma MaxIsFourWords()
    ensures U128_MAX + 1 == 0x1_0000_0000 * 0x1_0000_0000 * 0x1_0000_0000 * 0x1_0000_0000
  {
  }

  type Uint128 = n: nat | n <= U128_MAX witness 0

  /** Decimals have 18 places and are held as their atomics. */
  const DECIMAL_ONE: nat := 1_000_000_000_000_000_000

  function CheckedAdd(a: nat, b: nat): Result<nat> {
    if a + b <= U128_MAX then Success(a + b) else Failure(Overflow)
  }

  function CheckedSub(a: nat, b: nat): Result<nat> {
    if b <= a then Success(a - b) else Failure(Overflow)
  }

  function CheckedMul(a: nat, b: nat): Result<nat> {
    if a * b <= U128_MAX then Success(a * b) else Failure(Overflow)
  }

  function CheckedDiv(a: nat, b: nat): Result<nat> {
    if b == 0 then Failure(DivideByZero) else Success(a / b)
  }

  function Min(a: nat, b: nat): nat {
    if a <= b then a else b
  }

  /** `time` is in nanoseconds. */
  datatype Block = Block(height: nat, time: nat) {
    predicate NotAfter(later: Block) {
      height <= later.height && time <= later.time
    }
  }

  const NANOS_PER_SECOND: nat := 1_000_000_000

  datatype Expiration = AtHeight(height: nat) | AtTime(time: nat) | Never {
    predicate IsExpired(block: Block) {
      match this
      case AtHeight(h) => h <= block.height
      case AtTime(t) => t <= block.time
      case Never => false
    }
  }

  /** `Time` is in seconds. */
  datatype Duration = Height(blocks: nat) | Time(seconds: nat) {
    function After(block: Block): Expiration {
      match this
      case Height(n) => AtHeight(block.height + n)
      case Time(s) => AtTime(block.time + s * NANOS_PER_SECOND)
    }
  }
}
