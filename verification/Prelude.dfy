/** Types shared by every component: account keys, machine widths, results and errors. */
module Prelude {

  /** The textual form of a public key, which is what the protocol keys its maps by. */
  type Key = string

  const U32: int := 0x1_0000_0000
  const U64: int := 0x1_0000_0000_0000_0000
  const U128: int := 0x1_0000_0000_0000_0000_0000_0000_0000_0000

  newtype byte = x: int | 0 <= x < 256

  /** A contract is identified by a 32-byte hash. */
  type ContractId = id: seq<byte> | |id| == 32 witness seq(32, _ => 0)

  datatype Option<+T> = None | Some(value: T)

  datatype Result<+T> = Ok(value: T) | Err(error: Error)

  /** The error variants the modelled operations return. */
  datatype Error =
    | InvalidAmount(reason: string)
    | InvalidContract(reason: string)
    | InvalidSignature
    | InvalidStateTransition(from: string, to: string)
    | ContractNotFound
    | ContractAlreadyExists
    | CircuitBreakerActive
    | DepositTooSmall(minimum: nat, actual: nat)
    | WithdrawalExceedsBalance(requested: nat, available: nat)
    | InsufficientLiquidity(required: nat, available: nat)
    | PolicyViolation(reason: string)
    | RateLimitExceeded(limit: nat, attempted: nat)
    | Keystore
}
