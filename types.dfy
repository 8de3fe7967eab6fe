/** Scalar types, constants and errors shared by the model of the sortition
    program's "use governance invite" instruction. */
module Types {

  /** A Solana public key. The 32 bytes are modelled as a number; the
      all-zero key `Pubkey::default()` is 0. */
  type Pubkey = nat

  const DEFAULT_PUBKEY: Pubkey := 0

  /** Rust `u8`. */
  type U8 = x: int | 0 <= x < 0x100

  /** Rust `u32`. */
  type U32 = x: int | 0 <= x < 0x1_0000_0000

  const U32_MAX: U32 := 0xFFFF_FFFF

  /** Capacity of one citizen-index shard. Its value is declared outside this
      model; it is positive, and it is cast `as u32` by the program, so it is
      taken to fit in a `u32`. */
  type ShardCapacity = n: nat | 0 < n <= U32_MAX witness 1

  const MAX_CITIZENS_PER_INDEX: ShardCapacity

  /** Longest citizen name, in bytes. Its value is declared outside this model. */
  type NameLimit = n: nat | 0 < n witness 1

  const MAX_NAME_LENGTH: NameLimit

  /** Number of codes of each demographic dimension: a code is valid when it is
      strictly below its bound. */
  const REGION_CODES: nat := 8
  const AGE_GROUP_CODES: nat := 5
  const OTHER_DEMOGRAPHIC_CODES: nat := 4

  datatype Option<T> = None | Some(value: T)

  /** The failures the instruction can end with: the program's own
      `GovernanceError` variants, Anchor's seeds-constraint failure, and the
      panic of a checked `u32` addition. */
  datatype Error =
    | InvalidInvite
    | InviteAlreadyUsed
    | InviteExpired
    | InvalidInput
    | InvalidDemographic
    | CitizenIndexFull
    | ConstraintSeeds
    | ArithmeticOverflow

  datatype Result<T> = Ok(value: T) | Err(error: Error)
}
