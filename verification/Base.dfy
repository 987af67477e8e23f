/** Machine integers, results and error codes shared by every module. */
module Base {
  import opened Arithmetic

  type u8 = x: int | 0 <= x < 256
  type u32 = x: int | 0 <= x < 0x1_0000_0000
  type u64 = x: int | 0 <= x < 0x1_0000_0000_0000_0000

  const U32_MAX: u32 := 0xFFFF_FFFF
  const U64_MAX: u64 := 0xFFFF_FFFF_FFFF_FFFF

  type Bytes = seq<u8>

  /** A 32-byte value: a hash, a randomness value or the bytes of an address. */
  type Digest = d: Bytes | |d| == 32 witness seq(32, _ => 0)

  /** SHA-256 is a parameter of the model: any function from byte strings to digests. */
  type Hash = Bytes -> Digest

  /** Account addresses. Only equality matters, so an address is a number; 0 is the all-zero key. */
  type Key = nat
  const DEFAULT_KEY: Key := 0

  datatype Option<+T> = None | Some(value: T)

  /** The error codes of hybrid_vault that the model can return, plus three for failures outside it. */
  datatype VaultError =
    | InvalidPoolAccount
    | PoolMismatch
    | MetadataTooLong
    | IndexOutOfRange
    | InvalidMerkleProof
    | NoAssetAvailable
    | InvalidRandomnessAccount
    | RandomnessNotFresh
    | RandomnessMismatch
    | RandomnessNotRevealed
    | RandomnessAlreadyRevealed
    | OutOfOrder
    | WrongRequestKind
    | MergeBacklog
    | WrongAsset
    | DeadlineNotReached
    | AssetStateMismatch
    | InsolventVault
    | AssetAccountingBroken
    | MathOverflow
    | UriNotContentAddressed
    | VaultNotOpen
    | VaultAlreadyOpen
    | GraduationNotVerified
    | RandomnessAuthorityMismatch
    | WrongQueue
    | OracleReused
    | RecommitsExhausted
    | RecommitsRemaining
    | ExpiryNotReached
    | WrongOracle
    | NoFreshOracle
    | OracleStale
    | MintArgsMissing
    | MintEscrowShort
    | AlreadyMinted
    | MintCostConstantStale
    | ExpireBatchInvalid
    | ExpireBatchAccountMismatch
      // failures raised outside the vault's own code
    | AccountConstraint  // an account check made before the handler runs
    | CpiFailed          // the token, system or asset program rejects the call
    | ComputeExceeded    // the transaction runs out of compute units

  datatype Result<+T> = Ok(value: T) | Err(error: VaultError) {
    predicate IsFailure() {
      Err?
    }

    function PropagateFailure<U>(): Result<U>
      requires Err?
    {
      Err(error)
    }

    function Extract(): T
      requires Ok?
    {
      value
    }
  }

  type Status = Result<()>

  /** The `require!` macro. */
  function Need(condition: bool, error: VaultError): Status {
    if condition then Ok(()) else Err(error)
  }

  function CheckedAdd(a: u64, b: u64): Result<u64> {
    if a + b <= U64_MAX then Ok(a + b) else Err(MathOverflow)
  }

  function CheckedSub(a: u64, b: u64, error: VaultError): Result<u64> {
    if b <= a then Ok(a - b) else Err(error)
  }

  function CheckedMul(a: u64, b: u64): Result<u64> {
    if Times(a, b) <= U64_MAX then Ok(Times(a, b)) else Err(MathOverflow)
  }

  function Min(a: int, b: int): int {
    if a < b then a else b
  }

  function Max(a: int, b: int): int {
    if a < b then b else a
  }
}
