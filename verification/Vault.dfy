/**
 The vault program as a state machine: the accounts it works on, and every instruction as a function
 from a state to a new state or an error. A failed instruction leaves the state as it was.
 */
module Vault {
  import opened Base
  import opened Arithmetic
  import opened Pool
  import opened Leaf
  import Oracle
  import Selection

  const REVEAL_TIMEOUT_SLOTS: u64 := 9_000
  const EXPIRE_GRACE_SLOTS: u64 := 216_000
  const MAX_RECOMMITS: nat := 3
  const MAX_MERGE_PER_IX: u32 := 32
  const MAX_MERGE_PER_CRANK: u32 := 1024
  const MAX_EXPIRE_PER_CALL: nat := 7
  const NO_HANDED_IN: u32 := U32_MAX
  const MINT_ESCROW_LAMPORTS: nat := 6_338_100
  const MIN_POOL_FLOOR: nat := 5
  const POOL_FLOOR_BPS: nat := 200

  /** What never changes after the vault is created. `budget` bounds the rehashing one transaction can pay for. */
  datatype Config = Config(
    sha: Hash, n: u32, ratio: u64, fee: u64, feeRecipient: Key,
    vaultKey: Digest, authority: Key, randomnessAuthority: Key, queue: Key,
    traitRoot: Digest, traitSchema: Digest, launchConfig: Digest, budget: nat)

  function Art(c: Config): Commitment {
    Commitment(c.traitRoot, c.traitSchema, c.launchConfig, c.n)
  }

  datatype Vault = Vault(
    open: bool, mintedCount: u32,
    assetsOutside: u64, pendingCaptures: u64, pendingRerolls: u64,
    nextSeq: u64, nextSettleSeq: u64, openedAtSlot: u64, totalFeeLamports: u64,
    totalCaptures: u64, totalRerolls: u64, totalUnwraps: u64, totalRecommits: u64, totalExpired: u64)

  datatype Kind = Capture | Reroll

  type Oracles = o: seq<Key> | |o| == 4 witness [0, 0, 0, 0]

  /** A pending request. `commits` counts the used entries of `oracles`. */
  datatype Request = Request(
    kind: Kind, seqNo: u64, user: Key, randomness: Key,
    seedSlot: u64, deadlineSlot: u64, commits: nat, oracles: Oracles,
    revealed: bool, value: Digest, handedIn: u32)

  /** A randomness account of the oracle network. */
  datatype Randomness = Randomness(authority: Key, queue: Key, seedSlot: u64, revealSlot: u64, value: Digest)

  /**
   All accounts the vault touches. `owner` maps each existing asset to its owner; `escrow` holds the
   lamports of the mint escrow of each request; `slot` is the clock.
   */
  datatype State = State(
    vault: Vault, pool: PoolState,
    requests: map<u64, Request>, locks: map<Key, u64>, rand: map<Key, Randomness>,
    owner: map<u32, Key>, vaultTokens: nat, tokens: map<Key, nat>, lamports: map<Key, nat>,
    escrow: map<u64, nat>, slot: u64)

  // ----- balances

  function Balance<K>(m: map<K, nat>, k: K): nat {
    if k in m then m[k] else 0
  }

  function Credit<K>(m: map<K, nat>, k: K, amount: nat): map<K, nat> {
    m[k := Balance(m, k) + amount]
  }

  function Debit<K>(m: map<K, nat>, k: K, amount: nat): Result<map<K, nat>> {
    if amount <= Balance(m, k) then Ok(m[k := Balance(m, k) - amount]) else Err(CpiFailed)
  }

  // ----- the end-of-instruction check

  function RequiredVaultTokens(v: Vault, ratio: u64): Result<u64> {
    var a :- CheckedAdd(v.assetsOutside, v.pendingCaptures);
    var owed :- CheckedAdd(a, v.pendingRerolls);
    CheckedMul(ratio, owed)
  }

  function Check(c: Config, v: Vault, pool: PoolState, vaultTokens: nat): Status {
    var required :- RequiredVaultTokens(v, c.ratio);
    var _ :- Need(required <= vaultTokens, InsolventVault);
    var a :- if |pool.slots| + |pool.queue| <= U64_MAX then Ok(|pool.slots| + |pool.queue|) else Err(MathOverflow);
    var b :- CheckedAdd(a, v.pendingRerolls);
    var accounted :- CheckedAdd(b, v.assetsOutside);
    var _ :- Need(accounted == c.n, AssetAccountingBroken);
    var _ :- Need(pool.cap == c.n, AssetAccountingBroken);
    var _ :- Need(v.mintedCount <= c.n, AssetAccountingBroken);
    var heldOrOut :- CheckedAdd(v.assetsOutside, v.pendingRerolls);
    Need(heldOrOut <= v.mintedCount, AssetAccountingBroken)
  }

  function Checked(c: Config, s: State): Result<State> {
    var _ :- Check(c, s.vault, s.pool, s.vaultTokens);
    Ok(s)
  }

  // ----- requesting a draw

  function PoolFloor(n: u32): nat {
    Max((n * POOL_FLOOR_BPS + 9_999) / 10_000, MIN_POOL_FLOOR)
  }

  function CheckCanRequest(c: Config, v: Vault, pool: PoolState): Status {
    var _ :- Need(v.open, VaultNotOpen);
    var pending :- CheckedAdd(v.pendingCaptures, v.pendingRerolls);
    var free := Max(|pool.slots| + |pool.queue| - pending, 0);
    Need(free > PoolFloor(c.n), NoAssetAvailable)
  }

  /** What the caller and the oracle network bring to a commit, and how the commit leaves the account. */
  datatype CommitEnv = CommitEnv(
    randomness: Key, queueKey: Key, oracle: Key, queue: Oracle.Queue, heartbeats: Oracle.Heartbeats,
    proofs: seq<Key>, now: Oracle.i64, seedSlot: u64, revealSlot: u64, value: Digest)

  /** The randomness account after an accepted commit in this slot. */
  function Commit(c: Config, s: State, env: CommitEnv, seqNo: u64, used: seq<Key>): Result<Randomness> {
    var _ :- Need(env.queueKey == c.queue, WrongQueue);
    var _ :- Oracle.CommitOracle(c.sha, env.queue, c.vaultKey, seqNo, used, env.proofs, env.heartbeats, env.now,
                                 env.oracle);
    var _ :- Need(env.randomness in s.rand, InvalidRandomnessAccount);
    var before := s.rand[env.randomness];
    var _ :- Need(before.authority == c.randomnessAuthority, RandomnessAuthorityMismatch);
    var _ :- Need(before.queue == c.queue, WrongQueue);
    var _ :- Need(env.seedSlot + 1 == s.slot, RandomnessNotFresh);
    var _ :- Need(env.revealSlot <= env.seedSlot, RandomnessNotFresh);
    Ok(before.(seedSlot := env.seedSlot, revealSlot := env.revealSlot, value := env.value))
  }

  /** The flat fee and the mint escrow, both paid by the user. */
  function PayLamports(c: Config, s: State, user: Key, liveMintCost: nat): Result<State> {
    var m :- Debit(s.lamports, user, c.fee);
    var m := Credit(m, c.feeRecipient, c.fee);
    var _ :- Need(liveMintCost <= MINT_ESCROW_LAMPORTS, MintCostConstantStale);
    var m :- Debit(m, user, MINT_ESCROW_LAMPORTS);
    Ok(s.(lamports := m, escrow := Credit(s.escrow, s.vault.nextSeq, MINT_ESCROW_LAMPORTS)))
  }

  function FirstOracle(oracle: Key): Oracles {
    [oracle, DEFAULT_KEY, DEFAULT_KEY, DEFAULT_KEY]
  }

  function CountRequest(v: Vault, kind: Kind, fee: u64): Result<Vault> {
    var next :- CheckedAdd(v.nextSeq, 1);
    var fees :- CheckedAdd(v.totalFeeLamports, fee);
    var v := v.(nextSeq := next, totalFeeLamports := fees);
    if kind == Capture then
      var pending :- CheckedAdd(v.pendingCaptures, 1);
      Ok(v.(pendingCaptures := pending))
    else
      var pending :- CheckedAdd(v.pendingRerolls, 1);
      var outside :- CheckedSub(v.assetsOutside, 1, AssetAccountingBroken);
      Ok(v.(pendingRerolls := pending, assetsOutside := outside))
  }

  /** Commits the randomness, creates the request and its lock, and counts it. */
  function FinishRequest(c: Config, s: State, kind: Kind, user: Key, handedIn: u32, env: CommitEnv): Result<State> {
    var seqNo := s.vault.nextSeq;
    var account :- Commit(c, s, env, seqNo, []);
    var deadline :- CheckedAdd(s.slot, REVEAL_TIMEOUT_SLOTS);
    var request := Request(kind, seqNo, user, env.randomness, account.seedSlot, deadline, 1, FirstOracle(env.oracle),
                           false, seq(32, _ => 0), handedIn);
    var vault :- CountRequest(s.vault, kind, c.fee);
    Ok(s.(vault := vault, rand := s.rand[env.randomness := account],
          requests := s.requests[seqNo := request], locks := s.locks[env.randomness := seqNo]))
  }

  /**
   The request and lock accounts are created by the instruction, so they must not exist; the vault's own key signs
   nothing.
   */
  function CanCreateRequest(c: Config, s: State, user: Key, env: CommitEnv): Status {
    Need(user != c.authority && s.vault.nextSeq !in s.requests && env.randomness !in s.locks, AccountConstraint)
  }

  function RequestCapture(c: Config, s: State, user: Key, liveMintCost: nat, env: CommitEnv): Result<State> {
    var _ :- CanCreateRequest(c, s, user, env);
    var _ :- CheckCanRequest(c, s.vault, s.pool);
    var tokens :- Debit(s.tokens, user, c.ratio);
    var s1 := s.(tokens := tokens, vaultTokens := s.vaultTokens + c.ratio);
    var s2 :- PayLamports(c, s1, user, liveMintCost);
    FinishRequest(c, s2, Capture, user, NO_HANDED_IN, env)
  }

  /** The asset moves from `from` to `to`; only its owner can move it. */
  function Transfer(owner: map<u32, Key>, index: u32, from: Key, to: Key): Result<map<u32, Key>> {
    if index in owner && owner[index] == from then Ok(owner[index := to]) else Err(CpiFailed)
  }

  function RequestReroll(c: Config, s: State, user: Key, index: u32, liveMintCost: nat, env: CommitEnv): Result<State> {
    var _ :- CanCreateRequest(c, s, user, env);
    var _ :- CheckCanRequest(c, s.vault, s.pool);
    var _ :- Need(index < c.n, IndexOutOfRange);
    var owner :- Transfer(s.owner, index, user, c.authority);
    var s1 := s.(owner := owner);
    var s2 :- PayLamports(c, s1, user, liveMintCost);
    FinishRequest(c, s2, Reroll, user, index, env)
  }

  // ----- the randomness of a pending request

  predicate IsRevealed(account: Randomness, seedSlot: u64) {
    account.seedSlot == seedSlot && account.seedSlot < account.revealSlot
  }

  /** The account of a pending request, still unrevealed for its latest commit. */
  function UnrevealedAccount(s: State, request: Request): Result<Randomness> {
    var _ :- Need(request.randomness in s.rand, InvalidRandomnessAccount);
    var account := s.rand[request.randomness];
    var _ :- Need(account.seedSlot == request.seedSlot, RandomnessMismatch);
    var _ :- Need(!IsRevealed(account, request.seedSlot), RandomnessAlreadyRevealed);
    Ok(account)
  }

  function ExistingRequest(s: State, seqNo: u64): Result<Request> {
    if seqNo in s.requests then Ok(s.requests[seqNo]) else Err(AccountConstraint)
  }

  /**
   The oracle network reveals: the account becomes `(seedSlot, revealSlot, value)`, which the vault then checks and
   records.
   */
  function Reveal(s: State, seqNo: u64, seedSlot: u64, revealSlot: u64, value: Digest): Result<State> {
    var request :- ExistingRequest(s, seqNo);
    var _ :- Need(request.randomness in s.locks, AccountConstraint);
    var _ :- Need(!request.revealed, RandomnessAlreadyRevealed);
    var account :- UnrevealedAccount(s, request);
    var account := account.(seedSlot := seedSlot, revealSlot := revealSlot, value := value);
    var _ :- Need(IsRevealed(account, request.seedSlot), RandomnessNotRevealed);
    Ok(s.(rand := s.rand[request.randomness := account],
          requests := s.requests[seqNo := request.(revealed := true, value := value)]))
  }

  /** The request that a re-commit names, when its current oracle has had its time and `env.oracle` is new to it. */
  function OverdueRequest(s: State, seqNo: u64, env: CommitEnv): (r: Result<Request>)
    ensures r.Ok? ==> seqNo in s.requests && r.value == s.requests[seqNo]
    ensures r.Ok? ==> r.value.randomness == env.randomness && r.value.commits <= MAX_RECOMMITS
  {
    var request :- ExistingRequest(s, seqNo);
    var _ :- Need(env.randomness == request.randomness, AccountConstraint);
    var _ :- Need(!request.revealed, RandomnessAlreadyRevealed);
    var _ :- Need(s.slot > request.deadlineSlot, DeadlineNotReached);
    var _ :- Need(request.commits <= MAX_RECOMMITS, RecommitsExhausted);
    var _ :- Need(env.oracle !in request.oracles[..request.commits], OracleReused);
    var _ :- UnrevealedAccount(s, request);
    Ok(request)
  }

  function Recommit(c: Config, s: State, seqNo: u64, env: CommitEnv): Result<State> {
    var request :- OverdueRequest(s, seqNo, env);
    var account :- Commit(c, s, env, seqNo, request.oracles[..request.commits]);
    var deadline :- CheckedAdd(s.slot, REVEAL_TIMEOUT_SLOTS);
    var recommits :- CheckedAdd(s.vault.totalRecommits, 1);
    var again := request.(seedSlot := account.seedSlot, deadlineSlot := deadline,
                          oracles := request.oracles[request.commits := env.oracle], commits := request.commits + 1);
    Ok(s.(vault := s.vault.(totalRecommits := recommits), rand := s.rand[request.randomness := account],
          requests := s.requests[seqNo := again]))
  }

  // ----- settling the head of the queue

  datatype MintArgs = MintArgs(leaf: LeafPreimage, proof: seq<Digest>)

  /**
   `asset` is the index of the asset account passed in. From the runtime come `liveMintCost`, the present cost of a
   mint, `mintSpent`, what the asset program charges, which is at most that cost, and `prefunded`, the lamports that
   someone sent to the asset's address in advance and that a first mint moves into the escrow.
   */
  datatype SettleArgs = SettleArgs(
    kind: Kind, seqNo: u64, asset: u32, mint: Option<MintArgs>, liveMintCost: nat, mintSpent: nat, prefunded: nat)

  /** The pool position that request `seqNo` draws when the pool holds `n` assets. */
  function Position(c: Config, value: Digest, seqNo: u64, n: u32): (r: Option<u32>)
    requires n > 0
    ensures r.Some? ==> r.value < n
  {
    Selection.Uniform(c.sha, Selection.RequestRandomness(c.sha, value, c.vaultKey, seqNo), n, c.budget)
  }

  /** Merge what the request may draw, pick, and put a hand-in back. */
  function Draw(c: Config, pool: PoolState, request: Request): Result<(PoolState, u32)> {
    var merged := Merge(pool, request.seqNo, MAX_MERGE_PER_IX);
    var _ :- merged.1;
    var ready := merged.0;
    var _ :- Need(FrontTag(ready).Some? ==> FrontTag(ready).value > request.seqNo, MergeBacklog);
    if 0 < |ready.slots| <= U32_MAX then
      match Position(c, request.value, request.seqNo, |ready.slots|)
      case None => Err(ComputeExceeded)
      case Some(pos) =>
        var (left, picked) :- SwapRemove(ready, pos);
        if request.kind == Reroll then
          var back :- Push(left, request.handedIn);
          Ok((back, picked))
        else
          Ok((left, picked))
    else
      Err(NoAssetAvailable)
  }

  /** Creates the picked asset for the user from its committed leaf, paid by the escrow of the request. */
  function MintAsset(c: Config, s: State, request: Request, picked: u32, args: SettleArgs): Result<State> {
    var mint :- if args.mint.Some? then Ok(args.mint.value) else Err(MintArgsMissing);
    var _ :- CheckLeaf(c.sha, Art(c), picked, mint.leaf, mint.proof);
    var _ :- Need(args.liveMintCost <= Balance(s.escrow, request.seqNo), MintEscrowShort);
    var _ :- Need(args.mintSpent <= args.liveMintCost, CpiFailed);
    var _ :- Need(picked !in s.owner, CpiFailed);
    var pool :- MarkMinted(s.pool, picked);
    var _ :- Need(s.vault.mintedCount < U32_MAX, MathOverflow);
    var left := Balance(s.escrow, request.seqNo) + args.prefunded - args.mintSpent;
    Ok(s.(pool := pool, owner := s.owner[picked := request.user], escrow := s.escrow[request.seqNo := left],
          vault := s.vault.(mintedCount := s.vault.mintedCount + 1)))
  }

  /** Gives the picked asset to the user: an existing one is transferred, a new one is minted. */
  function HandOver(c: Config, s: State, request: Request, picked: u32, args: SettleArgs): Result<State> {
    if picked in s.pool.minted then
      var owner :- Transfer(s.owner, picked, c.authority, request.user);
      Ok(s.(owner := owner))
    else
      MintAsset(c, s, request, picked, args)
  }

  /** Pays out what is left in the mint escrow and closes the request and its lock. */
  function CloseRequest(s: State, request: Request): State {
    s.(lamports := Credit(s.lamports, request.user, Balance(s.escrow, request.seqNo)),
       escrow := s.escrow - {request.seqNo},
       requests := s.requests - {request.seqNo},
       locks := s.locks - {request.randomness})
  }

  function CountSettled(v: Vault, request: Request): Result<Vault> {
    var head :- CheckedAdd(request.seqNo, 1);
    var outside :- CheckedAdd(v.assetsOutside, 1);
    var v := v.(nextSettleSeq := head, assetsOutside := outside);
    if request.kind == Capture then
      var pending :- CheckedSub(v.pendingCaptures, 1, MathOverflow);
      var total :- CheckedAdd(v.totalCaptures, 1);
      Ok(v.(pendingCaptures := pending, totalCaptures := total))
    else
      var pending :- CheckedSub(v.pendingRerolls, 1, MathOverflow);
      var total :- CheckedAdd(v.totalRerolls, 1);
      Ok(v.(pendingRerolls := pending, totalRerolls := total))
  }

  /** The revealed head request that a settle call names. */
  function SettleHead(s: State, args: SettleArgs): Result<Request> {
    var request :- ExistingRequest(s, args.seqNo);
    var _ :- Need(request.randomness in s.locks, AccountConstraint);
    var _ :- Need(request.kind == args.kind, WrongRequestKind);
    var _ :- Need(request.seqNo == s.vault.nextSettleSeq, OutOfOrder);
    var _ :- Need(s.locks[request.randomness] == request.seqNo, RandomnessMismatch);
    var _ :- Need(request.revealed, RandomnessNotRevealed);
    Ok(request)
  }

  function Settle(c: Config, s: State, args: SettleArgs): Result<State> {
    var request :- SettleHead(s, args);
    var (pool, picked) :- Draw(c, s.pool, request);
    var _ :- Need(args.asset == picked, WrongAsset);
    var given :- HandOver(c, s.(pool := pool), request, picked, args);
    var vault :- CountSettled(given.vault, request);
    Ok(CloseRequest(given, request).(vault := vault))
  }

  // ----- expiring the head of the queue

  /** The head request named by an expire call, when its time is up. */
  function ExpirableHead(s: State, seqNo: u64): Result<Request> {
    var request :- ExistingRequest(s, seqNo);
    var _ :- Need(request.randomness in s.locks, AccountConstraint);
    var _ :- Need(request.seqNo == s.vault.nextSettleSeq, OutOfOrder);
    var _ :- Need(!request.revealed, RandomnessAlreadyRevealed);
    var _ :- Need(request.randomness in s.rand, InvalidRandomnessAccount);
    var _ :- Need(!IsRevealed(s.rand[request.randomness], request.seedSlot), RandomnessAlreadyRevealed);
    var _ :- Need(request.commits > MAX_RECOMMITS, RecommitsRemaining);
    var earliest :- CheckedAdd(request.deadlineSlot, EXPIRE_GRACE_SLOTS);
    var _ :- Need(s.slot > earliest, ExpiryNotReached);
    Ok(request)
  }

  function CountExpired(v: Vault, request: Request): Result<Vault> {
    var head :- CheckedAdd(request.seqNo, 1);
    var total :- CheckedAdd(v.totalExpired, 1);
    var v := v.(nextSettleSeq := head, totalExpired := total);
    if request.kind == Capture then
      var pending :- CheckedSub(v.pendingCaptures, 1, MathOverflow);
      Ok(v.(pendingCaptures := pending))
    else
      var pending :- CheckedSub(v.pendingRerolls, 1, MathOverflow);
      var outside :- CheckedAdd(v.assetsOutside, 1);
      Ok(v.(pendingRerolls := pending, assetsOutside := outside))
  }

  /** Exactly `ratio` tokens from the vault to `user`. */
  function PayOut(c: Config, s: State, user: Key): Result<State> {
    if c.ratio <= s.vaultTokens then
      Ok(s.(vaultTokens := s.vaultTokens - c.ratio, tokens := Credit(s.tokens, user, c.ratio)))
    else
      Err(CpiFailed)
  }

  /** Gives the principal back: the tokens of a capture, the hand-in of a re-roll. */
  function ReturnPrincipal(c: Config, s: State, request: Request, asset: u32): Result<State> {
    if request.kind == Capture then
      PayOut(c, s, request.user)
    else
      var _ :- Need(asset == request.handedIn, WrongAsset);
      var owner :- Transfer(s.owner, asset, c.authority, request.user);
      Ok(s.(owner := owner))
  }

  function ExpireOne(c: Config, s: State, seqNo: u64, asset: u32): Result<State> {
    var request :- ExpirableHead(s, seqNo);
    var returned :- ReturnPrincipal(c, s, request, asset);
    var vault :- CountExpired(returned.vault, request);
    Ok(CloseRequest(returned, request).(vault := vault))
  }

  /**
   The accounts passed for one request of a batch: the request, its user, its randomness account, the lock of a
   randomness account, a token account of `tokenOwner`, the mint escrow of a sequence number, and an asset.
   */
  datatype Group = Group(seqNo: u64, user: Key, randomness: Key, lock: Key, tokenOwner: Key, escrow: u64, asset: u32)

  /** All accounts of the group belong to the request it names. */
  predicate AccountsFit(s: State, g: Group) {
    && g.seqNo in s.requests
    && var r := s.requests[g.seqNo];
    && g.user == r.user && g.randomness == r.randomness
    && g.lock == r.randomness && r.randomness in s.locks
    && g.tokenOwner == r.user && g.escrow == g.seqNo
  }

  /** Each group must name the head that the groups before it leave. */
  function ExpireGroups(c: Config, s: State, groups: seq<Group>): Result<State>
    decreases |groups|
  {
    if groups == [] then Ok(s)
    else
      var g := groups[0];
      var _ :- Need(g.seqNo == s.vault.nextSettleSeq && AccountsFit(s, g), ExpireBatchAccountMismatch);
      var next :- ExpireOne(c, s, g.seqNo, g.asset);
      ExpireGroups(c, next, groups[1..])
  }

  function ExpireBatch(c: Config, s: State, count: nat, groups: seq<Group>): Result<State> {
    var _ :- Need(1 <= count <= MAX_EXPIRE_PER_CALL, ExpireBatchInvalid);
    var _ :- Need(|groups| == count, ExpireBatchInvalid);
    ExpireGroups(c, s, groups)
  }

  // ----- leaving the vault, and the merge crank

  function Unwrap(c: Config, s: State, user: Key, index: u32): Result<State> {
    var _ :- Need(user != c.authority, AccountConstraint);
    var _ :- Need(index < c.n, IndexOutOfRange);
    var owner :- Transfer(s.owner, index, user, c.authority);
    var s1 := s.(owner := owner);
    var s2 :- PayOut(c, s1, user);
    var pool :- IncomingPush(s2.pool, index, s2.vault.nextSeq);
    var outside :- CheckedSub(s2.vault.assetsOutside, 1, AssetAccountingBroken);
    var unwraps :- CheckedAdd(s2.vault.totalUnwraps, 1);
    Ok(s2.(pool := pool, vault := s2.vault.(assetsOutside := outside, totalUnwraps := unwraps)))
  }

  function MergeIncoming(s: State, max: u32): Result<State> {
    var (pool, r) := Merge(s.pool, s.vault.nextSettleSeq, Min(max, MAX_MERGE_PER_CRANK));
    var _ :- r;
    Ok(s.(pool := pool))
  }

  /** What the asset program records of the collection. */
  datatype Collection = Collection(ownedByCore: bool, updateAuthority: Key, numMinted: u32, currentSize: u32)

  function OpenVault(c: Config, s: State, collection: Collection, graduated: bool): Result<State> {
    var _ :- Need(!s.vault.open, VaultAlreadyOpen);
    var _ :- Need(collection.ownedByCore && collection.updateAuthority == c.authority, AssetStateMismatch);
    var _ :- Need(collection.numMinted == collection.currentSize == s.vault.mintedCount, AssetAccountingBroken);
    var _ :- Need(graduated, GraduationNotVerified);
    var _ :- Need(s.pool.cap == c.n, InvalidPoolAccount);
    Ok(s.(vault := s.vault.(open := true, openedAtSlot := s.slot)))
  }

  // ----- steps

  /** Everything that can happen: the vault's instructions, and what others do to the same accounts. */
  datatype Step =
    | DoOpen(collection: Collection, graduated: bool)
    | DoCapture(user: Key, liveMintCost: nat, env: CommitEnv)
    | DoReroll(user: Key, index: u32, liveMintCost: nat, env: CommitEnv)
    | DoReveal(seqNo: u64, seedSlot: u64, revealSlot: u64, value: Digest)
    | DoRecommit(seqNo: u64, env: CommitEnv)
    | DoSettle(args: SettleArgs)
    | DoExpire(seqNo: u64, asset: u32)
    | DoExpireBatch(count: nat, groups: seq<Group>)
    | DoUnwrap(user: Key, index: u32)
    | DoMerge(max: u32)
    | DoInitRandomness(key: Key, account: Randomness)
      // outside the vault program
    | Tick(slots: nat)
    | MoveAsset(index: u32, from: Key, to: Key)
    | BurnAsset(index: u32, from: Key)
    | Donate(amount: nat)
    | Prefund(seqNo: u64, amount: nat)
    | OtherBalances(tokens: map<Key, nat>, lamports: map<Key, nat>)
    | OtherRandomness(key: Key, account: Randomness)

  /** A new randomness account under the vault's randomness authority. */
  function InitRandomness(c: Config, s: State, key: Key, account: Randomness): Result<State> {
    var _ :- Need(key !in s.rand && account.queue == c.queue, CpiFailed);
    var _ :- Need(account.authority == c.randomnessAuthority, RandomnessAuthorityMismatch);
    Ok(s.(rand := s.rand[key := account]))
  }

  /** The steps that are not instructions of the vault. */
  predicate IsOutside(step: Step) {
    || step.Tick? || step.MoveAsset? || step.BurnAsset?
    || step.Donate? || step.Prefund? || step.OtherBalances? || step.OtherRandomness?
  }

  /** What holders, donors and other programs can do. Nobody else can act for the vault's two authorities. */
  function Outside(c: Config, s: State, step: Step): Result<State>
    requires IsOutside(step)
  {
    match step
    case Tick(slots) => if s.slot + slots <= U64_MAX then Ok(s.(slot := s.slot + slots)) else Err(CpiFailed)
    case MoveAsset(index, from, to) =>
      var _ :- Need(from != c.authority, CpiFailed);
      var owner :- Transfer(s.owner, index, from, to);
      Ok(s.(owner := owner))
    case BurnAsset(index, from) =>
      var _ :- Need(from != c.authority, CpiFailed);
      var _ :- Need(index in s.owner && s.owner[index] == from, CpiFailed);
      Ok(s.(owner := s.owner - {index}))
    case Donate(amount) => Ok(s.(vaultTokens := s.vaultTokens + amount))
    case Prefund(seqNo, amount) => Ok(s.(escrow := Credit(s.escrow, seqNo, amount)))
    case OtherBalances(tokens, lamports) => Ok(s.(tokens := tokens, lamports := lamports))
    case OtherRandomness(key, account) =>
      var _ :- Need(account.authority != c.randomnessAuthority, CpiFailed);
      var _ :- Need(key in s.rand ==> s.rand[key].authority != c.randomnessAuthority, CpiFailed);
      Ok(s.(rand := s.rand[key := account]))
  }

  /** A step without the end-of-instruction check. */
  function Core(c: Config, s: State, step: Step): Result<State> {
    match step
    case DoOpen(collection, graduated) => OpenVault(c, s, collection, graduated)
    case DoCapture(user, liveMintCost, env) => RequestCapture(c, s, user, liveMintCost, env)
    case DoReroll(user, index, liveMintCost, env) => RequestReroll(c, s, user, index, liveMintCost, env)
    case DoReveal(seqNo, seedSlot, revealSlot, value) => Reveal(s, seqNo, seedSlot, revealSlot, value)
    case DoRecommit(seqNo, env) => Recommit(c, s, seqNo, env)
    case DoSettle(args) => Settle(c, s, args)
    case DoExpire(seqNo, asset) => ExpireOne(c, s, seqNo, asset)
    case DoExpireBatch(count, groups) => ExpireBatch(c, s, count, groups)
    case DoUnwrap(user, index) => Unwrap(c, s, user, index)
    case DoMerge(max) => MergeIncoming(s, max)
    case DoInitRandomness(key, account) => InitRandomness(c, s, key, account)
    case _ => Outside(c, s, step)
  }

  /** The instructions that end with the invariant check. */
  predicate EndsWithCheck(step: Step) {
    || step.DoOpen? || step.DoCapture? || step.DoReroll?
    || step.DoSettle? || step.DoExpire? || step.DoExpireBatch? || step.DoUnwrap?
  }

  function Apply(c: Config, s: State, step: Step): Result<State> {
    var next :- Core(c, s, step);
    if EndsWithCheck(step) then Checked(c, next) else Ok(next)
  }

  /** A failed transaction changes nothing. */
  function Next(c: Config, s: State, step: Step): State {
    match Apply(c, s, step)
    case Ok(next) => next
    case Err(_) => s
  }

  /** The state after a run. */
  function Exec(c: Config, s: State, steps: seq<Step>): State
    decreases |steps|
  {
    if steps == [] then s else Exec(c, Next(c, s, steps[0]), steps[1..])
  }

  /** The configurations a launch can produce. */
  ghost predicate ConfigOk(c: Config) {
    0 < c.n <= 10_000 && 0 < c.ratio && Times(c.ratio, c.n) <= 1_000_000_000_000_000_000
  }

  const NEW_VAULT: Vault := Vault(false, 0, 0, 0, 0, 0, 0, 0, 0, 0, 0, 0, 0, 0)

  /** The state `init_vault` leaves: a full pool, an empty queue, nothing minted, nothing owed. */
  ghost predicate Initial(c: Config, s: State) {
    && s.vault == NEW_VAULT
    && s.pool == PoolState(c.n, seq(c.n, i requires 0 <= i < c.n => i), [], {})
    && s.requests == map[] && s.locks == map[] && s.owner == map[] && s.vaultTokens == 0
    && forall k :: k in s.rand ==> s.rand[k].authority != c.randomnessAuthority
  }
}
