/**
 The instruction handlers as they run: accounts changed in place, step by step, on the byte buffer
 of the pool. Each handler is proved to compute its step of `Vault`; a failed instruction is rolled back.
 */
module Handlers {
  import opened Base
  import opened Pool
  import opened PoolLayout
  import opened PoolBuffer
  import opened Vault
  import History
  import Invariant
  import Leaf
  import LittleEndian
  import Oracle
  import Preservation
  import Selection

  /** The vault account. */
  class VaultAccount {
    var open: bool
    var mintedCount: u32
    var assetsOutside: u64
    var pendingCaptures: u64
    var pendingRerolls: u64
    var nextSeq: u64
    var nextSettleSeq: u64
    var openedAtSlot: u64
    var totalFeeLamports: u64
    var totalCaptures: u64
    var totalRerolls: u64
    var totalUnwraps: u64
    var totalRecommits: u64
    var totalExpired: u64

    constructor (v: Vault)
      ensures Value() == v
    {
      open, mintedCount, openedAtSlot, totalFeeLamports := v.open, v.mintedCount, v.openedAtSlot, v.totalFeeLamports;
      assetsOutside, pendingCaptures, pendingRerolls := v.assetsOutside, v.pendingCaptures, v.pendingRerolls;
      nextSeq, nextSettleSeq := v.nextSeq, v.nextSettleSeq;
      totalCaptures, totalRerolls := v.totalCaptures, v.totalRerolls;
      totalUnwraps, totalRecommits, totalExpired := v.totalUnwraps, v.totalRecommits, v.totalExpired;
    }

    function Value(): Vault
      reads this
    {
      Vault(open, mintedCount, assetsOutside, pendingCaptures, pendingRerolls, nextSeq, nextSettleSeq, openedAtSlot,
            totalFeeLamports, totalCaptures, totalRerolls, totalUnwraps, totalRecommits, totalExpired)
    }

    method Set(v: Vault)
      modifies this
      ensures Value() == v
    {
      open, mintedCount, openedAtSlot, totalFeeLamports := v.open, v.mintedCount, v.openedAtSlot, v.totalFeeLamports;
      assetsOutside, pendingCaptures, pendingRerolls := v.assetsOutside, v.pendingCaptures, v.pendingRerolls;
      nextSeq, nextSettleSeq := v.nextSeq, v.nextSettleSeq;
      totalCaptures, totalRerolls := v.totalCaptures, v.totalRerolls;
      totalUnwraps, totalRecommits, totalExpired := v.totalUnwraps, v.totalRecommits, v.totalExpired;
    }

    /** The counters of a new request. */
    method CountNew(kind: Kind, fee: u64) returns (r: Status)
      modifies this
      ensures match CountRequest(old(Value()), kind, fee)
              case Ok(v) => r == Ok(()) && Value() == v
              case Err(e) => r == Err(e)
    {
      nextSeq :- CheckedAdd(nextSeq, 1);
      totalFeeLamports :- CheckedAdd(totalFeeLamports, fee);
      if kind == Capture {
        pendingCaptures :- CheckedAdd(pendingCaptures, 1);
      } else {
        pendingRerolls :- CheckedAdd(pendingRerolls, 1);
        assetsOutside :- CheckedSub(assetsOutside, 1, AssetAccountingBroken);
      }
      r := Ok(());
    }

    /** The counters once the head is settled. */
    method CountSettlement(request: Request) returns (r: Status)
      modifies this
      ensures match CountSettled(old(Value()), request)
              case Ok(v) => r == Ok(()) && Value() == v
              case Err(e) => r == Err(e)
    {
      nextSettleSeq :- CheckedAdd(request.seqNo, 1);
      assetsOutside :- CheckedAdd(assetsOutside, 1);
      if request.kind == Capture {
        pendingCaptures :- CheckedSub(pendingCaptures, 1, MathOverflow);
        totalCaptures :- CheckedAdd(totalCaptures, 1);
      } else {
        pendingRerolls :- CheckedSub(pendingRerolls, 1, MathOverflow);
        totalRerolls :- CheckedAdd(totalRerolls, 1);
      }
      r := Ok(());
    }

    /** The counters once an asset has come back. */
    method CountUnwrap() returns (r: Status)
      modifies this
      ensures var v := old(Value());
              if v.assetsOutside == 0 then r == Err(AssetAccountingBroken)
              else if v.totalUnwraps == U64_MAX then r == Err(MathOverflow)
              else
                && r == Ok(())
                && Value() == v.(assetsOutside := v.assetsOutside - 1, totalUnwraps := v.totalUnwraps + 1)
    {
      assetsOutside :- CheckedSub(assetsOutside, 1, AssetAccountingBroken);
      totalUnwraps :- CheckedAdd(totalUnwraps, 1);
      r := Ok(());
    }

    /** The counters once the head is expired. */
    method CountExpiry(request: Request) returns (r: Status)
      modifies this
      ensures match CountExpired(old(Value()), request)
              case Ok(v) => r == Ok(()) && Value() == v
              case Err(e) => r == Err(e)
    {
      nextSettleSeq :- CheckedAdd(request.seqNo, 1);
      totalExpired :- CheckedAdd(totalExpired, 1);
      if request.kind == Capture {
        pendingCaptures :- CheckedSub(pendingCaptures, 1, MathOverflow);
      } else {
        pendingRerolls :- CheckedSub(pendingRerolls, 1, MathOverflow);
        assetsOutside :- CheckedAdd(assetsOutside, 1);
      }
      r := Ok(());
    }
  }

  const MAX_NAME_LEN: nat := 32

  /** A well-formed pool buffer of the vault `key`. */
  ghost predicate BelongsTo(b: Bytes, key: Digest) {
    Represents(b) && b[8..40] == key
  }

  /** The buffer operations leave the vault address alone. */
  lemma StillBelongs(b: Bytes, b': Bytes, key: Digest)
    requires BelongsTo(b, key) && Represents(b') && LittleEndian.Agree(b, b', 0, 44)
    ensures BelongsTo(b', key)
  {
    assert b'[8..40] == b[8..40];
  }

  /** Copies of every account, taken before an instruction runs. */
  datatype Snapshot = Snapshot(
    vault: Vault, pool: Bytes, requests: map<u64, Request>, locks: map<Key, u64>, rand: map<Key, Randomness>,
    owner: map<u32, Key>, vaultTokens: nat, tokens: map<Key, nat>, lamports: map<Key, nat>, escrow: map<u64, nat>)

  /** All accounts of one vault. */
  class Accounts {
    const c: Config
    const pool: array<u8>
    const vault: VaultAccount
    var requests: map<u64, Request>
    var locks: map<Key, u64>
    var rand: map<Key, Randomness>
    var owner: map<u32, Key>
    var vaultTokens: nat
    var tokens: map<Key, nat>
    var lamports: map<Key, nat>
    var escrow: map<u64, nat>
    var slot: u64

    ghost predicate Valid()
      reads pool
    {
      BelongsTo(pool[..], c.vaultKey)
    }

    ghost function PoolNow(): PoolState
      reads pool
      requires Valid()
    {
      Meaning(pool[..])
    }

    /** The accounts as a state, with `v` standing for the vault account. */
    ghost function ViewWith(v: VaultAccount): State
      reads this, pool, v
      requires Valid()
    {
      State(v.Value(), PoolNow(), requests, locks, rand, owner, vaultTokens, tokens, lamports, escrow, slot)
    }

    ghost function View(): State
      reads this, pool, vault
      requires Valid()
    {
      ViewWith(vault)
    }

    /** The accounts of a new vault, around a pool account that has just been initialised. */
    constructor (c: Config, pool: array<u8>, rand: map<Key, Randomness>, tokens: map<Key, nat>, lamports: map<Key, nat>,
                 escrow: map<u64, nat>, slot: u64)
      requires BelongsTo(pool[..], c.vaultKey) && Meaning(pool[..]) == FreshPool(c.n)
      requires forall k :: k in rand ==> rand[k].authority != c.randomnessAuthority
      ensures this.c == c && this.pool == pool && fresh(vault)
      ensures Valid() && Initial(c, View())
    {
      hide Represents, Meaning, BelongsTo;
      this.c, this.pool := c, pool;
      this.vault := new VaultAccount(NEW_VAULT);
      this.requests, this.locks, this.rand, this.owner := map[], map[], rand, map[];
      this.vaultTokens, this.tokens, this.lamports, this.escrow, this.slot := 0, tokens, lamports, escrow, slot;
    }

    /**
     `init_vault`. The runtime hands over a zeroed pool account, of which the program looks at the first eight bytes;
     `created` says whether the asset program creates the collection.
     */
    static method HandleInitVault(c: Config, name: Bytes, uri: Bytes, created: bool, pool: array<u8>,
                                  rand: map<Key, Randomness>, tokens: map<Key, nat>, lamports: map<Key, nat>,
                                    escrow: map<u64, nat>, slot: u64)
      returns (r: Result<Accounts>)
      requires c.n <= MAX_CAPACITY && forall k :: HEADER <= k < pool.Length ==> pool[k] == 0
      requires forall k :: k in rand ==> rand[k].authority != c.randomnessAuthority
      modifies pool
      ensures r.Ok? ==>
                && fresh(r.value) && r.value.c == c && r.value.pool == pool
                && r.value.Valid() && Initial(c, r.value.View())
      ensures r.Ok? <==> |name| <= 32 && |uri| <= 200 && Leaf.IsContentAddressed(uri)
                         && c.queue != 0 && pool.Length == 64 + 16 * c.n + (c.n + 7) / 8
                            && old(forall k :: 0 <= k < 8 ==> pool[k] == 0)
                         && created
      ensures r.Err? ==> r.error ==
                           if |name| > 32 || |uri| > 200 then MetadataTooLong
                           else if !Leaf.IsContentAddressed(uri) then UriNotContentAddressed
                           else if c.queue == 0 then WrongQueue
                           else if pool.Length != 64 + 16 * c.n + (c.n + 7) / 8
                                   || old(exists k :: 0 <= k < 8 && pool[k] != 0)
                             then InvalidPoolAccount
                           else CpiFailed
    {
      hide Represents, Meaning, Leaf.IsContentAddressed;
      var _ :- Need(|name| <= MAX_NAME_LEN, MetadataTooLong);
      var _ :- Need(|uri| <= Leaf.MAX_URI_LEN, MetadataTooLong);
      var _ :- Need(Leaf.IsContentAddressed(uri), UriNotContentAddressed);
      var _ :- Need(c.queue != DEFAULT_KEY, WrongQueue);
      var initialised := Init(pool, c.vaultKey, c.n);
      var _ :- initialised;
      var _ :- Need(created, CpiFailed);
      assert pool[..][8..40] == c.vaultKey;
      var accounts := new Accounts(c, pool, rand, tokens, lamports, escrow, slot);
      r := Ok(accounts);
    }

    // ----- reading the pool

    method LoadPool() returns (p: PoolView)
      requires Valid()
      ensures fresh(p) && p.d == pool && p.Valid() && p.cap == PoolNow().cap
    {
      var r := PoolView.Load(pool, c.vaultKey);
      p := r.value;
    }

    method CheckInvariants() returns (r: Status)
      requires Valid()
      ensures r == Check(c, vault.Value(), PoolNow(), vaultTokens)
    {
      var p := LoadPool();
      var len := p.PoolLen();
      var queued := p.IncomingLen();
      var required :- RequiredVaultTokens(vault.Value(), c.ratio);
      var _ :- Need(required <= vaultTokens, InsolventVault);
      var a: u64 := len + queued;
      var b :- CheckedAdd(a, vault.pendingRerolls);
      var accounted :- CheckedAdd(b, vault.assetsOutside);
      var _ :- Need(accounted == c.n, AssetAccountingBroken);
      var _ :- Need(p.cap == c.n, AssetAccountingBroken);
      var _ :- Need(vault.mintedCount <= c.n, AssetAccountingBroken);
      var heldOrOut: u64 := vault.assetsOutside + vault.pendingRerolls;
      r := Need(heldOrOut <= vault.mintedCount, AssetAccountingBroken);
    }

    /** The bitmap agrees with the counter: it marks as many indices as the vault has minted. */
    method MintedPopcount() returns (n: nat)
      requires Valid() && Invariant.Inv(c, View())
      ensures n == vault.mintedCount
    {
      hide Meaning, Represents, BelongsTo, Invariant.Inv;
      History.MintedCounted(c, View());
      var p := LoadPool();
      n := p.MintedPopcount();
    }

    method CanRequest() returns (r: Status)
      requires Valid()
      ensures r == CheckCanRequest(c, vault.Value(), PoolNow())
      ensures var left := |PoolNow().slots| + |PoolNow().queue| - vault.pendingCaptures - vault.pendingRerolls - 1;
              r.Ok? ==> vault.open && left >= 5 && 50 * left >= c.n
    {
      var p := LoadPool();
      var len := p.PoolLen();
      var queued := p.IncomingLen();
      var _ :- Need(vault.open, VaultNotOpen);
      var pending :- CheckedAdd(vault.pendingCaptures, vault.pendingRerolls);
      var free := Max(len + queued - pending, 0);
      r := Need(free > PoolFloor(c.n), NoAssetAvailable);
    }

    // ----- requesting

    /** The oracle checks of a commit, with the key list actually scanned. */
    method CheckOracle(env: CommitEnv, seqNo: u64, used: seq<Key>) returns (r: Status)
      ensures r == Oracle.CommitOracle(c.sha, env.queue, c.vaultKey, seqNo, used, env.proofs, env.heartbeats, env.now,
                                       env.oracle)
    {
      var chosen := Oracle.SelectOracleIn(c.sha, env.queue, c.vaultKey, seqNo, used,
                                          Oracle.StaleKeys(env.proofs, env.heartbeats, env.now));
      var key :- chosen;
      var _ :- Need(env.oracle == key, WrongOracle);
      var _ :- Need(env.oracle in env.heartbeats, WrongOracle);
      r := Need(Oracle.HeartbeatIsFresh(env.heartbeats[env.oracle], env.now), OracleStale);
    }

    /** Commits the randomness account and returns its new seed slot. */
    method CommitForRequest(env: CommitEnv, seqNo: u64, used: seq<Key>) returns (r: Result<u64>)
      requires Valid()
      modifies this`rand
      ensures match Commit(c, old(View()), env, seqNo, used)
              case Ok(account) => r == Ok(account.seedSlot) && rand == old(rand)[env.randomness := account]
              case Err(e) => r == Err(e)
    {
      var _ :- Need(env.queueKey == c.queue, WrongQueue);
      var oracleOk := CheckOracle(env, seqNo, used);
      var _ :- oracleOk;
      var _ :- Need(env.randomness in rand, InvalidRandomnessAccount);
      var before := rand[env.randomness];
      var _ :- Need(before.authority == c.randomnessAuthority, RandomnessAuthorityMismatch);
      var _ :- Need(before.queue == c.queue, WrongQueue);
      var after := before.(seedSlot := env.seedSlot, revealSlot := env.revealSlot, value := env.value);
      rand := rand[env.randomness := after];
      var _ :- Need(after.seedSlot + 1 == slot, RandomnessNotFresh);
      var _ :- Need(after.revealSlot <= after.seedSlot, RandomnessNotFresh);
      r := Ok(after.seedSlot);
    }

    method TakeLamports(user: Key, liveMintCost: nat) returns (r: Status)
      requires Valid()
      modifies this`lamports, this`escrow
      ensures match PayLamports(c, old(View()), user, liveMintCost)
              case Ok(s) => r == Ok(()) && View() == s
              case Err(e) => r == Err(e)
    {
      lamports :- Debit(lamports, user, c.fee);
      lamports := Credit(lamports, c.feeRecipient, c.fee);
      var _ :- Need(liveMintCost <= MINT_ESCROW_LAMPORTS, MintCostConstantStale);
      lamports :- Debit(lamports, user, MINT_ESCROW_LAMPORTS);
      escrow := Credit(escrow, vault.nextSeq, MINT_ESCROW_LAMPORTS);
      r := Ok(());
    }

    method CreateRequest(kind: Kind, user: Key, handedIn: u32, env: CommitEnv) returns (r: Status)
      requires Valid()
      modifies this`rand, this`requests, this`locks, vault
      ensures match FinishRequest(c, old(View()), kind, user, handedIn, env)
              case Ok(s) => r == Ok(()) && View() == s
              case Err(e) => r == Err(e)
    {
      hide Commit, CountRequest, Meaning, Represents, BelongsTo;
      var seqNo := vault.nextSeq;
      var committed := CommitForRequest(env, seqNo, []);
      var seedSlot :- committed;
      var deadline :- CheckedAdd(slot, REVEAL_TIMEOUT_SLOTS);
      var request := Request(kind, seqNo, user, env.randomness, seedSlot, deadline, 1, FirstOracle(env.oracle), false,
                             seq(32, _ => 0), handedIn);
      var counted := vault.CountNew(kind, c.fee);
      var _ :- counted;
      requests := requests[seqNo := request];
      locks := locks[env.randomness := seqNo];
      r := Ok(());
    }

    method HandleRequestCapture(user: Key, liveMintCost: nat, env: CommitEnv) returns (r: Status)
      requires Valid()
      modifies this, vault
      ensures slot == old(slot)
      ensures match Apply(c, old(View()), DoCapture(user, liveMintCost, env))
              case Ok(s) => r == Ok(()) && View() == s
              case Err(e) => r == Err(e)
    {
      hide BelongsTo, Check, CheckCanRequest, PayLamports, FinishRequest, Meaning, Represents, PoolFloor, RequestReroll,
           Reveal, Recommit, Settle, ExpireBatch, Unwrap, MergeIncoming, OpenVault, InitRandomness, Outside, ExpireOne,
           Transfer;
      var _ :- Need(user != c.authority && vault.nextSeq !in requests && env.randomness !in locks, AccountConstraint);
      var can := CanRequest();
      var _ :- can;
      tokens :- Debit(tokens, user, c.ratio);
      vaultTokens := vaultTokens + c.ratio;
      var paid := TakeLamports(user, liveMintCost);
      var _ :- paid;
      var made := CreateRequest(Capture, user, NO_HANDED_IN, env);
      var _ :- made;
      var sound := CheckInvariants();
      var _ :- sound;
      r := Ok(());
    }

    method HandleRequestReroll(user: Key, index: u32, liveMintCost: nat, env: CommitEnv) returns (r: Status)
      requires Valid()
      modifies this, vault
      ensures slot == old(slot)
      ensures match Apply(c, old(View()), DoReroll(user, index, liveMintCost, env))
              case Ok(s) => r == Ok(()) && View() == s
              case Err(e) => r == Err(e)
    {
      hide Check, CheckCanRequest, PayLamports, FinishRequest, Meaning, Represents, RequestCapture, Reveal, Recommit,
           Settle, ExpireBatch, Unwrap, MergeIncoming, OpenVault, InitRandomness, Outside, ExpireOne, Transfer,
           PoolFloor;
      var _ :- Need(user != c.authority && vault.nextSeq !in requests && env.randomness !in locks, AccountConstraint);
      var can := CanRequest();
      var _ :- can;
      var _ :- Need(index < c.n, IndexOutOfRange);
      owner :- Transfer(owner, index, user, c.authority);
      var paid := TakeLamports(user, liveMintCost);
      var _ :- paid;
      var made := CreateRequest(Reroll, user, index, env);
      var _ :- made;
      var sound := CheckInvariants();
      var _ :- sound;
      r := Ok(());
    }

    // ----- randomness

    /** The account of a pending request, if it still waits for its value. */
    method ReadUnrevealed(request: Request) returns (r: Result<Randomness>)
      requires Valid()
      ensures r == UnrevealedAccount(View(), request)
    {
      var _ :- Need(request.randomness in rand, InvalidRandomnessAccount);
      var account := rand[request.randomness];
      var _ :- Need(account.seedSlot == request.seedSlot, RandomnessMismatch);
      var _ :- Need(!IsRevealed(account, request.seedSlot), RandomnessAlreadyRevealed);
      r := Ok(account);
    }

    method HandleReveal(seqNo: u64, seedSlot: u64, revealSlot: u64, value: Digest) returns (r: Status)
      requires Valid()
      modifies this`rand, this`requests
      ensures match Apply(c, old(View()), DoReveal(seqNo, seedSlot, revealSlot, value))
              case Ok(s) => r == Ok(()) && View() == s
              case Err(e) => r == Err(e)
    {
      hide Meaning, Represents, RequestCapture, RequestReroll, Recommit, Settle, ExpireBatch, Unwrap, MergeIncoming,
           OpenVault, InitRandomness, Outside, ExpireOne, BelongsTo;
      var _ :- Need(seqNo in requests, AccountConstraint);
      var request := requests[seqNo];
      var _ :- Need(request.randomness in locks, AccountConstraint);
      var _ :- Need(!request.revealed, RandomnessAlreadyRevealed);
      var waiting := ReadUnrevealed(request);
      var before :- waiting;
      var after := before.(seedSlot := seedSlot, revealSlot := revealSlot, value := value);
      rand := rand[request.randomness := after];
      var _ :- Need(IsRevealed(after, request.seedSlot), RandomnessNotRevealed);
      requests := requests[seqNo := request.(revealed := true, value := after.value)];
      r := Ok(());
    }

    /** The checks of a re-commit before the oracle network is called. */
    method CheckOverdue(seqNo: u64, env: CommitEnv) returns (r: Result<Request>)
      requires Valid()
      ensures r == OverdueRequest(View(), seqNo, env)
    {
      hide Meaning, Represents, BelongsTo, UnrevealedAccount;
      var _ :- Need(seqNo in requests, AccountConstraint);
      var request := requests[seqNo];
      var _ :- Need(env.randomness == request.randomness, AccountConstraint);
      var _ :- Need(!request.revealed, RandomnessAlreadyRevealed);
      var _ :- Need(slot > request.deadlineSlot, DeadlineNotReached);
      var _ :- Need(request.commits <= MAX_RECOMMITS, RecommitsExhausted);
      var _ :- Need(env.oracle !in request.oracles[..request.commits], OracleReused);
      var waiting := ReadUnrevealed(request);
      var _ :- waiting;
      r := Ok(request);
    }

    method HandleRecommit(seqNo: u64, env: CommitEnv) returns (r: Status)
      requires Valid()
      modifies this`rand, this`requests, vault
      ensures match Apply(c, old(View()), DoRecommit(seqNo, env))
              case Ok(s) => r == Ok(()) && View() == s
              case Err(e) => r == Err(e)
    {
      hide Meaning, Represents, Commit, RequestCapture, RequestReroll, Reveal, Settle, ExpireBatch, Unwrap,
           MergeIncoming, OpenVault, InitRandomness, Outside, ExpireOne, OverdueRequest, BelongsTo;
      var overdue := CheckOverdue(seqNo, env);
      var request :- overdue;
      var committed := CommitForRequest(env, seqNo, request.oracles[..request.commits]);
      var seedSlot :- committed;
      var deadline :- CheckedAdd(slot, REVEAL_TIMEOUT_SLOTS);
      request := request.(seedSlot := seedSlot, deadlineSlot := deadline);
      request := request.(oracles := request.oracles[request.commits := env.oracle]);
      request := request.(commits := request.commits + 1);
      requests := requests[seqNo := request];
      vault.totalRecommits :- CheckedAdd(vault.totalRecommits, 1);
      r := Ok(());
    }

    // ----- settling

    /** Works on the pool buffer: merge, pick, remove, put the hand-in back. */
    method DrawAsset(request: Request) returns (r: Result<u32>)
      requires Valid()
      modifies pool
      ensures Valid()
      ensures match Draw(c, old(PoolNow()), request)
              case Ok((p, picked)) => r == Ok(picked) && PoolNow() == p
              case Err(e) => r == Err(e)
    {
      hide Merge, Position, Meaning, Represents;
      var p := LoadPool();
      ghost var bytes := pool[..];
      var merged := p.Merge(request.seqNo, MAX_MERGE_PER_IX);
      StillBelongs(bytes, pool[..], c.vaultKey);
      var _ :- merged;
      var front := p.IncomingFrontTag();
      var _ :- Need(front.Some? ==> front.value > request.seqNo, MergeBacklog);
      var n := p.PoolLen();
      var _ :- Need(n > 0, NoAssetAvailable);
      var block := Selection.RequestRandomness(c.sha, request.value, c.vaultKey, request.seqNo);
      var pos := Selection.UniformBelow(c.sha, block, n, c.budget);
      assert pos == Position(c, request.value, request.seqNo, n) by {
        PositionIs(request.value, request.seqNo, n);
      }
      var _ :- Need(pos.Some?, ComputeExceeded);
      bytes := pool[..];
      var picked := p.PoolSwapRemove(pos.value);
      StillBelongs(bytes, pool[..], c.vaultKey);
      assert picked.Ok?;
      var index := picked.value;
      if request.kind == Reroll {
        bytes := pool[..];
        var back := p.PoolPush(request.handedIn);
        StillBelongs(bytes, pool[..], c.vaultKey);
        var _ :- back;
      }
      r := Ok(index);
    }

    lemma PositionIs(value: Digest, seqNo: u64, n: u32)
      requires n > 0
      ensures Position(c, value, seqNo, n)
              == Selection.Uniform(c.sha, Selection.RequestRandomness(c.sha, value, c.vaultKey, seqNo), n, c.budget)
    {
    }

    /** Marks an asset as minted in the bitmap. */
    method MarkAsset(index: u32) returns (r: Status)
      requires Valid()
      modifies pool
      ensures Valid()
      ensures match MarkMinted(old(PoolNow()), index)
              case Ok(p) => r == Ok(()) && PoolNow() == p
              case Err(e) => r == Err(e)
    {
      hide Meaning, Represents, MarkMinted, LittleEndian.Agree;
      var p := LoadPool();
      ghost var bytes := pool[..];
      var marked := p.MarkMinted(index);
      StillBelongs(bytes, pool[..], c.vaultKey);
      r := marked;
    }

    /** The first mint: leaf, escrow, owner, bitmap and counter. */
    method MintNew(request: Request, picked: u32, args: SettleArgs) returns (r: Status)
      requires Valid()
      modifies this`owner, this`escrow, pool, vault
      ensures Valid()
      ensures match MintAsset(c, old(View()), request, picked, args)
              case Ok(s) => r == Ok(()) && View() == s
              case Err(e) => r == Err(e)
    {
      hide Leaf.CheckLeaf, Meaning, Represents, BelongsTo, MarkMinted;
      var _ :- Need(args.mint.Some?, MintArgsMissing);
      var leafOk := Leaf.CheckLeafProof(c.sha, Art(c), picked, args.mint.value.leaf, args.mint.value.proof);
      var _ :- leafOk;
      var funds := Balance(escrow, request.seqNo);
      var _ :- Need(args.liveMintCost <= funds, MintEscrowShort);
      var _ :- Need(args.mintSpent <= args.liveMintCost, CpiFailed);
      var _ :- Need(picked !in owner, CpiFailed);
      escrow := escrow[request.seqNo := funds + args.prefunded - args.mintSpent];
      owner := owner[picked := request.user];
      var marked := MarkAsset(picked);
      var _ :- marked;
      var _ :- Need(vault.mintedCount < U32_MAX, MathOverflow);
      vault.mintedCount := vault.mintedCount + 1;
      assert vault.Value() == old(vault.Value()).(mintedCount := vault.mintedCount);
      r := Ok(());
    }

    /** Transfers an existing asset or mints a new one. */
    method GiveAsset(request: Request, picked: u32, args: SettleArgs) returns (r: Status)
      requires Valid()
      modifies this`owner, this`escrow, pool, vault
      ensures Valid()
      ensures match HandOver(c, old(View()), request, picked, args)
              case Ok(s) => r == Ok(()) && View() == s
              case Err(e) => r == Err(e)
    {
      hide MintAsset, Meaning, Represents, BelongsTo, Transfer;
      var p := LoadPool();
      var minted := p.IsMinted(picked);
      if minted {
        owner :- Transfer(owner, picked, c.authority, request.user);
      } else {
        var made := MintNew(request, picked, args);
        var _ :- made;
      }
      r := Ok(());
    }

    /** The escrow refund, and the closing of the request and its lock. */
    method Close(ghost v: VaultAccount, request: Request)
      requires Valid()
      modifies this`lamports, this`escrow, this`requests, this`locks
      ensures ViewWith(v) == CloseRequest(old(ViewWith(v)), request)
    {
      lamports := Credit(lamports, request.user, Balance(escrow, request.seqNo));
      escrow := escrow - {request.seqNo};
      requests := requests - {request.seqNo};
      locks := locks - {request.randomness};
    }

    method HandleSettle(args: SettleArgs) returns (r: Status)
      requires Valid()
      modifies this, vault, pool
      ensures slot == old(slot)
      ensures Valid()
      ensures match Apply(c, old(View()), DoSettle(args))
              case Ok(s) => r == Ok(()) && View() == s
              case Err(e) => r == Err(e)
    {
      hide Draw, HandOver, CountSettled, Check, Meaning, Represents, RequestCapture, RequestReroll, Reveal, Recommit,
           ExpireBatch, Unwrap, MergeIncoming, OpenVault, InitRandomness, Outside, ExpireOne, BelongsTo;
      var _ :- Need(args.seqNo in requests, AccountConstraint);
      var request := requests[args.seqNo];
      var _ :- Need(request.randomness in locks, AccountConstraint);
      var _ :- Need(request.kind == args.kind, WrongRequestKind);
      var _ :- Need(request.seqNo == vault.nextSettleSeq, OutOfOrder);
      var _ :- Need(locks[request.randomness] == request.seqNo, RandomnessMismatch);
      var _ :- Need(request.revealed, RandomnessNotRevealed);
      var drawn := DrawAsset(request);
      var picked :- drawn;
      var _ :- Need(args.asset == picked, WrongAsset);
      var given := GiveAsset(request, picked, args);
      var _ :- given;
      Close(vault, request);
      var counted := vault.CountSettlement(request);
      var _ :- counted;
      var sound := CheckInvariants();
      var _ :- sound;
      r := Ok(());
    }

    // ----- expiring

    method PayTokens(ghost v: VaultAccount, user: Key) returns (r: Status)
      requires Valid()
      modifies this`vaultTokens, this`tokens
      ensures match PayOut(c, old(ViewWith(v)), user)
              case Ok(s) => r == Ok(()) && ViewWith(v) == s
              case Err(e) => r == Err(e)
    {
      var _ :- Need(c.ratio <= vaultTokens, CpiFailed);
      vaultTokens := vaultTokens - c.ratio;
      tokens := Credit(tokens, user, c.ratio);
      r := Ok(());
    }

    /** Expires one head, counting in the working copy `v` of the vault account. */
    method ExpireHead(v: VaultAccount, seqNo: u64, asset: u32) returns (r: Status)
      requires Valid()
      modifies this, v
      ensures slot == old(slot)
      ensures match ExpireOne(c, old(ViewWith(v)), seqNo, asset)
              case Ok(s) => r == Ok(()) && ViewWith(v) == s
              case Err(e) => r == Err(e)
    {
      hide CountExpired, Meaning, Represents;
      var _ :- Need(seqNo in requests, AccountConstraint);
      var request := requests[seqNo];
      var _ :- Need(request.randomness in locks, AccountConstraint);
      var _ :- Need(request.seqNo == v.nextSettleSeq, OutOfOrder);
      var _ :- Need(!request.revealed, RandomnessAlreadyRevealed);
      var _ :- Need(request.randomness in rand, InvalidRandomnessAccount);
      var _ :- Need(!IsRevealed(rand[request.randomness], request.seedSlot), RandomnessAlreadyRevealed);
      var _ :- Need(request.commits > MAX_RECOMMITS, RecommitsRemaining);
      var earliest :- CheckedAdd(request.deadlineSlot, EXPIRE_GRACE_SLOTS);
      var _ :- Need(slot > earliest, ExpiryNotReached);
      if request.kind == Capture {
        var paid := PayTokens(v, request.user);
        var _ :- paid;
      } else {
        var _ :- Need(asset == request.handedIn, WrongAsset);
        owner :- Transfer(owner, asset, c.authority, request.user);
      }
      Close(v, request);
      r := v.CountExpiry(request);
    }

    method HandleExpire(seqNo: u64, asset: u32) returns (r: Status)
      requires Valid()
      modifies this, vault
      ensures slot == old(slot)
      ensures match Apply(c, old(View()), DoExpire(seqNo, asset))
              case Ok(s) => r == Ok(()) && View() == s
              case Err(e) => r == Err(e)
    {
      hide ExpireOne, Check, Meaning, Represents;
      var v := new VaultAccount(vault.Value());
      assert ViewWith(v) == old(View());
      var expired := ExpireHead(v, seqNo, asset);
      var _ :- expired;
      vault.Set(v.Value());
      assert View() == ViewWith(v);
      var sound := CheckInvariants();
      var _ :- sound;
      r := Ok(());
    }

    /** The account checks of one group of a batch. */
    method GroupFits(ghost v: VaultAccount, g: Group) returns (fits: bool)
      requires Valid()
      ensures fits <==> AccountsFit(ViewWith(v), g)
    {
      if g.seqNo !in requests {
        return false;
      }
      var r := requests[g.seqNo];
      fits := g.user == r.user && g.randomness == r.randomness && g.lock == r.randomness && r.randomness in locks
              && g.tokenOwner == r.user && g.escrow == g.seqNo;
    }

    /** The batch: every group in turn on one working copy, one check at the end. */
    method HandleExpireBatch(count: nat, groups: seq<Group>) returns (r: Status)
      requires Valid()
      modifies this, vault
      ensures slot == old(slot)
      ensures match Apply(c, old(View()), DoExpireBatch(count, groups))
              case Ok(s) => r == Ok(()) && View() == s
              case Err(e) => r == Err(e)
    {
      hide ExpireOne, Check, Meaning, Represents, RequestCapture, RequestReroll, Reveal, Recommit, Settle, Unwrap,
           MergeIncoming, OpenVault, InitRandomness, Outside, BelongsTo;
      var _ :- Need(1 <= count <= MAX_EXPIRE_PER_CALL, ExpireBatchInvalid);
      var _ :- Need(|groups| == count, ExpireBatchInvalid);
      var v := new VaultAccount(vault.Value());
      assert ViewWith(v) == old(View());
      assert groups[0..] == groups;
      for k := 0 to |groups|
        invariant slot == old(slot)
        invariant ExpireGroups(c, ViewWith(v), groups[k..]) == ExpireGroups(c, old(View()), groups)
      {
        assert groups[k..][1..] == groups[k + 1..];
        var g := groups[k];
        var fit := GroupFits(v, g);
        var _ :- Need(g.seqNo == v.nextSettleSeq && fit, ExpireBatchAccountMismatch);
        var expired := ExpireHead(v, g.seqNo, g.asset);
        var _ :- expired;
      }
      vault.Set(v.Value());
      assert View() == ViewWith(v);
      var sound := CheckInvariants();
      var _ :- sound;
      r := Ok(());
    }

    // ----- leaving, merging, opening

    /** Puts a returned asset at the back of the queue. */
    method QueueAsset(index: u32, tag: u64) returns (r: Status)
      requires Valid()
      modifies pool
      ensures Valid()
      ensures match IncomingPush(old(PoolNow()), index, tag)
              case Ok(p) => r == Ok(()) && PoolNow() == p
              case Err(e) => r == Err(e)
    {
      hide Meaning, Represents, IncomingPush, LittleEndian.Agree;
      var p := LoadPool();
      ghost var bytes := pool[..];
      var pushed := p.IncomingPush(index, tag);
      StillBelongs(bytes, pool[..], c.vaultKey);
      r := pushed;
    }

    method HandleUnwrap(user: Key, index: u32) returns (r: Status)
      requires Valid()
      modifies this, vault, pool
      ensures slot == old(slot)
      ensures Valid()
      ensures match Apply(c, old(View()), DoUnwrap(user, index))
              case Ok(s) => r == Ok(()) && View() == s
              case Err(e) => r == Err(e)
    {
      hide Check, Meaning, Represents, IncomingPush, RequestCapture, RequestReroll, Reveal, Recommit, Settle,
           ExpireBatch, MergeIncoming, OpenVault, InitRandomness, Outside, ExpireOne, Transfer, PayOut, BelongsTo;
      var _ :- Need(user != c.authority, AccountConstraint);
      var _ :- Need(index < c.n, IndexOutOfRange);
      owner :- Transfer(owner, index, user, c.authority);
      var paid := PayTokens(vault, user);
      var _ :- paid;
      var pushed := QueueAsset(index, vault.nextSeq);
      var _ :- pushed;
      var counted := vault.CountUnwrap();
      var _ :- counted;
      var sound := CheckInvariants();
      var _ :- sound;
      r := Ok(());
    }

    method HandleMergeIncoming(max: u32) returns (r: Status)
      requires Valid()
      modifies pool
      ensures Valid()
      ensures match Apply(c, old(View()), DoMerge(max))
              case Ok(s) => r == Ok(()) && View() == s
              case Err(e) => r == Err(e)
    {
      hide Merge, Meaning, Represents;
      var p := LoadPool();
      ghost var bytes := pool[..];
      var merged := p.Merge(vault.nextSettleSeq, Min(max, MAX_MERGE_PER_CRANK));
      StillBelongs(bytes, pool[..], c.vaultKey);
      var _ :- merged;
      r := Ok(());
    }

    method HandleOpenVault(collection: Collection, graduated: bool) returns (r: Status)
      requires Valid()
      modifies vault
      ensures match Apply(c, old(View()), DoOpen(collection, graduated))
              case Ok(s) => r == Ok(()) && View() == s
              case Err(e) => r == Err(e)
    {
      hide Check, Meaning, Represents, RequestCapture, RequestReroll, Reveal, Recommit, Settle, ExpireBatch, Unwrap,
           MergeIncoming, InitRandomness, Outside, ExpireOne, BelongsTo;
      var _ :- Need(!vault.open, VaultAlreadyOpen);
      var _ :- Need(collection.ownedByCore && collection.updateAuthority == c.authority, AssetStateMismatch);
      var _ :- Need(collection.numMinted == collection.currentSize == vault.mintedCount, AssetAccountingBroken);
      var _ :- Need(graduated, GraduationNotVerified);
      vault.open := true;
      vault.openedAtSlot := slot;
      var p := LoadPool();
      var _ :- Need(p.cap == c.n, InvalidPoolAccount);
      var sound := CheckInvariants();
      var _ :- sound;
      r := Ok(());
    }

    method HandleInitRandomness(key: Key, account: Randomness) returns (r: Status)
      requires Valid()
      modifies this`rand
      ensures match Apply(c, old(View()), DoInitRandomness(key, account))
              case Ok(s) => r == Ok(()) && View() == s
              case Err(e) => r == Err(e)
    {
      hide Meaning, Represents;
      var _ :- Need(key !in rand && account.queue == c.queue, CpiFailed);
      rand := rand[key := account];
      r := Need(account.authority == c.randomnessAuthority, RandomnessAuthorityMismatch);
    }

    // ----- one transaction

    method Save() returns (saved: Snapshot)
      ensures saved
              == Snapshot(vault.Value(), pool[..], requests, locks, rand, owner, vaultTokens, tokens, lamports, escrow)
    {
      saved := Snapshot(vault.Value(), pool[..], requests, locks, rand, owner, vaultTokens, tokens, lamports, escrow);
    }

    method Restore(saved: Snapshot)
      requires |saved.pool| == pool.Length
      modifies this, vault, pool
      ensures saved
              == Snapshot(vault.Value(), pool[..], requests, locks, rand, owner, vaultTokens, tokens, lamports, escrow)
      ensures slot == old(slot)
    {
      vault.Set(saved.vault);
      forall i | 0 <= i < pool.Length {
        pool[i] := saved.pool[i];
      }
      requests, locks, rand, owner := saved.requests, saved.locks, saved.rand, saved.owner;
      vaultTokens, tokens, lamports, escrow := saved.vaultTokens, saved.tokens, saved.lamports, saved.escrow;
    }

    /** Hands an instruction to its handler. */
    method Dispatch(step: Step) returns (r: Status)
      requires Valid() && !IsOutside(step)
      modifies this, vault, pool
      ensures Valid()
      ensures slot == old(slot)
      ensures match Apply(c, old(View()), step)
              case Ok(s) => r == Ok(()) && View() == s
              case Err(e) => r == Err(e)
    {
      hide Apply, Meaning, Represents, BelongsTo;
      match step {
        case DoOpen(collection, graduated) => r := HandleOpenVault(collection, graduated);
        case DoCapture(user, liveMintCost, env) => r := HandleRequestCapture(user, liveMintCost, env);
        case DoReroll(user, index, liveMintCost, env) => r := HandleRequestReroll(user, index, liveMintCost, env);
        case DoReveal(seqNo, seedSlot, revealSlot, value) => r := HandleReveal(seqNo, seedSlot, revealSlot, value);
        case DoRecommit(seqNo, env) => r := HandleRecommit(seqNo, env);
        case DoSettle(args) => r := HandleSettle(args);
        case DoExpire(seqNo, asset) => r := HandleExpire(seqNo, asset);
        case DoExpireBatch(count, groups) => r := HandleExpireBatch(count, groups);
        case DoUnwrap(user, index) => r := HandleUnwrap(user, index);
        case DoMerge(max) => r := HandleMergeIncoming(max);
        case DoInitRandomness(key, account) => r := HandleInitRandomness(key, account);
      }
    }

    /**
     Runs one vault instruction as a transaction: the state moves by `Next`, and an error leaves every account as it
     was.
     */
    method Execute(step: Step) returns (r: Status)
      requires Valid() && !IsOutside(step)
      modifies this, vault, pool
      ensures Valid()
      ensures View() == Next(c, old(View()), step)
      ensures r == match Apply(c, old(View()), step) case Ok(_) => Ok(()) case Err(e) => Err(e)
      ensures old(Invariant.Inv(c, View())) ==> Invariant.Inv(c, View())
    {
      hide Apply, Meaning, Represents, BelongsTo, Invariant.Inv;
      if Invariant.Inv(c, View()) {
        Preservation.NextKeepsInv(c, View(), step);
      }
      var saved := Save();
      ghost var before := View();
      r := Dispatch(step);
      if r.Err? {
        Restore(saved);
        assert View() == before;
      }
    }
  }
}
