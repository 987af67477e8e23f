/** Every step keeps the invariant. */
module Preservation {
  import opened Base
  import opened Arithmetic
  import opened Pool
  import opened Vault
  import opened Accounting
  import opened Invariant
  import Leaf
  import Oracle

  // ----- closing the head

  /** The counters after the head left the queue, however it left. */
  ghost predicate HeadLeft(v: Vault, v': Vault) {
    v.nextSettleSeq < v.nextSeq && v'.nextSettleSeq == v.nextSettleSeq + 1 && v'.nextSeq == v.nextSeq
  }

  lemma RandAfterClose(c: Config, v: Vault, requests: map<u64, Request>, locks: map<Key, u64>, rand: map<Key,
                       Randomness>, q: u64)
    requires FifoOk(v, requests) && RandOk(c, requests, locks, rand) && q in requests
    ensures RandOk(c, requests - {q}, locks - {requests[q].randomness}, rand)
  {
    hide CommitsOk, Mirrors, FifoOk;
    var requests', locks' := requests - {q}, locks - {requests[q].randomness};
    forall p: u64 | p in requests'
      ensures requests'[p].seqNo == p && RequestOk(c, requests'[p], rand, locks')
    {
      assert requests[p].seqNo == p && RequestOk(c, requests[p], rand, locks);
    }
  }

  /** What settling does, apart from the asset itself: `after` and `picked` come from the draw. */
  ghost predicate SettledTo(c: Config, s: State, s': State, r: Request, after: PoolState, picked: u32) {
    && s.vault.nextSettleSeq in s.requests && r == s.requests[s.vault.nextSettleSeq] && r.seqNo == s.vault.nextSettleSeq
    && r.revealed
    && s'.pool == after.(minted := after.minted + {picked})
    && s'.owner == s.owner[picked := r.user]
    && s'.requests == s.requests - {r.seqNo} && s'.locks == s.locks - {r.randomness}
    && s'.rand == s.rand && s'.vaultTokens == s.vaultTokens && s'.tokens == s.tokens && s'.slot == s.slot
    && (forall q: u64 :: q != r.seqNo ==> Balance(s'.escrow, q) == Balance(s.escrow, q))
    && s'.vault.mintedCount == s.vault.mintedCount + (if picked in after.minted then 0 else 1)
    && s'.vault.nextSettleSeq == s.vault.nextSettleSeq + 1 && s'.vault.nextSeq == s.vault.nextSeq
    && s'.vault.assetsOutside == s.vault.assetsOutside + 1
    && s'.vault.pendingCaptures == s.vault.pendingCaptures - (if r.kind == Capture then 1 else 0)
    && s'.vault.pendingRerolls == s.vault.pendingRerolls - (if r.kind == Reroll then 1 else 0)
    && s'.vault.open == s.vault.open
  }

  lemma HandOverShape(c: Config, s: State, r: Request, picked: u32, args: SettleArgs)
    requires HandOver(c, s, r, picked, args).Ok?
    ensures var s' := HandOver(c, s, r, picked, args).value;
            && s'.pool == s.pool.(minted := s.pool.minted + {picked})
            && s'.owner == s.owner[picked := r.user]
            && s'.vault == s.vault.(mintedCount := s.vault.mintedCount + (if picked in s.pool.minted then 0 else 1))
            && s' == s.(pool := s'.pool, owner := s'.owner, vault := s'.vault, escrow := s'.escrow)
            && forall q: u64 :: q != r.seqNo ==> Balance(s'.escrow, q) == Balance(s.escrow, q)
  {
    hide Leaf.CheckLeaf;
    if picked in s.pool.minted {
      assert s.pool.minted + {picked} == s.pool.minted;
    }
  }

  lemma SettleShape(c: Config, s: State, args: SettleArgs)
    requires FifoOk(s.vault, s.requests) && Settle(c, s, args).Ok?
    ensures s.vault.nextSettleSeq in s.requests && args.seqNo == s.vault.nextSettleSeq
    ensures var r := s.requests[s.vault.nextSettleSeq];
            && Draw(c, s.pool, r).Ok?
            && args.asset == Draw(c, s.pool, r).value.1
            && SettledTo(c, s, Settle(c, s, args).value, r, Draw(c, s.pool, r).value.0, Draw(c, s.pool, r).value.1)
  {
    hide Draw, HandOver;
    var r := s.requests[s.vault.nextSettleSeq];
    var (after, picked) := Draw(c, s.pool, r).value;
    HandOverShape(c, s.(pool := after), r, picked, args);
    var given := HandOver(c, s.(pool := after), r, picked, args).value;
    var s' := Settle(c, s, args).value;
    forall q: u64 | q != r.seqNo
      ensures Balance(s'.escrow, q) == Balance(s.escrow, q)
    {
      assert Balance(given.escrow, q) == Balance(s.escrow, q);
    }
  }

  lemma HeadHandIn(c: Config, v: Vault, pool: PoolState, requests: map<u64, Request>, owner: map<u32, Key>)
    requires PoolOk(c, pool) && FifoOk(v, requests) && AssetsOk(c, v, pool, requests, owner)
             && v.nextSettleSeq < v.nextSeq
    requires requests[v.nextSettleSeq].kind == Reroll
    ensures var h := requests[v.nextSettleSeq].handedIn;
            h < c.n && h in pool.minted && h !in Contents(pool) && h in owner && owner[h] == c.authority
  {
    hide Singles, OwnersOk, CountsOk, Contents;
    var h := requests[v.nextSettleSeq].handedIn;
    assert h in Held(v, requests);
    HeldIsMinted(c.n, c.authority, Contents(pool), Held(v, requests), pool.minted, owner, h);
  }

  lemma SettleKeepsAssets(c: Config, s: State, s': State, r: Request, after: PoolState, picked: u32)
    requires PoolOk(c, s.pool) && FifoOk(s.vault, s.requests) && AssetsOk(c, s.vault, s.pool, s.requests, s.owner)
    requires SettledTo(c, s, s', r, after, picked) && Drawn(s.pool, r, after, picked)
    ensures FifoOk(s'.vault, s'.requests) && AssetsOk(c, s'.vault, s'.pool, s'.requests, s'.owner)
    ensures PoolOk(c, s'.pool)
  {
    hide Singles, OwnersOk, Held, Eligible, CountsOk, Contents, HandIn, Wf, QueueInRange;
    HeldAfterClose(s.vault, s.requests, s'.vault);
    assert Contents(s'.pool) == Contents(after) by {
      SameContents(after, s'.pool);
    }
    var inside, inside' := Inside(s.vault, s.pool, s.requests), Inside(s'.vault, s'.pool, s'.requests);
    Exchange(Contents(after), picked, Contents(s.pool), HandIn(r), Held(s'.vault, s'.requests));
    assert inside' + multiset{picked} == inside;
    OwnersAfterExit(c.n, c.authority, inside, Contents(s.pool), s.pool.minted, s.owner, inside', Contents(s'.pool),
                    picked, r.user);
    SettleCounts(c, s, s', r, after, picked);
    PickedInRange(c.n, inside, picked);
    MarkedOk(c, after, s'.pool, picked);
  }

  lemma SameContents(p: PoolState, p': PoolState)
    requires p.slots == p'.slots && p.queue == p'.queue
    ensures Contents(p) == Contents(p')
  {
  }

  /** Bookkeeping of one exchange: `x` left `a`, `h` came in, and `rest` is untouched. */
  lemma Exchange(a': multiset<u32>, x: u32, a: multiset<u32>, h: multiset<u32>, rest: multiset<u32>)
    requires a' + multiset{x} == a + h
    ensures (a' + rest) + multiset{x} == a + (h + rest)
    ensures forall j: u32 :: j in a && j != x ==> j in a'
  {
    assert (a' + rest) + multiset{x} == (a' + multiset{x}) + rest;
    assert (a + h) + rest == a + (h + rest);
    forall j: u32 | j in a && j != x
      ensures j in a'
    {
      assert (a' + multiset{x})[j] == (a + h)[j];
    }
  }

  lemma MarkedOk(c: Config, after: PoolState, pool': PoolState, picked: u32)
    requires Wf(after) && QueueInRange(after) && after.cap == c.n && picked < c.n
    requires pool' == after.(minted := after.minted + {picked})
    ensures PoolOk(c, pool')
  {
  }

  lemma PickedInRange(n: u32, inside: multiset<u32>, i: u32)
    requires Singles(n, inside) && i in inside
    ensures i < n
  {
  }

  lemma SettleCounts(c: Config, s: State, s': State, r: Request, after: PoolState, picked: u32)
    requires FifoOk(s.vault, s.requests) && CountsOk(c, s.vault, s.pool, Held(s.vault, s.requests))
    requires SettledTo(c, s, s', r, after, picked) && Drawn(s.pool, r, after, picked)
    requires FifoOk(s'.vault, s'.requests)
    requires Held(s.vault, s.requests) == HandIn(r) + Held(s'.vault, s'.requests)
    ensures CountsOk(c, s'.vault, s'.pool, Held(s'.vault, s'.requests))
  {
    hide HeldFrom, Contents, Wf, FifoOk, QueueInRange;
  }

  lemma SettleKeepsInv(c: Config, s: State, args: SettleArgs)
    requires Inv(c, s) && Settle(c, s, args).Ok?
    ensures Inv(c, Settle(c, s, args).value)
  {
    hide Settle, Draw, ReserveOk, RandOk, AssetsOk, ConfigOk, Solvent, Wf, QueueInRange;
    SettleShape(c, s, args);
    var r := s.requests[s.vault.nextSettleSeq];
    var (after, picked) := Draw(c, s.pool, r).value;
    var s' := Settle(c, s, args).value;
    if r.kind == Reroll {
      HeadHandIn(c, s.vault, s.pool, s.requests, s.owner);
    }
    DrawIsDrawn(c, s.pool, r);
    SettleKeepsAssets(c, s, s', r, after, picked);
    ReserveAfterDraw(c, s.vault, s'.vault, s.pool, s'.pool);
    RandAfterClose(c, s.vault, s.requests, s.locks, s.rand, r.seqNo);
    SameOwed(c, s.vault, s'.vault, s.vaultTokens);
  }

  lemma SameOwed(c: Config, v: Vault, v': Vault, vaultTokens: nat)
    requires Solvent(c, v, vaultTokens) && Owed(v') == Owed(v)
    ensures Solvent(c, v', vaultTokens)
  {
  }

  // ----- expiring the head

  /** What expiring does: the principal goes back and the request disappears. */
  ghost predicate ExpiredTo(c: Config, s: State, s': State, r: Request) {
    && s.vault.nextSettleSeq in s.requests && r == s.requests[s.vault.nextSettleSeq] && r.seqNo == s.vault.nextSettleSeq
    && !r.revealed && r.commits > MAX_RECOMMITS && s.slot > r.deadlineSlot + EXPIRE_GRACE_SLOTS
    && s'.pool == s.pool && s'.rand == s.rand && s'.slot == s.slot
    && s'.requests == s.requests - {r.seqNo} && s'.locks == s.locks - {r.randomness}
    && s'.lamports == Credit(s.lamports, r.user, Balance(s.escrow, r.seqNo)) && s'.escrow == s.escrow - {r.seqNo}
    && (if r.kind == Capture then
          c.ratio <= s.vaultTokens && s'.vaultTokens == s.vaultTokens - c.ratio
            && s'.tokens == Credit(s.tokens, r.user, c.ratio) && s'.owner == s.owner
        else
          s'.vaultTokens == s.vaultTokens && s'.tokens == s.tokens && s'.owner == s.owner[r.handedIn := r.user])
    && s'.vault.nextSettleSeq == s.vault.nextSettleSeq + 1 && s'.vault.nextSeq == s.vault.nextSeq
    && s'.vault.mintedCount == s.vault.mintedCount && s'.vault.open == s.vault.open
    && s'.vault.assetsOutside == s.vault.assetsOutside + (if r.kind == Reroll then 1 else 0)
    && s'.vault.pendingCaptures == s.vault.pendingCaptures - (if r.kind == Capture then 1 else 0)
    && s'.vault.pendingRerolls == s.vault.pendingRerolls - (if r.kind == Reroll then 1 else 0)
  }

  lemma ExpireShape(c: Config, s: State, seqNo: u64, asset: u32)
    requires FifoOk(s.vault, s.requests) && ExpireOne(c, s, seqNo, asset).Ok?
    ensures s.vault.nextSettleSeq in s.requests && seqNo == s.vault.nextSettleSeq
    ensures ExpiredTo(c, s, ExpireOne(c, s, seqNo, asset).value, s.requests[s.vault.nextSettleSeq])
  {
  }

  lemma ExpireKeepsAssets(c: Config, s: State, s': State, r: Request)
    requires PoolOk(c, s.pool) && FifoOk(s.vault, s.requests) && AssetsOk(c, s.vault, s.pool, s.requests, s.owner)
    requires ExpiredTo(c, s, s', r)
    ensures FifoOk(s'.vault, s'.requests) && AssetsOk(c, s'.vault, s'.pool, s'.requests, s'.owner)
  {
    hide Singles, OwnersOk, Held, Contents, Wf, QueueInRange;
    HeldAfterClose(s.vault, s.requests, s'.vault);
    var inside, inside' := Inside(s.vault, s.pool, s.requests), Inside(s'.vault, s'.pool, s'.requests);
    if r.kind == Reroll {
      HeadHandIn(c, s.vault, s.pool, s.requests, s.owner);
      assert inside' + multiset{r.handedIn} == inside;
      OwnersAfterExit(c.n, c.authority, inside, Contents(s.pool), s.pool.minted, s.owner, inside', Contents(s.pool),
                      r.handedIn, r.user);
      assert s.pool.minted + {r.handedIn} == s.pool.minted;
    } else {
      assert inside' == inside;
    }
  }

  lemma ExpireKeepsSolvent(c: Config, s: State, s': State, r: Request)
    requires Solvent(c, s.vault, s.vaultTokens) && ExpiredTo(c, s, s', r)
    ensures Solvent(c, s'.vault, s'.vaultTokens)
  {
    hide FifoOk;
    if r.kind == Capture {
      OneLess(c.ratio, Owed(s.vault));
    }
  }

  lemma OneLess(ratio: nat, owed: nat)
    ensures owed > 0 ==> Times(ratio, owed - 1) == Times(ratio, owed) - ratio
    ensures Times(ratio, owed + 1) == Times(ratio, owed) + ratio
  {
  }

  lemma ExpireOneKeepsInv(c: Config, s: State, seqNo: u64, asset: u32)
    requires Inv(c, s) && ExpireOne(c, s, seqNo, asset).Ok?
    ensures Inv(c, ExpireOne(c, s, seqNo, asset).value)
  {
    hide ExpireOne, ReserveOk, RandOk, AssetsOk, ConfigOk, Solvent, PoolOk;
    ExpireShape(c, s, seqNo, asset);
    var r := s.requests[s.vault.nextSettleSeq];
    var s' := ExpireOne(c, s, seqNo, asset).value;
    ExpireKeepsAssets(c, s, s', r);
    ExpireKeepsSolvent(c, s, s', r);
    ReserveAfterExpiry(c, s.vault, s'.vault, s.pool);
    RandAfterClose(c, s.vault, s.requests, s.locks, s.rand, r.seqNo);
  }

  lemma {:induction false} ExpireGroupsKeepInv(c: Config, s: State, groups: seq<Group>)
    requires Inv(c, s) && ExpireGroups(c, s, groups).Ok?
    ensures Inv(c, ExpireGroups(c, s, groups).value)
    decreases |groups|
  {
    hide Inv, ExpireOne;
    if groups != [] {
      ExpireOneKeepsInv(c, s, groups[0].seqNo, groups[0].asset);
      ExpireGroupsKeepInv(c, ExpireOne(c, s, groups[0].seqNo, groups[0].asset).value, groups[1..]);
    }
  }

  // ----- leaving the vault

  ghost predicate UnwrappedTo(c: Config, s: State, s': State, user: Key, index: u32) {
    && user != c.authority && index < c.n && index in s.owner && s.owner[index] == user
    && IncomingPush(s.pool, index, s.vault.nextSeq) == Ok(s'.pool)
    && s'.pool == s.pool.(queue := s.pool.queue + [Entry(index, s.vault.nextSeq)])
    && c.ratio <= s.vaultTokens && s'.vaultTokens == s.vaultTokens - c.ratio
    && s'.tokens == Credit(s.tokens, user, c.ratio)
    && s'.owner == s.owner[index := c.authority]
    && s.vault.assetsOutside > 0 && s.vault.totalUnwraps < U64_MAX
    && s' == s.(pool := s'.pool, vaultTokens := s'.vaultTokens, tokens := s'.tokens, owner := s'.owner,
                vault := s.vault.(assetsOutside := s.vault.assetsOutside - 1, totalUnwraps := s.vault.totalUnwraps + 1))
  }

  lemma UnwrapShape(c: Config, s: State, user: Key, index: u32)
    requires Unwrap(c, s, user, index).Ok?
    ensures UnwrappedTo(c, s, Unwrap(c, s, user, index).value, user, index)
  {
  }

  lemma UnwrapKeepsAssets(c: Config, s: State, s': State, user: Key, index: u32)
    requires PoolOk(c, s.pool) && FifoOk(s.vault, s.requests) && AssetsOk(c, s.vault, s.pool, s.requests, s.owner)
    requires UnwrappedTo(c, s, s', user, index)
    ensures FifoOk(s'.vault, s'.requests) && AssetsOk(c, s'.vault, s'.pool, s'.requests, s'.owner)
  {
    hide Singles, OwnersOk, HeldFrom, Wf, QueueInRange, IncomingPush, Contents;
    ContentsAfterPush(s.pool, Entry(index, s.vault.nextSeq));
    var inside := Inside(s.vault, s.pool, s.requests);
    assert Held(s'.vault, s'.requests) == Held(s.vault, s.requests);
    assert Inside(s'.vault, s'.pool, s'.requests) == inside + multiset{index};
    OwnersAfterEntry(c.n, c.authority, inside, Contents(s.pool), s.pool.minted, s.owner,
                     inside + multiset{index}, Contents(s'.pool), index);
  }

  lemma ContentsAfterPush(pool: PoolState, e: Entry)
    ensures Contents(pool.(queue := pool.queue + [e])) == Contents(pool) + multiset{e.index}
  {
    IndicesConcat(pool.queue, [e]);
    assert Indices([e]) == [e.index];
  }

  lemma UnwrapKeepsPool(c: Config, s: State, s': State, user: Key, index: u32)
    requires PoolOk(c, s.pool) && UnwrappedTo(c, s, s', user, index)
    ensures PoolOk(c, s'.pool)
  {
    IncomingPushWf(s.pool, index, s.vault.nextSeq);
    forall k | 0 <= k < |s'.pool.queue|
      ensures s'.pool.queue[k].index < c.n
    {
      if k < |s.pool.queue| {
        assert s'.pool.queue[k] == s.pool.queue[k];
      }
    }
  }

  lemma UnwrapKeepsInv(c: Config, s: State, user: Key, index: u32)
    requires Inv(c, s) && Unwrap(c, s, user, index).Ok?
    ensures Inv(c, Unwrap(c, s, user, index).value)
  {
    hide Unwrap, ReserveOk, RandOk, AssetsOk, ConfigOk, FifoOk, QueueInRange, EscrowOk, IncomingPush;
    UnwrapShape(c, s, user, index);
    var s' := Unwrap(c, s, user, index).value;
    UnwrapKeepsAssets(c, s, s', user, index);
    UnwrapKeepsPool(c, s, s', user, index);
    ReserveAfterUnwrap(c, s.vault, s'.vault, s.pool, index);
    OneLess(c.ratio, Owed(s.vault));
  }

  // ----- merging

  lemma MergeKeepsInv(c: Config, s: State, max: u32)
    requires Inv(c, s)
    ensures MergeIncoming(s, max).Ok?
    ensures MergeIncoming(s, max).value
            == s.(pool := Advance(s.pool,
                                  Min(Min(max, MAX_MERGE_PER_CRANK), Eligible(s.pool.queue, s.vault.nextSettleSeq))))
    ensures Inv(c, MergeIncoming(s, max).value)
  {
    hide ReserveOk, RandOk, ConfigOk, EscrowOk, Solvent, Singles, OwnersOk, Contents, Wf, QueueInRange, Eligible,
         Merge, Held;
    var m := Min(max, MAX_MERGE_PER_CRANK);
    MergeMoves(s.pool, s.vault.nextSettleSeq, m);
    var n := Min(m, Eligible(s.pool.queue, s.vault.nextSettleSeq));
    AdvanceContents(s.pool, n);
    AdvanceWf(s.pool, n);
    ReserveAfterMerge(c, s.vault, s.pool, n);
  }

  // ----- requesting

  /** The request that an accepted request instruction creates. */
  ghost predicate NewRequest(c: Config, s: State, r: Request, kind: Kind, user: Key, handedIn: u32, env: CommitEnv) {
    && r.kind == kind && r.seqNo == s.vault.nextSeq && r.user == user && r.randomness == env.randomness
    && r.seedSlot + 1 == s.slot && r.deadlineSlot == s.slot + REVEAL_TIMEOUT_SLOTS
    && r.commits == 1 && r.oracles == FirstOracle(env.oracle) && !r.revealed && r.handedIn == handedIn
  }

  /** The effect of `FinishRequest` on a state that has already been paid into. */
  ghost predicate FinishedTo(c: Config, s: State, s': State, r: Request, kind: Kind, user: Key, handedIn: u32,
                             env: CommitEnv) {
    && NewRequest(c, s, r, kind, user, handedIn, env)
    && s.vault.nextSeq < U64_MAX
    && s'.requests == s.requests[r.seqNo := r] && s'.locks == s.locks[r.randomness := r.seqNo]
    && r.randomness in s.rand && s.rand[r.randomness].authority == c.randomnessAuthority
    && r.randomness in s'.rand && s'.rand == s.rand[r.randomness := s'.rand[r.randomness]]
       && Mirrors(c, r, s'.rand[r.randomness])
    && s' == s.(vault := s'.vault, rand := s'.rand, requests := s'.requests, locks := s'.locks)
    && s'.vault.nextSeq == s.vault.nextSeq + 1 && s'.vault.nextSettleSeq == s.vault.nextSettleSeq
    && s'.vault.mintedCount == s.vault.mintedCount && s'.vault.open == s.vault.open
    && s'.vault.pendingCaptures == s.vault.pendingCaptures + (if kind == Capture then 1 else 0)
    && s'.vault.pendingRerolls == s.vault.pendingRerolls + (if kind == Reroll then 1 else 0)
    && s'.vault.assetsOutside == s.vault.assetsOutside - (if kind == Reroll then 1 else 0)
  }

  lemma ChosenOracleIsUsable(c: Config, env: CommitEnv, seqNo: u64, used: seq<Key>)
    requires Oracle.CommitOracle(c.sha, env.queue, c.vaultKey, seqNo, used, env.proofs, env.heartbeats, env.now,
                                 env.oracle).Ok?
    ensures env.oracle != DEFAULT_KEY && env.oracle !in used
  {
    Oracle.CommitUsesFirstLive(c.sha, env.queue, c.vaultKey, seqNo, used, env.proofs, env.heartbeats, env.now,
                               env.oracle);
  }

  lemma CommitShape(c: Config, s: State, env: CommitEnv, seqNo: u64, used: seq<Key>)
    requires Commit(c, s, env, seqNo, used).Ok?
    ensures var account := Commit(c, s, env, seqNo, used).value;
            && env.randomness in s.rand && s.rand[env.randomness].authority == c.randomnessAuthority
            && account.authority == c.randomnessAuthority && account.queue == c.queue
            && account.seedSlot + 1 == s.slot && account.revealSlot <= account.seedSlot
    ensures env.oracle != DEFAULT_KEY && env.oracle !in used
  {
    hide Oracle.CommitOracle;
    ChosenOracleIsUsable(c, env, seqNo, used);
  }

  lemma FinishShape(c: Config, s: State, kind: Kind, user: Key, handedIn: u32, env: CommitEnv)
    requires FinishRequest(c, s, kind, user, handedIn, env).Ok?
    ensures var s' := FinishRequest(c, s, kind, user, handedIn, env).value;
            s.vault.nextSeq in s'.requests
              && FinishedTo(c, s, s', s'.requests[s.vault.nextSeq], kind, user, handedIn, env)
    ensures env.oracle != DEFAULT_KEY
  {
    hide Commit;
    CommitShape(c, s, env, s.vault.nextSeq, []);
  }

  lemma PayShape(c: Config, s: State, user: Key, liveMintCost: nat)
    requires PayLamports(c, s, user, liveMintCost).Ok?
    ensures var s' := PayLamports(c, s, user, liveMintCost).value;
            && s' == s.(lamports := s'.lamports, escrow := s'.escrow)
            && s'.escrow == Credit(s.escrow, s.vault.nextSeq, MINT_ESCROW_LAMPORTS)
  {
  }

  lemma RandAfterRequest(c: Config, s: State, s': State, r: Request, kind: Kind, user: Key, handedIn: u32,
                         env: CommitEnv)
    requires FifoOk(s.vault, s.requests) && RandOk(c, s.requests, s.locks, s.rand)
    requires FinishedTo(c, s, s', r, kind, user, handedIn, env)
    requires r.seqNo !in s.requests && r.randomness !in s.locks && user != c.authority && env.oracle != DEFAULT_KEY
    ensures RandOk(c, s'.requests, s'.locks, s'.rand)
  {
    hide Mirrors, FifoOk;
    assert CommitsOk(r);
    forall q: u64 | q in s'.requests
      ensures s'.requests[q].seqNo == q && RequestOk(c, s'.requests[q], s'.rand, s'.locks)
    {
      if q != r.seqNo {
        assert s.requests[q].seqNo == q && RequestOk(c, s.requests[q], s.rand, s.locks);
        assert s.requests[q].randomness != r.randomness;
      }
    }
  }

  lemma EscrowAfterRequest(c: Config, s: State, s': State, r: Request, paid: map<u64, nat>)
    requires EscrowOk(s.requests, s.escrow) && paid == Credit(s.escrow, r.seqNo, MINT_ESCROW_LAMPORTS)
    ensures EscrowOk(s.requests[r.seqNo := r], paid)
  {
  }

  lemma RequestCounts(c: Config, v: Vault, v': Vault, pool: PoolState, held: multiset<u32>, r: Request)
    requires CountsOk(c, v, pool, held)
    requires v'.nextSeq == v.nextSeq + 1 && v'.nextSettleSeq == v.nextSettleSeq && v'.mintedCount == v.mintedCount
    requires v'.pendingCaptures == v.pendingCaptures + (if r.kind == Capture then 1 else 0)
    requires v'.pendingRerolls == v.pendingRerolls + (if r.kind == Reroll then 1 else 0)
    requires v'.assetsOutside == v.assetsOutside - (if r.kind == Reroll then 1 else 0)
    ensures CountsOk(c, v', pool, held + HandIn(r))
    ensures Owed(v') == Owed(v) + (if r.kind == Capture then 1 else 0)
  {
  }

  /** Capture: `paid` is the state once tokens, fee and escrow have been taken. */
  ghost predicate CapturePaid(c: Config, s: State, paid: State, user: Key) {
    && c.ratio <= Balance(s.tokens, user)
    && paid == s.(tokens := s.tokens[user := Balance(s.tokens, user) - c.ratio], vaultTokens := s.vaultTokens + c.ratio,
                  lamports := paid.lamports, escrow := Credit(s.escrow, s.vault.nextSeq, MINT_ESCROW_LAMPORTS))
  }

  lemma CaptureShape(c: Config, s: State, user: Key, liveMintCost: nat, env: CommitEnv) returns (paid: State)
    requires RequestCapture(c, s, user, liveMintCost, env).Ok?
    ensures CanCreateRequest(c, s, user, env).Ok? && CheckCanRequest(c, s.vault, s.pool).Ok?
            && env.oracle != DEFAULT_KEY
    ensures CapturePaid(c, s, paid, user)
    ensures var s' := RequestCapture(c, s, user, liveMintCost, env).value;
            s.vault.nextSeq in s'.requests
              && FinishedTo(c, paid, s', s'.requests[s.vault.nextSeq], Capture, user, NO_HANDED_IN, env)
  {
    hide FinishRequest, PayLamports, FinishedTo, CheckCanRequest;
    var s1 := s.(tokens := Debit(s.tokens, user, c.ratio).value, vaultTokens := s.vaultTokens + c.ratio);
    PayShape(c, s1, user, liveMintCost);
    paid := PayLamports(c, s1, user, liveMintCost).value;
    FinishShape(c, paid, Capture, user, NO_HANDED_IN, env);
  }

  lemma CaptureKeepsAssets(c: Config, s: State, paid: State, s': State, r: Request, user: Key, env: CommitEnv)
    requires FifoOk(s.vault, s.requests) && AssetsOk(c, s.vault, s.pool, s.requests, s.owner)
    requires CapturePaid(c, s, paid, user) && FinishedTo(c, paid, s', r, Capture, user, NO_HANDED_IN, env)
    ensures FifoOk(s'.vault, s'.requests) && AssetsOk(c, s'.vault, s'.pool, s'.requests, s'.owner)
    ensures Owed(s'.vault) == Owed(s.vault) + 1
  {
    hide Singles, OwnersOk, Held, CountsOk, Contents, Mirrors;
    HeldAfterRequest(s.vault, s.requests, s'.vault, r);
    RequestCounts(c, s.vault, s'.vault, s.pool, Held(s.vault, s.requests), r);
    assert Inside(s'.vault, s'.pool, s'.requests) == Inside(s.vault, s.pool, s.requests);
  }

  lemma CaptureKeepsInv(c: Config, s: State, user: Key, liveMintCost: nat, env: CommitEnv)
    requires Inv(c, s) && RequestCapture(c, s, user, liveMintCost, env).Ok?
    ensures Inv(c, RequestCapture(c, s, user, liveMintCost, env).value)
  {
    hide RequestCapture, ReserveOk, RandOk, AssetsOk, ConfigOk, PoolOk, EscrowOk, CheckCanRequest, FinishedTo;
    var paid := CaptureShape(c, s, user, liveMintCost, env);
    var s' := RequestCapture(c, s, user, liveMintCost, env).value;
    var r := s'.requests[s.vault.nextSeq];
    RequestKeepsRest(c, s, paid, s', r, Capture, user, NO_HANDED_IN, env);
    CaptureKeepsAssets(c, s, paid, s', r, user, env);
    OneLess(c.ratio, Owed(s.vault));
    FinishedFrame(c, paid, s', r, Capture, user, NO_HANDED_IN, env);
  }

  lemma FinishedFrame(c: Config, s: State, s': State, r: Request, kind: Kind, user: Key, handedIn: u32, env: CommitEnv)
    requires FinishedTo(c, s, s', r, kind, user, handedIn, env)
    ensures s'.pool == s.pool && s'.vaultTokens == s.vaultTokens && s'.owner == s.owner && s'.escrow == s.escrow
            && s'.slot == s.slot
  {
  }

  /** The parts of the invariant both kinds of request keep in the same way. */
  lemma RequestKeepsRest(c: Config, s: State, paid: State, s': State, r: Request, kind: Kind, user: Key, handedIn: u32,
                         env: CommitEnv)
    requires FifoOk(s.vault, s.requests) && RandOk(c, s.requests, s.locks, s.rand) && EscrowOk(s.requests, s.escrow)
    requires PoolOk(c, s.pool) && ReserveOk(c, s.vault, s.pool) && AssetsOk(c, s.vault, s.pool, s.requests, s.owner)
    requires CanCreateRequest(c, s, user, env).Ok? && CheckCanRequest(c, s.vault, s.pool).Ok?
             && env.oracle != DEFAULT_KEY
    requires paid
             == s.(tokens := paid.tokens, vaultTokens := paid.vaultTokens, lamports := paid.lamports,
                   owner := paid.owner, escrow := paid.escrow)
    requires paid.escrow == Credit(s.escrow, s.vault.nextSeq, MINT_ESCROW_LAMPORTS)
    requires FinishedTo(c, paid, s', r, kind, user, handedIn, env)
    ensures ReserveOk(c, s'.vault, s'.pool) && RandOk(c, s'.requests, s'.locks, s'.rand)
            && EscrowOk(s'.requests, s'.escrow)
  {
    hide RandOk, ReserveOk, EscrowOk, CheckCanRequest, FifoOk, Singles, OwnersOk, Mirrors, Wf, QueueInRange, Held;
    FifoOrder(s.vault, s.requests);
    ReserveAfterRequest(c, s.vault, s'.vault, s.pool);
    RandAfterRequest(c, paid, s', r, kind, user, handedIn, env);
    EscrowAfterRequest(c, s, s', r, paid.escrow);
  }

  lemma FifoOrder(v: Vault, requests: map<u64, Request>)
    requires FifoOk(v, requests)
    ensures v.nextSettleSeq <= v.nextSeq
  {
  }

  ghost predicate RerollPaid(c: Config, s: State, paid: State, user: Key, index: u32) {
    && index < c.n && index in s.owner && s.owner[index] == user
    && paid == s.(owner := s.owner[index := c.authority],
                  lamports := paid.lamports, escrow := Credit(s.escrow, s.vault.nextSeq, MINT_ESCROW_LAMPORTS))
  }

  lemma RerollShape(c: Config, s: State, user: Key, index: u32, liveMintCost: nat, env: CommitEnv) returns (paid: State)
    requires RequestReroll(c, s, user, index, liveMintCost, env).Ok?
    ensures CanCreateRequest(c, s, user, env).Ok? && CheckCanRequest(c, s.vault, s.pool).Ok?
            && env.oracle != DEFAULT_KEY
    ensures RerollPaid(c, s, paid, user, index)
    ensures var s' := RequestReroll(c, s, user, index, liveMintCost, env).value;
            s.vault.nextSeq in s'.requests
              && FinishedTo(c, paid, s', s'.requests[s.vault.nextSeq], Reroll, user, index, env)
  {
    hide FinishRequest, PayLamports, FinishedTo, CheckCanRequest;
    var s1 := s.(owner := Transfer(s.owner, index, user, c.authority).value);
    PayShape(c, s1, user, liveMintCost);
    paid := PayLamports(c, s1, user, liveMintCost).value;
    FinishShape(c, paid, Reroll, user, index, env);
  }

  lemma RerollKeepsAssets(c: Config, s: State, paid: State, s': State, r: Request, user: Key, index: u32,
                          env: CommitEnv)
    requires FifoOk(s.vault, s.requests) && AssetsOk(c, s.vault, s.pool, s.requests, s.owner) && user != c.authority
    requires RerollPaid(c, s, paid, user, index) && FinishedTo(c, paid, s', r, Reroll, user, index, env)
    ensures FifoOk(s'.vault, s'.requests) && AssetsOk(c, s'.vault, s'.pool, s'.requests, s'.owner)
    ensures Owed(s'.vault) == Owed(s.vault)
  {
    hide Singles, OwnersOk, Held, CountsOk, Contents, Mirrors;
    HeldAfterRequest(s.vault, s.requests, s'.vault, r);
    RequestCounts(c, s.vault, s'.vault, s.pool, Held(s.vault, s.requests), r);
    var inside := Inside(s.vault, s.pool, s.requests);
    assert Inside(s'.vault, s'.pool, s'.requests) == inside + multiset{index};
    OwnersAfterEntry(c.n, c.authority, inside, Contents(s.pool), s.pool.minted, s.owner, inside + multiset{index},
                     Contents(s.pool), index);
  }

  lemma RerollKeepsInv(c: Config, s: State, user: Key, index: u32, liveMintCost: nat, env: CommitEnv)
    requires Inv(c, s) && RequestReroll(c, s, user, index, liveMintCost, env).Ok?
    ensures Inv(c, RequestReroll(c, s, user, index, liveMintCost, env).value)
  {
    hide RequestReroll, ReserveOk, RandOk, AssetsOk, ConfigOk, PoolOk, EscrowOk, CheckCanRequest, FinishedTo, Solvent;
    var paid := RerollShape(c, s, user, index, liveMintCost, env);
    var s' := RequestReroll(c, s, user, index, liveMintCost, env).value;
    var r := s'.requests[s.vault.nextSeq];
    RequestKeepsRest(c, s, paid, s', r, Reroll, user, index, env);
    RerollKeepsAssets(c, s, paid, s', r, user, index, env);
    FinishedFrame(c, paid, s', r, Reroll, user, index, env);
    SameOwed(c, s.vault, s'.vault, s.vaultTokens);
  }

  // ----- randomness of a pending request

  /** A pending request changed together with its randomness account; kind, hand-in, user and account stay. */
  ghost predicate SameDraw(r: Request, r': Request) {
    r' == r.(seedSlot := r'.seedSlot, deadlineSlot := r'.deadlineSlot, commits := r'.commits, oracles := r'.oracles,
             revealed := r'.revealed, value := r'.value)
  }

  lemma RandAfterUpdate(c: Config, s: State, q: u64, r': Request, account: Randomness)
    requires FifoOk(s.vault, s.requests) && RandOk(c, s.requests, s.locks, s.rand) && q in s.requests
    requires SameDraw(s.requests[q], r') && CommitsOk(r') && Mirrors(c, r', account)
    ensures RandOk(c, s.requests[q := r'], s.locks, s.rand[r'.randomness := account])
  {
    hide CommitsOk, Mirrors, FifoOk;
    var requests', rand' := s.requests[q := r'], s.rand[r'.randomness := account];
    assert RequestOk(c, s.requests[q], s.rand, s.locks);
    forall p: u64 | p in requests'
      ensures requests'[p].seqNo == p && RequestOk(c, requests'[p], rand', s.locks)
    {
      assert s.requests[p].seqNo == p && RequestOk(c, s.requests[p], s.rand, s.locks);
    }
  }

  /** Updating a pending request and its account keeps everything else. */
  lemma UpdateKeepsInv(c: Config, s: State, s': State, q: u64, r': Request, account: Randomness)
    requires Inv(c, s) && q in s.requests
    requires SameDraw(s.requests[q], r') && CommitsOk(r') && Mirrors(c, r', account)
    requires s' == s.(vault := s'.vault, requests := s.requests[q := r'], rand := s.rand[r'.randomness := account])
    requires s'.vault == s.vault.(totalRecommits := s'.vault.totalRecommits)
    ensures Inv(c, s')
  {
    hide RandOk, ConfigOk, PoolOk, Singles, OwnersOk, CommitsOk, Mirrors, HeldFrom;
    assert s.requests[q].seqNo == q;
    RandAfterUpdate(c, s, q, r', account);
    HeldAfterUpdate(s.vault, s.requests, q, r');
    assert Held(s'.vault, s'.requests) == Held(s.vault, s.requests);
  }

  /** Revealing records the value that the account now shows, once. */
  ghost predicate RevealedTo(s: State, s': State, q: u64, revealSlot: u64, value: Digest) {
    && q in s.requests && !s.requests[q].revealed && s.requests[q].randomness in s.rand
    && var r := s.requests[q];
       var account := s.rand[r.randomness];
    && account.seedSlot == r.seedSlot && account.revealSlot <= r.seedSlot < revealSlot
    && s' == s.(rand := s.rand[r.randomness := account.(revealSlot := revealSlot, value := value)],
                requests := s.requests[q := r.(revealed := true, value := value)])
  }

  lemma RevealShape(s: State, q: u64, seedSlot: u64, revealSlot: u64, value: Digest)
    requires Reveal(s, q, seedSlot, revealSlot, value).Ok?
    ensures RevealedTo(s, Reveal(s, q, seedSlot, revealSlot, value).value, q, revealSlot, value)
  {
  }

  lemma RevealKeepsInv(c: Config, s: State, q: u64, seedSlot: u64, revealSlot: u64, value: Digest)
    requires Inv(c, s) && Reveal(s, q, seedSlot, revealSlot, value).Ok?
    ensures Inv(c, Reveal(s, q, seedSlot, revealSlot, value).value)
  {
    hide Reveal, FifoOk, AssetsOk, PoolOk, ConfigOk, ReserveOk, Solvent, EscrowOk;
    RevealShape(s, q, seedSlot, revealSlot, value);
    var r := s.requests[q];
    assert RequestOk(c, r, s.rand, s.locks);
    UpdateKeepsInv(c, s, Reveal(s, q, seedSlot, revealSlot, value).value, q, r.(revealed := true, value := value),
                   s.rand[r.randomness].(revealSlot := revealSlot, value := value));
  }

  /** A re-commit starts a new wait with one more, different oracle. */
  ghost predicate RecommittedTo(c: Config, s: State, s': State, q: u64, r': Request, account: Randomness) {
    && q in s.requests && SameDraw(s.requests[q], r')
    && var r := s.requests[q];
    && !r.revealed && !r'.revealed && s.slot > r.deadlineSlot && r.commits <= MAX_RECOMMITS
    && r'.commits == r.commits + 1 && r'.deadlineSlot == s.slot + REVEAL_TIMEOUT_SLOTS && r'.seedSlot + 1 == s.slot
    && r'.oracles == r.oracles[r.commits := r'.oracles[r.commits]]
    && r'.oracles[r.commits] != DEFAULT_KEY && r'.oracles[r.commits] !in r.oracles[..r.commits]
    && Mirrors(c, r', account)
    && s' == s.(vault := s'.vault, requests := s.requests[q := r'], rand := s.rand[r'.randomness := account])
    && s'.vault == s.vault.(totalRecommits := s'.vault.totalRecommits)
  }

  lemma RecommitShape(c: Config, s: State, q: u64, env: CommitEnv)
    requires Recommit(c, s, q, env).Ok?
    ensures var s' := Recommit(c, s, q, env).value;
            && q in s'.requests && env.randomness in s'.rand
            && RecommittedTo(c, s, s', q, s'.requests[q], s'.rand[env.randomness])
  {
    hide Commit;
    CommitShape(c, s, env, q, s.requests[q].oracles[..s.requests[q].commits]);
  }

  lemma CommitsAfterRecommit(r: Request, r': Request)
    requires CommitsOk(r) && r.commits <= MAX_RECOMMITS && r'.commits == r.commits + 1
    requires r'.oracles == r.oracles[r.commits := r'.oracles[r.commits]]
    requires r'.oracles[r.commits] != DEFAULT_KEY && r'.oracles[r.commits] !in r.oracles[..r.commits]
    ensures CommitsOk(r')
  {
    forall j, k | 0 <= j < k < r'.commits
      ensures r'.oracles[j] != r'.oracles[k]
    {
      assert r.oracles[..r.commits][j] == r.oracles[j];
    }
  }

  lemma RecommitKeepsInv(c: Config, s: State, q: u64, env: CommitEnv)
    requires Inv(c, s) && Recommit(c, s, q, env).Ok?
    ensures Inv(c, Recommit(c, s, q, env).value)
  {
    hide Recommit, FifoOk, AssetsOk, PoolOk, ConfigOk, ReserveOk, Solvent, EscrowOk, Mirrors;
    RecommitShape(c, s, q, env);
    var s' := Recommit(c, s, q, env).value;
    assert RequestOk(c, s.requests[q], s.rand, s.locks);
    CommitsAfterRecommit(s.requests[q], s'.requests[q]);
    UpdateKeepsInv(c, s, s', q, s'.requests[q], s'.rand[env.randomness]);
  }

  // ----- everything else

  lemma OpenKeepsInv(c: Config, s: State, collection: Collection, graduated: bool)
    requires Inv(c, s) && OpenVault(c, s, collection, graduated).Ok?
    ensures Inv(c, OpenVault(c, s, collection, graduated).value)
  {
    hide ConfigOk, PoolOk, FifoOk, AssetsOk, RandOk, EscrowOk, PoolFloor;
    SameAssets(c, s.vault, OpenVault(c, s, collection, graduated).value.vault, s.pool, s.requests, s.owner);
  }

  /** The asset accounting reads only these counters of the vault. */
  lemma SameAssets(c: Config, v: Vault, v': Vault, pool: PoolState, requests: map<u64, Request>, owner: map<u32, Key>)
    requires FifoOk(v, requests) && AssetsOk(c, v, pool, requests, owner)
    requires v'.nextSeq == v.nextSeq && v'.nextSettleSeq == v.nextSettleSeq && v'.mintedCount == v.mintedCount
    requires v'.assetsOutside == v.assetsOutside && v'.pendingCaptures == v.pendingCaptures
             && v'.pendingRerolls == v.pendingRerolls
    ensures FifoOk(v', requests) && AssetsOk(c, v', pool, requests, owner)
  {
    hide Singles, OwnersOk, HeldFrom, Contents;
    assert Held(v', requests) == Held(v, requests);
  }

  lemma InitRandomnessKeepsInv(c: Config, s: State, key: Key, account: Randomness)
    requires Inv(c, s) && InitRandomness(c, s, key, account).Ok?
    ensures Inv(c, InitRandomness(c, s, key, account).value)
  {
    hide ConfigOk, PoolOk, AssetsOk, FifoOk, ReserveOk, Solvent, EscrowOk;
    RandAfterOther(c, s, key, account);
  }

  /** An account no pending request uses can change freely. */
  lemma RandAfterOther(c: Config, s: State, key: Key, account: Randomness)
    requires RandOk(c, s.requests, s.locks, s.rand)
    requires key in s.rand ==> s.rand[key].authority != c.randomnessAuthority
    ensures RandOk(c, s.requests, s.locks, s.rand[key := account])
  {
    hide CommitsOk;
    forall q: u64 | q in s.requests
      ensures s.requests[q].seqNo == q && RequestOk(c, s.requests[q], s.rand[key := account], s.locks)
    {
      assert s.requests[q].seqNo == q && RequestOk(c, s.requests[q], s.rand, s.locks);
    }
  }

  lemma OwnersAfterOutsideMove(n: u32, authority: Key, inside: multiset<u32>, contents: multiset<u32>,
                               minted: set<u32>, owner: map<u32, Key>, i: u32, to: Key)
    requires OwnersOk(n, authority, inside, contents, minted, owner) && i in owner && owner[i] != authority
    ensures OwnersOk(n, authority, inside, contents, minted, owner[i := to])
    ensures OwnersOk(n, authority, inside, contents, minted, owner - {i})
  {
  }

  lemma OutsideKeepsInv(c: Config, s: State, step: Step)
    requires IsOutside(step)
    requires Inv(c, s) && Outside(c, s, step).Ok?
    ensures Inv(c, Outside(c, s, step).value)
  {
    hide ConfigOk, PoolOk, FifoOk, ReserveOk, RandOk, Singles, OwnersOk, CountsOk;
    match step
    case MoveAsset(index, from, to) =>
      OwnersAfterOutsideMove(c.n, c.authority, Inside(s.vault, s.pool, s.requests), Contents(s.pool), s.pool.minted,
                             s.owner, index, to);
    case BurnAsset(index, from) =>
      OwnersAfterOutsideMove(c.n, c.authority, Inside(s.vault, s.pool, s.requests), Contents(s.pool), s.pool.minted,
                             s.owner, index, 0);
    case OtherRandomness(key, account) =>
      RandAfterOther(c, s, key, account);
    case _ =>
  }

  // ----- all steps, all runs

  /** Every step that its own guards accept keeps the invariant. */
  lemma CoreKeepsInv(c: Config, s: State, step: Step)
    requires Inv(c, s) && Core(c, s, step).Ok?
    ensures Inv(c, Core(c, s, step).value)
  {
    hide Inv, OpenVault, RequestCapture, RequestReroll, Reveal, Recommit, Settle, ExpireOne, ExpireGroups, Unwrap,
         MergeIncoming, InitRandomness, Outside;
    match step
    case DoOpen(collection, graduated) => OpenKeepsInv(c, s, collection, graduated);
    case DoCapture(user, liveMintCost, env) => CaptureKeepsInv(c, s, user, liveMintCost, env);
    case DoReroll(user, index, liveMintCost, env) => RerollKeepsInv(c, s, user, index, liveMintCost, env);
    case DoReveal(seqNo, seedSlot, revealSlot, value) => RevealKeepsInv(c, s, seqNo, seedSlot, revealSlot, value);
    case DoRecommit(seqNo, env) => RecommitKeepsInv(c, s, seqNo, env);
    case DoSettle(args) => SettleKeepsInv(c, s, args);
    case DoExpire(seqNo, asset) => ExpireOneKeepsInv(c, s, seqNo, asset);
    case DoExpireBatch(count, groups) => ExpireGroupsKeepInv(c, s, groups);
    case DoUnwrap(user, index) => UnwrapKeepsInv(c, s, user, index);
    case DoMerge(max) => MergeKeepsInv(c, s, max);
    case DoInitRandomness(key, account) => InitRandomnessKeepsInv(c, s, key, account);
    case _ => OutsideKeepsInv(c, s, step);
  }

  /** The final check rejects nothing: a step succeeds exactly when its own guards do, with the same result. */
  lemma CheckIsRedundant(c: Config, s: State, step: Step)
    requires Inv(c, s)
    ensures Apply(c, s, step) == Core(c, s, step)
  {
    hide Inv, Core, Check;
    if Core(c, s, step).Ok? {
      CoreKeepsInv(c, s, step);
      CheckNeverRejects(c, Core(c, s, step).value);
    }
  }

  /**
   The final check guards even states that no run can reach: whatever the state before, an instruction that ends with it
   leaves tokens for every unit owed and every index accounted for.
   */
  lemma SuccessIsChecked(c: Config, s: State, step: Step)
    requires step.DoOpen? || step.DoCapture? || step.DoReroll? || step.DoSettle? || step.DoExpire?
             || step.DoExpireBatch? || step.DoUnwrap?
    requires Apply(c, s, step).Ok?
    ensures var s' := Apply(c, s, step).value;
            var v := s'.vault;
            && c.ratio * (v.assetsOutside + v.pendingCaptures + v.pendingRerolls) <= s'.vaultTokens
            && |s'.pool.slots| + |s'.pool.queue| + v.pendingRerolls + v.assetsOutside == c.n
            && v.assetsOutside + v.pendingRerolls <= v.mintedCount <= c.n
  {
    hide Core, Check;
    var s' := Apply(c, s, step).value;
    CheckAcceptsExactly(c, s'.vault, s'.pool, s'.vaultTokens);
  }

  lemma NextKeepsInv(c: Config, s: State, step: Step)
    requires Inv(c, s)
    ensures Inv(c, Next(c, s, step))
  {
    hide Inv, Core, Check;
    CheckIsRedundant(c, s, step);
    if Core(c, s, step).Ok? {
      CoreKeepsInv(c, s, step);
    }
  }

  /** The invariant holds after every run. */
  lemma {:induction false} ExecKeepsInv(c: Config, s: State, steps: seq<Step>)
    requires Inv(c, s)
    ensures Inv(c, Exec(c, s, steps))
    decreases |steps|
  {
    hide Inv, Next;
    if steps != [] {
      NextKeepsInv(c, s, steps[0]);
      ExecKeepsInv(c, Next(c, s, steps[0]), steps[1..]);
    }
  }
}
