/** When instructions succeed: leaving never fails, a revealed head can always be settled, a batch is its iteration. */
module Progress {
  import opened Base
  import opened Arithmetic
  import opened Pool
  import opened Vault
  import opened Accounting
  import opened Invariant
  import opened Preservation
  import Leaf
  import Merkle
  import History
  import Runs
  import Selection

  // ----- leaving the vault

  lemma OneIsAffordable(c: Config, v: Vault, vaultTokens: nat)
    requires Solvent(c, v, vaultTokens) && Owed(v) >= 1
    ensures c.ratio <= vaultTokens
  {
    TimesGrows(c.ratio, 1, Owed(v));
  }

  lemma OwnedOutside(c: Config, s: State, user: Key, index: u32)
    requires Inv(c, s) && user != c.authority && index in s.owner && s.owner[index] == user
    ensures index < c.n && s.vault.assetsOutside >= 1
  {
    hide Inv, Inside, Held;
    Runs.InvParts(c, s);
    Runs.ExactPartition(c, s);
    var outside := Runs.OutsideSet(c, s);
    assert index in outside;
    assert |outside| >= 1 by {
      assert outside == (outside - {index}) + {index};
    }
  }

  /**
   In every reachable state `unwrap` succeeds exactly for the owner of the asset; nothing the vault keeps can refuse it.
   */
  lemma ExitNeverFails(c: Config, s: State, user: Key, index: u32)
    requires Inv(c, s) && s.vault.totalUnwraps < U64_MAX
    ensures Apply(c, s, DoUnwrap(user, index)).Ok?
            <==> user != c.authority && index in s.owner && s.owner[index] == user
    ensures Apply(c, s, DoUnwrap(user, index)).Ok? ==>
              var s' := Apply(c, s, DoUnwrap(user, index)).value;
              && Balance(s'.tokens, user) == Balance(s.tokens, user) + c.ratio
              && s'.vaultTokens == s.vaultTokens - c.ratio
              && s'.owner == s.owner[index := c.authority]
              && s'.pool == s.pool.(queue := s.pool.queue + [Entry(index, s.vault.nextSeq)])
              && s'.requests == s.requests
  {
    hide Inv, Check, Unwrap, Solvent;
    CheckIsRedundant(c, s, DoUnwrap(user, index));
    if user != c.authority && index in s.owner && s.owner[index] == user {
      UnwrapSucceeds(c, s, user, index);
    }
    if Unwrap(c, s, user, index).Ok? {
      UnwrapShape(c, s, user, index);
    }
  }

  lemma UnwrapSucceeds(c: Config, s: State, user: Key, index: u32)
    requires Inv(c, s) && s.vault.totalUnwraps < U64_MAX
    requires user != c.authority && index in s.owner && s.owner[index] == user
    ensures Unwrap(c, s, user, index).Ok?
  {
    OwnedOutside(c, s, user, index);
    assert Solvent(c, s.vault, s.vaultTokens);
    OneIsAffordable(c, s.vault, s.vaultTokens);
    PushSucceeds(c, s, index);
    hide Inv, IncomingPush, Solvent;
  }

  lemma PushSucceeds(c: Config, s: State, index: u32)
    requires Inv(c, s) && s.vault.assetsOutside >= 1
    ensures IncomingPush(s.pool, index, s.vault.nextSeq).Ok?
  {
    hide Solvent, ConfigOk, RandOk, EscrowOk, Singles, OwnersOk, HeldFrom, Eligible, SortedTags;
  }

  // ----- settling the head

  /**
   What a settle call needs once the backlog is small: the revealed head, the drawn asset and, for a first mint,
   the committed leaf. That the pool holds something to draw is no part of it.
   */
  ghost predicate SettleReady(c: Config, s: State, args: SettleArgs) {
    && args.seqNo in s.requests && args.seqNo == s.vault.nextSettleSeq
    && var r := s.requests[args.seqNo];
       var ready := Ready(s.pool, args.seqNo);
    && r.kind == args.kind && r.revealed
    && (0 < |ready.slots| <= U32_MAX ==>
          var pos := Position(c, r.value, args.seqNo, |ready.slots|);
          pos.Some? && args.asset == ready.slots[pos.value])
    && (args.asset in s.pool.minted || MintReady(c, s, args))
    && (if r.kind == Capture then s.vault.totalCaptures < U64_MAX else s.vault.totalRerolls < U64_MAX)
  }

  /** A first mint needs the committed leaf and an escrow that covers the live cost. */
  ghost predicate MintReady(c: Config, s: State, args: SettleArgs) {
    && args.mint.Some? && Leaf.CheckLeaf(c.sha, Art(c), args.asset, args.mint.value.leaf, args.mint.value.proof).Ok?
    && args.liveMintCost <= Balance(s.escrow, args.seqNo) && args.mintSpent <= args.liveMintCost
  }

  predicate BacklogSmall(s: State) {
    Eligible(s.pool.queue, s.vault.nextSettleSeq) <= MAX_MERGE_PER_IX
  }

  /** A pending head always finds an index to draw. */
  lemma HeadFindsAsset(c: Config, s: State)
    requires Inv(c, s) && s.vault.nextSettleSeq < s.vault.nextSeq
    ensures 0 < |Ready(s.pool, s.vault.nextSettleSeq).slots| <= U32_MAX
  {
    hide Solvent, ConfigOk, RandOk, EscrowOk, AssetsOk, FifoOk, SortedTags, Eligible;
  }

  /** No index is twice in the pool that the head draws from. */
  lemma ReadyHasNoRepetition(c: Config, s: State)
    requires Inv(c, s)
    ensures var slots := Ready(s.pool, s.vault.nextSettleSeq).slots;
            forall x, y :: 0 <= x < y < |slots| ==> slots[x] != slots[y]
  {
    hide Inv, Solvent, ConfigOk, ReserveOk, RandOk, EscrowOk, OwnersOk, CountsOk, Eligible, Wf;
    Runs.InvParts(c, s);
    var e := Eligible(s.pool.queue, s.vault.nextSettleSeq);
    AdvanceContents(s.pool, e);
    SinglesAreDistinct(Ready(s.pool, s.vault.nextSettleSeq).slots, Inside(s.vault, s.pool, s.requests));
  }

  lemma SinglesAreDistinct(a: seq<u32>, m: multiset<u32>)
    requires multiset(a) <= m && forall i :: i in m ==> m[i] == 1
    ensures forall x, y :: 0 <= x < y < |a| ==> a[x] != a[y]
  {
    forall x, y | 0 <= x < y < |a|
      ensures a[x] != a[y]
    {
      if a[x] == a[y] {
        TwiceInMultiset(a, x, y);
      }
    }
  }

  lemma TwiceInMultiset(a: seq<u32>, x: nat, y: nat)
    requires x < y < |a| && a[x] == a[y]
    ensures multiset(a)[a[x]] >= 2
  {
    assert a == a[..y] + [a[y]] + a[y + 1..];
    assert a[..y][x] == a[x];
  }

  /**
   The draw of a pending head is fair: every asset of the pool it finds is picked by the same number of random blocks.
   */
  lemma HeadDrawIsFair(c: Config, s: State, i: nat, j: nat)
    requires Inv(c, s) && s.vault.nextSettleSeq < s.vault.nextSeq
    requires i < |Ready(s.pool, s.vault.nextSettleSeq).slots| && j < |Ready(s.pool, s.vault.nextSettleSeq).slots|
    ensures var slots := Ready(s.pool, s.vault.nextSettleSeq).slots;
            |slots| <= U32_MAX && |Selection.Picks(slots, slots[i])| == |Selection.Picks(slots, slots[j])|
  {
    hide Inv, Ready, Selection.Picks;
    HeadFindsAsset(c, s);
    ReadyHasNoRepetition(c, s);
    Selection.EveryAssetEquallyLikely(Ready(s.pool, s.vault.nextSettleSeq).slots, i, j);
  }

  // ----- how many blocks give each asset

  /** A hash that answers every string with `block`: under it the block of every request is `block`. */
  function Always(block: Digest): (sha: Hash)
    ensures forall x :: sha(x) == block
  {
    (x: Bytes) => block
  }

  /** The request draws `asset` when its block consists of these four words and no other block is hashed. */
  predicate Gives(c: Config, pool: PoolState, r: Request, words: seq<u64>, asset: u32)
    requires |words| == 4
  {
    var draw := Draw(c.(sha := Always(Selection.BlockOf(words))), pool, r);
    draw.Ok? && draw.value.1 == asset
  }

  /** All four-word blocks with which the request draws `asset`. */
  ghost function GivingBlocks(c: Config, pool: PoolState, r: Request, asset: u32): set<seq<u64>> {
    set x: u64, y: u64, z: u64, w: u64 |
      0 <= x <= U64_MAX && 0 <= y <= U64_MAX && 0 <= z <= U64_MAX && 0 <= w <= U64_MAX
      && Gives(c, pool, r, [x, y, z, w], asset) :: [x, y, z, w]
  }

  lemma {:induction false} AlwaysAnswers(words: seq<u64>, n: u32, budget: nat)
    requires |words| == 4 && n > 0
    ensures var block := Selection.BlockOf(words);
            Selection.Uniform(Always(block), block, n, budget) == Selection.FromBlock(words, n)
    decreases budget
  {
    hide Selection.BlockOf, Selection.WordsOf, Selection.FromBlock;
    Selection.WordsOfBlock(words);
    if budget > 0 {
      AlwaysAnswers(words, n, budget - 1);
    }
  }

  lemma GivesIsPick(c: Config, pool: PoolState, r: Request, words: seq<u64>, asset: u32)
    requires |words| == 4 && PoolOk(c, pool) && (r.kind == Reroll ==> r.handedIn < c.n)
    requires Eligible(pool.queue, r.seqNo) <= MAX_MERGE_PER_IX && 0 < |Ready(pool, r.seqNo).slots| <= U32_MAX
    ensures var slots := Ready(pool, r.seqNo).slots;
            var pos := Selection.FromBlock(words, |slots|);
            Gives(c, pool, r, words, asset) <==> pos.Some? && pos.value < |slots| && slots[pos.value] == asset
  {
    hide Draw, Eligible, Wf, QueueInRange, Selection.FromBlock, Selection.Uniform, Ready, Selection.BlockOf, Always;
    var block := Selection.BlockOf(words);
    var c' := c.(sha := Always(block));
    var slots := Ready(pool, r.seqNo).slots;
    AlwaysAnswers(words, |slots|, c.budget);
    assert Position(c', r.value, r.seqNo, |slots|) == Selection.FromBlock(words, |slots|);
    hide Position;
    if Position(c', r.value, r.seqNo, |slots|).Some? {
      DrawSucceeds(c', pool, r);
    }
    if Draw(c', pool, r).Ok? {
      DrawShape(c', pool, r);
    }
  }

  /**
   The draw itself is fair: for a pending head with a small backlog every asset of the pool it finds is handed out by
   the same number of blocks that decide alone.
   */
  lemma DrawGivesEqually(c: Config, s: State, i: nat, j: nat)
    requires Inv(c, s) && s.vault.nextSettleSeq in s.requests && BacklogSmall(s)
    requires i < |Ready(s.pool, s.vault.nextSettleSeq).slots| && j < |Ready(s.pool, s.vault.nextSettleSeq).slots|
    ensures var r, slots := s.requests[s.vault.nextSettleSeq], Ready(s.pool, s.vault.nextSettleSeq).slots;
            |GivingBlocks(c, s.pool, r, slots[i])| == |GivingBlocks(c, s.pool, r, slots[j])|
  {
    hide Inv, Ready, Gives, Selection.FromBlock, Eligible, PoolOk, FifoOk, AssetsOk, ReserveOk, RandOk, EscrowOk;
    Runs.InvParts(c, s);
    History.FifoHead(s.vault, s.requests);
    HeadFindsAsset(c, s);
    var r, slots := s.requests[s.vault.nextSettleSeq], Ready(s.pool, s.vault.nextSettleSeq).slots;
    HeadNumber(c, s);
    if r.kind == Reroll {
      HeadHandIn(c, s.vault, s.pool, s.requests, s.owner);
    }
    HeadDrawIsFair(c, s, i, j);
    GivingIsPicking(c, s.pool, r, slots[i]);
    GivingIsPicking(c, s.pool, r, slots[j]);
  }

  lemma HeadNumber(c: Config, s: State)
    requires FifoOk(s.vault, s.requests) && s.vault.nextSettleSeq in s.requests
    ensures s.requests[s.vault.nextSettleSeq].seqNo == s.vault.nextSettleSeq
  {
  }

  lemma GivingIsPicking(c: Config, pool: PoolState, r: Request, asset: u32)
    requires PoolOk(c, pool) && (r.kind == Reroll ==> r.handedIn < c.n)
    requires Eligible(pool.queue, r.seqNo) <= MAX_MERGE_PER_IX && 0 < |Ready(pool, r.seqNo).slots| <= U32_MAX
    ensures GivingBlocks(c, pool, r, asset) == Selection.Picks(Ready(pool, r.seqNo).slots, asset)
  {
    hide Gives, Eligible, PoolOk, Ready, Selection.FirstAccepted;
    forall x: u64, y: u64, z: u64, w: u64
      ensures var slots := Ready(pool, r.seqNo).slots;
              var pos := Selection.FromBlock([x, y, z, w], |slots|);
              Gives(c, pool, r, [x, y, z, w], asset) <==> pos.Some? && slots[pos.value] == asset
    {
      GivesIsPick(c, pool, r, [x, y, z, w], asset);
    }
  }

  /** Two pending requests never draw from the same block, unless their hashed strings collide. */
  lemma PendingBlocksDiffer(c: Config, s: State, p: u64, q: u64)
    requires Inv(c, s) && p in s.requests && q in s.requests && p != q
    ensures var a, b := s.requests[p], s.requests[q];
            Selection.RequestRandomness(c.sha, a.value, c.vaultKey, p)
              != Selection.RequestRandomness(c.sha, b.value, c.vaultKey, q)
            || Merkle.Collides(c.sha, {Selection.RequestString(a.value, c.vaultKey, p)},
                               {Selection.RequestString(b.value, c.vaultKey, q)})
  {
    hide Inv, Merkle.Collides, Selection.RequestRandomness, Selection.RequestString;
    var a, b := s.requests[p], s.requests[q];
    if Selection.RequestRandomness(c.sha, a.value, c.vaultKey, p)
       == Selection.RequestRandomness(c.sha, b.value, c.vaultKey, q) {
      Selection.SharedBlockBinds(c.sha, a.value, c.vaultKey, p, b.value, c.vaultKey, q);
    }
  }

  /** The draw of a revealed head succeeds exactly when the backlog is small and the position is found within budget. */
  lemma DrawSucceeds(c: Config, pool: PoolState, r: Request)
    requires PoolOk(c, pool) && (r.kind == Reroll ==> r.handedIn < c.n)
    requires Eligible(pool.queue, r.seqNo) <= MAX_MERGE_PER_IX
    requires var ready := Ready(pool, r.seqNo);
             0 < |ready.slots| <= U32_MAX && Position(c, r.value, r.seqNo, |ready.slots|).Some?
    ensures Draw(c, pool, r).Ok?
  {
    hide Position, Merge, Eligible, SortedTags;
    MergeForDraw(pool, r.seqNo);
    AdvanceWf(pool, Eligible(pool.queue, r.seqNo));
  }

  lemma DrawNeeds(c: Config, s: State, args: SettleArgs)
    requires Inv(c, s) && Settle(c, s, args).Ok?
    ensures BacklogSmall(s) && SettleReady(c, s, args)
  {
    hide Inv, Settle, Draw, HandOver, PoolOk, FifoOk, AssetsOk, ReserveOk, RandOk, EscrowOk, MintReady, Position;
    Runs.InvParts(c, s);
    SettleShape(c, s, args);
    Runs.SettleHeadKind(c, s, args);
    var r := s.requests[args.seqNo];
    if r.kind == Reroll {
      History.FifoHead(s.vault, s.requests);
      HeadHandIn(c, s.vault, s.pool, s.requests, s.owner);
    }
    HeadDraw(c, s, r);
    SettleMintArgs(c, s, args);
  }

  lemma HeadDraw(c: Config, s: State, r: Request)
    requires PoolOk(c, s.pool) && Draw(c, s.pool, r).Ok? && (r.kind == Reroll ==> r.handedIn < c.n)
    ensures Eligible(s.pool.queue, r.seqNo) <= MAX_MERGE_PER_IX
    ensures var ready := Ready(s.pool, r.seqNo);
            && 0 < |ready.slots| <= U32_MAX && Position(c, r.value, r.seqNo, |ready.slots|).Some?
            && Draw(c, s.pool, r).value.1 == ready.slots[Position(c, r.value, r.seqNo, |ready.slots|).value]
            && Draw(c, s.pool, r).value.0.minted == s.pool.minted
  {
    hide Draw, Position, Eligible, Wf, QueueInRange;
    DrawShape(c, s.pool, r);
  }

  lemma SettleMintArgs(c: Config, s: State, args: SettleArgs)
    requires Settle(c, s, args).Ok? && args.seqNo in s.requests && s.requests[args.seqNo].seqNo == args.seqNo
    requires Draw(c, s.pool, s.requests[args.seqNo]).Ok?
             && Draw(c, s.pool, s.requests[args.seqNo]).value.0.minted == s.pool.minted
    ensures args.asset in s.pool.minted || MintReady(c, s, args)
    ensures if args.kind == Capture then s.vault.totalCaptures < U64_MAX else s.vault.totalRerolls < U64_MAX
  {
    hide Draw, Leaf.CheckLeaf;
  }

  lemma HandOverSucceeds(c: Config, s: State, args: SettleArgs, after: PoolState)
    requires PoolOk(c, s.pool) && FifoOk(s.vault, s.requests) && AssetsOk(c, s.vault, s.pool, s.requests, s.owner)
    requires args.seqNo in s.requests && s.requests[args.seqNo].seqNo == args.seqNo
    requires after.minted == s.pool.minted && after.cap == c.n && args.asset in Contents(s.pool)
    requires args.asset in s.pool.minted || MintReady(c, s, args)
    requires ConfigOk(c)
    ensures HandOver(c, s.(pool := after), s.requests[args.seqNo], args.asset, args).Ok?
  {
    hide Leaf.CheckLeaf, HeldFrom, Contents, Wf, QueueInRange;
    assert args.asset in Inside(s.vault, s.pool, s.requests);
    OutsideIsMinted(c, s.vault, s.pool, s.requests, s.owner);
    hide AssetsOk, FifoOk;
  }

  /**
   A settle call succeeds exactly when the backlog is small and its arguments are right: by the reservation the pool
   is never empty then, and no accounting error can occur.
   */
  lemma SettleSucceedsExactly(c: Config, s: State, args: SettleArgs)
    requires Inv(c, s)
    ensures Apply(c, s, DoSettle(args)).Ok? <==> BacklogSmall(s) && SettleReady(c, s, args)
  {
    hide Inv, Check, Settle, BacklogSmall, SettleReady;
    CheckIsRedundant(c, s, DoSettle(args));
    if Settle(c, s, args).Ok? {
      DrawNeeds(c, s, args);
    }
    if BacklogSmall(s) && SettleReady(c, s, args) {
      SettleSucceeds(c, s, args);
    }
  }

  lemma SettleSucceeds(c: Config, s: State, args: SettleArgs)
    requires Inv(c, s) && BacklogSmall(s) && SettleReady(c, s, args)
    ensures Settle(c, s, args).Ok?
  {
    hide Inv, Draw, HandOver, PoolOk, FifoOk, AssetsOk, ReserveOk, EscrowOk, MintReady, Position, Mirrors, CommitsOk,
         Settle, CountSettled, Drawn;
    Runs.InvParts(c, s);
    var r := s.requests[args.seqNo];
    assert r.seqNo == args.seqNo && RequestOk(c, r, s.rand, s.locks);
    History.FifoHead(s.vault, s.requests);
    HeadFindsAsset(c, s);
    if r.kind == Reroll {
      HeadHandIn(c, s.vault, s.pool, s.requests, s.owner);
    }
    DrawSucceeds(c, s.pool, r);
    var (after, picked) := Draw(c, s.pool, r).value;
    PickedShape(c, s, r);
    InvConfig(c, s);
    HandOverSucceeds(c, s, args, after);
    CountSucceeds(c, s, args, after, r);
    SettleComposes(c, s, args, r);
  }

  lemma InvConfig(c: Config, s: State)
    requires Inv(c, s)
    ensures ConfigOk(c)
  {
  }

  lemma PickedShape(c: Config, s: State, r: Request)
    requires PoolOk(c, s.pool) && Draw(c, s.pool, r).Ok? && (r.kind == Reroll ==> r.handedIn < c.n)
    requires 0 < |Ready(s.pool, r.seqNo).slots| <= U32_MAX
             && Position(c, r.value, r.seqNo, |Ready(s.pool, r.seqNo).slots|).Some?
    ensures var (after, picked) := Draw(c, s.pool, r).value;
            && after.minted == s.pool.minted && after.cap == c.n && picked in Contents(s.pool)
            && picked == Ready(s.pool,
                               r.seqNo).slots[Position(c, r.value, r.seqNo, |Ready(s.pool, r.seqNo).slots|).value]
  {
    hide Draw, Position, Contents, Eligible, Wf, QueueInRange;
    DrawShape(c, s.pool, r);
    DrawIsDrawn(c, s.pool, r);
  }

  lemma CountSucceeds(c: Config, s: State, args: SettleArgs, after: PoolState, r: Request)
    requires Inv(c, s) && args.seqNo in s.requests && r == s.requests[args.seqNo]
             && r.seqNo == args.seqNo == s.vault.nextSettleSeq
    requires if r.kind == Capture then s.vault.totalCaptures < U64_MAX else s.vault.totalRerolls < U64_MAX
    requires HandOver(c, s.(pool := after), r, args.asset, args).Ok?
    ensures CountSettled(HandOver(c, s.(pool := after), r, args.asset, args).value.vault, r).Ok?
  {
    hide Inv, HandOver;
    HandOverShape(c, s.(pool := after), r, args.asset, args);
    PendingCounted(c, s);
  }

  /** The head is counted by the counter of its kind. */
  lemma PendingCounted(c: Config, s: State)
    requires Inv(c, s) && s.vault.nextSettleSeq in s.requests
    ensures s.vault.nextSettleSeq < s.vault.nextSeq && s.vault.assetsOutside <= c.n <= 10_000
    ensures if s.requests[s.vault.nextSettleSeq].kind == Capture then s.vault.pendingCaptures >= 1
            else s.vault.pendingRerolls >= 1
  {
    hide ReserveOk, RandOk, EscrowOk, Solvent, Singles, OwnersOk, Wf, QueueInRange;
    var lo, hi := s.vault.nextSettleSeq, s.vault.nextSeq;
    HeldAtMostTail(s.requests, lo, hi);
  }

  lemma {:induction false} HeldAtMost(requests: map<u64, Request>, lo: u64, hi: u64)
    requires lo <= hi && forall q: u64 :: lo <= q < hi ==> q in requests
    ensures |HeldFrom(requests, lo, hi)| <= hi - lo
    decreases hi - lo
  {
    if lo < hi {
      HeldAtMost(requests, lo + 1, hi);
      HandInSize(requests[lo]);
      hide HandIn;
    }
  }

  lemma HeldAtMostTail(requests: map<u64, Request>, lo: u64, hi: u64)
    requires lo < hi && forall q: u64 :: lo <= q < hi ==> q in requests
    ensures |HeldFrom(requests, lo, hi)| <= hi - lo - (if requests[lo].kind == Capture then 1 else 0)
    ensures requests[lo].kind == Reroll ==> |HeldFrom(requests, lo, hi)| >= 1
  {
    HeldAtMost(requests, lo + 1, hi);
    HandInSize(requests[lo]);
    hide HandIn;
  }

  lemma HandInSize(r: Request)
    ensures |HandIn(r)| == if r.kind == Capture then 0 else 1
  {
  }

  lemma SettleComposes(c: Config, s: State, args: SettleArgs, r: Request)
    requires SettleHead(s, args) == Ok(r) && Draw(c, s.pool, r).Ok? && args.asset == Draw(c, s.pool, r).value.1
    requires HandOver(c, s.(pool := Draw(c, s.pool, r).value.0), r, args.asset, args).Ok?
    requires CountSettled(HandOver(c, s.(pool := Draw(c, s.pool, r).value.0), r, args.asset, args).value.vault, r).Ok?
    ensures Settle(c, s, args).Ok?
  {
    hide SettleHead, Draw, HandOver, CountSettled;
  }

  // ----- the merge crank makes the backlog small

  /** `n` calls of the merge crank. */
  function Cranks(n: nat): seq<Step> {
    if n == 0 then [] else [DoMerge(MAX_MERGE_PER_CRANK)] + Cranks(n - 1)
  }

  lemma AdvanceTwice(pool: PoolState, m: nat, n: nat)
    requires m + n <= |pool.queue|
    ensures Advance(Advance(pool, m), n) == Advance(pool, m + n)
  {
    hide Indices;
    var q := pool.queue;
    assert q[..m + n] == q[..m] + q[m..][..n];
    IndicesConcat(q[..m], q[m..][..n]);
    assert q[m..][n..] == q[m + n..];
    var i, j := Indices(q[..m]), Indices(q[m..][..n]);
    assert (pool.slots + i) + j == pool.slots + (i + j);
  }

  lemma PoolIsWf(c: Config, s: State)
    requires Inv(c, s)
    ensures Wf(s.pool)
  {
  }

  lemma CrankOnce(c: Config, s: State)
    requires Inv(c, s)
    ensures Next(c, s, DoMerge(MAX_MERGE_PER_CRANK))
            == s.(pool := Advance(s.pool, Min(MAX_MERGE_PER_CRANK, Eligible(s.pool.queue, s.vault.nextSettleSeq))))
  {
    hide Inv, MergeIncoming, Advance, Eligible;
    MergeKeepsInv(c, s, MAX_MERGE_PER_CRANK);
  }

  /** Cranking moves eligible entries into the pool, up to 1,024 a call, and touches nothing else. */
  lemma {:induction false} CranksMerge(c: Config, s: State, n: nat)
    requires Inv(c, s)
    ensures Exec(c, s, Cranks(n))
            == s.(pool := Advance(s.pool, Min(1024 * n, Eligible(s.pool.queue, s.vault.nextSettleSeq))))
    decreases n
  {
    hide Inv, Next, Advance, Eligible;
    if n == 0 {
      AdvanceNone(s.pool);
    } else {
      var e := Eligible(s.pool.queue, s.vault.nextSettleSeq);
      var m := Min(MAX_MERGE_PER_CRANK, e);
      CrankOnce(c, s);
      NextKeepsInv(c, s, DoMerge(MAX_MERGE_PER_CRANK));
      CranksMerge(c, s.(pool := Advance(s.pool, m)), n - 1);
      PoolIsWf(c, s);
      EligibleAfterAdvance(s.pool, m, s.vault.nextSettleSeq);
      AdvanceTwice(s.pool, m, Min(1024 * (n - 1), e - m));
      assert Cranks(n)[1..] == Cranks(n - 1);
    }
  }

  lemma AdvanceNone(pool: PoolState)
    ensures Advance(pool, 0) == pool
  {
    assert pool.slots + Indices(pool.queue[..0]) == pool.slots;
    assert pool.queue[0..] == pool.queue;
  }

  lemma EligibleAfterAdvance(pool: PoolState, m: nat, t: u64)
    requires Wf(pool) && m <= Eligible(pool.queue, t)
    ensures Eligible(Advance(pool, m).queue, t) == Eligible(pool.queue, t) - m
  {
    EligibleDrop(pool.queue, m, t);
  }

  /** After the cranks the settle call that was right before still draws the same asset, and succeeds. */
  lemma SettleAfterCranks(c: Config, s: State, args: SettleArgs, n: nat)
    requires Inv(c, s) && SettleReady(c, s, args) && |s.pool.queue| <= 1024 * n
    ensures Apply(c, Exec(c, s, Cranks(n)), DoSettle(args)).Ok?
  {
    hide Inv, SettleReady, Apply, Exec, Eligible, Advance;
    CranksMerge(c, s, n);
    var s1 := Exec(c, s, Cranks(n));
    ExecKeepsInv(c, s, Cranks(n));
    var e := Eligible(s.pool.queue, s.vault.nextSettleSeq);
    Runs.InvParts(c, s);
    assert Wf(s.pool);
    EligibleAfterAdvance(s.pool, e, s.vault.nextSettleSeq);
    AdvanceTwice(s.pool, e, 0);
    AdvanceNone(Advance(s.pool, e));
    ReadyAfterMerge(c, s, s1, args);
    SettleSucceedsExactly(c, s1, args);
  }

  lemma ReadyAfterMerge(c: Config, s: State, s1: State, args: SettleArgs)
    requires SettleReady(c, s, args) && s1 == s.(pool := Ready(s.pool, s.vault.nextSettleSeq))
    requires Ready(s1.pool, s.vault.nextSettleSeq) == Ready(s.pool, s.vault.nextSettleSeq)
    ensures SettleReady(c, s1, args)
  {
    hide Position, Leaf.CheckLeaf, Eligible;
  }

  /** The sampling for the head, from the pool it will find, ends within the budget of a transaction. */
  ghost predicate SamplingEnds(c: Config, s: State) {
    var q, n := s.vault.nextSettleSeq, |Ready(s.pool, s.vault.nextSettleSeq).slots|;
    q in s.requests && 0 < n <= U32_MAX ==> Position(c, s.requests[q].value, q, n).Some?
  }

  /** The asset that the head draws, when the sampling ends. */
  function HeadAsset(c: Config, s: State): Option<u32> {
    var q, slots := s.vault.nextSettleSeq, Ready(s.pool, s.vault.nextSettleSeq).slots;
    if q in s.requests && 0 < |slots| <= U32_MAX then
      match Position(c, s.requests[q].value, q, |slots|)
      case Some(pos) => Some(slots[pos])
      case None => None
    else
      None
  }

  predicate UriPasses(leaf: Leaf.LeafPreimage) {
    |leaf.uri| <= Leaf.MAX_URI_LEN && Leaf.IsContentAddressed(leaf.uri)
  }

  /** The asset that the head draws exists already, or its committed URI passes the mint-time check. */
  predicate DrawAcceptable(c: Config, s: State, art: seq<Leaf.LeafPreimage>) {
    var asset := HeadAsset(c, s);
    asset.Some? ==> asset.value in s.pool.minted || (asset.value < |art| && UriPasses(art[asset.value]))
  }

  /** The lifetime counter that settling the head would raise still has room. */
  predicate RoomToSettle(s: State) {
    var q := s.vault.nextSettleSeq;
    q in s.requests ==>
      if s.requests[q].kind == Capture then s.vault.totalCaptures < U64_MAX else s.vault.totalRerolls < U64_MAX
  }

  /** All that the head's leaving depends on once it is revealed: none of it can be changed from outside. */
  ghost predicate CanSettle(c: Config, s: State, art: seq<Leaf.LeafPreimage>) {
    SamplingEnds(c, s) && RoomToSettle(s) && DrawAcceptable(c, s, art)
  }

  /** The settle call for the head, made from the committed art. */
  lemma HeadArguments(c: Config, s: State, art: seq<Leaf.LeafPreimage>, liveMintCost: nat, mintSpent: nat)
    returns (args: SettleArgs)
    requires Inv(c, s) && s.vault.nextSettleSeq in s.requests && s.requests[s.vault.nextSettleSeq].revealed
    requires Leaf.Commits(c.sha, Art(c), art) && CanSettle(c, s, art)
    requires mintSpent <= liveMintCost <= MINT_ESCROW_LAMPORTS
    ensures SettleReady(c, s, args) && args.liveMintCost == liveMintCost && args.mintSpent == mintSpent
    ensures args.mint.Some? ==> args.asset < |art| && args.mint.value.leaf == art[args.asset]
  {
    hide Inv, Position, Leaf.CheckLeaf, Leaf.Commits, Leaf.IsContentAddressed, AssetsOk, ReserveOk, RandOk, Eligible,
         Wf;
    Runs.InvParts(c, s);
    History.FifoHead(s.vault, s.requests);
    HeadFindsAsset(c, s);
    var q := s.vault.nextSettleSeq;
    var r, slots := s.requests[q], Ready(s.pool, q).slots;
    var asset := slots[Position(c, r.value, q, |slots|).value];
    var mint := None;
    if asset !in s.pool.minted {
      ReadyInRange(c, s.pool, q);
      LeafIsAccepted(c, s, art, asset);
      mint := Some(MintArgs(art[asset], Merkle.ProofOf(c.sha, Leaf.LeafHashes(c.sha, Art(c), art), asset)));
    }
    args := SettleArgs(r.kind, q, asset, mint, liveMintCost, mintSpent, 0);
  }

  lemma ReadyInRange(c: Config, pool: PoolState, q: u64)
    requires PoolOk(c, pool)
    ensures forall k :: 0 <= k < |Ready(pool, q).slots| ==> Ready(pool, q).slots[k] < c.n
  {
    hide Eligible;
    AdvanceWf(pool, Eligible(pool.queue, q));
  }

  lemma LeafIsAccepted(c: Config, s: State, art: seq<Leaf.LeafPreimage>, asset: u32)
    requires Inv(c, s) && Leaf.Commits(c.sha, Art(c), art) && asset < c.n
    requires asset < |art| && UriPasses(art[asset])
    ensures |art| <= U32_MAX
    ensures Leaf.CheckLeaf(c.sha, Art(c), asset, art[asset],
                           Merkle.ProofOf(c.sha, Leaf.LeafHashes(c.sha, Art(c), art), asset)).Ok?
  {
    hide Inv, Leaf.CheckLeaf, Leaf.IsContentAddressed;
    InvConfig(c, s);
    Leaf.CommittedLeafAccepted(c.sha, Art(c), art, asset);
  }

  /**
   A revealed head can be settled: once the merge crank has been called often enough for the length of the queue, a
   settle call made from the committed art succeeds, provided that the drawn asset exists already or its own URI passes.
   The reservation provides the asset, the escrow the cost of a first mint.
   */
  lemma RevealedHeadCanSettle(c: Config, s: State, n: nat, art: seq<Leaf.LeafPreimage>, liveMintCost: nat,
                              mintSpent: nat)
    returns (args: SettleArgs)
    requires Inv(c, s) && s.vault.nextSettleSeq in s.requests && s.requests[s.vault.nextSettleSeq].revealed
    requires |s.pool.queue| <= 1024 * n
    requires Leaf.Commits(c.sha, Art(c), art) && CanSettle(c, s, art)
    requires mintSpent <= liveMintCost <= MINT_ESCROW_LAMPORTS
    ensures args.seqNo == s.vault.nextSettleSeq && args.liveMintCost == liveMintCost && args.mintSpent == mintSpent
    ensures args.mint.Some? ==> args.asset < |art| && args.mint.value.leaf == art[args.asset]
    ensures Apply(c, Exec(c, s, Cranks(n)), DoSettle(args)).Ok?
  {
    hide Inv, Apply, Exec, Leaf.Commits, CanSettle;
    args := HeadArguments(c, s, art, liveMintCost, mintSpent);
    SettleAfterCranks(c, s, args, n);
  }

  // ----- expiring

  /** What an expire call needs. */
  ghost predicate ExpireReady(s: State, seqNo: u64, asset: u32) {
    && seqNo in s.requests && seqNo == s.vault.nextSettleSeq
    && var r := s.requests[seqNo];
    && !r.revealed && r.commits > MAX_RECOMMITS && r.deadlineSlot + EXPIRE_GRACE_SLOTS < s.slot
    && (r.kind == Reroll ==> asset == r.handedIn)
    && s.vault.totalExpired < U64_MAX
  }

  /** An expire call succeeds exactly for an unrevealed head whose time is up: the principal can always be returned. */
  lemma ExpireSucceedsExactly(c: Config, s: State, seqNo: u64, asset: u32)
    requires Inv(c, s)
    ensures Apply(c, s, DoExpire(seqNo, asset)).Ok? <==> ExpireReady(s, seqNo, asset)
  {
    hide Inv, Check, ExpireOne, ExpireReady;
    CheckIsRedundant(c, s, DoExpire(seqNo, asset));
    if ExpireOne(c, s, seqNo, asset).Ok? {
      ExpireNeeds(c, s, seqNo, asset);
    }
    if ExpireReady(s, seqNo, asset) {
      ExpireSucceeds(c, s, seqNo, asset);
    }
  }

  lemma ExpireNeeds(c: Config, s: State, seqNo: u64, asset: u32)
    requires Inv(c, s) && ExpireOne(c, s, seqNo, asset).Ok?
    ensures ExpireReady(s, seqNo, asset)
  {
    hide Inv, PoolOk, AssetsOk, ReserveOk, RandOk, EscrowOk, CloseRequest, Credit;
    Runs.InvParts(c, s);
  }

  lemma ExpireSucceeds(c: Config, s: State, seqNo: u64, asset: u32)
    requires Inv(c, s) && ExpireReady(s, seqNo, asset)
    ensures ExpireOne(c, s, seqNo, asset).Ok?
  {
    hide Inv, Solvent, ReturnPrincipal, CountExpired, PoolOk, FifoOk, AssetsOk, ReserveOk, EscrowOk, CommitsOk,
         CloseRequest;
    Runs.InvParts(c, s);
    var r := s.requests[seqNo];
    assert r.seqNo == seqNo && RequestOk(c, r, s.rand, s.locks);
    PendingCounted(c, s);
    PrincipalAvailable(c, s, asset);
    ExpiryCounts(c, s, ReturnPrincipal(c, s, r, asset).value, r);
  }

  lemma PrincipalAvailable(c: Config, s: State, asset: u32)
    requires Inv(c, s) && s.vault.nextSettleSeq in s.requests
    requires var r := s.requests[s.vault.nextSettleSeq]; r.kind == Reroll ==> asset == r.handedIn
    ensures var r := s.requests[s.vault.nextSettleSeq];
            ReturnPrincipal(c, s, r, asset).Ok? && ReturnPrincipal(c, s, r, asset).value.vault == s.vault
  {
    PendingCounted(c, s);
    var r := s.requests[s.vault.nextSettleSeq];
    if r.kind == Capture {
      assert Solvent(c, s.vault, s.vaultTokens);
      OneIsAffordable(c, s.vault, s.vaultTokens);
      hide Inv, Solvent;
    } else {
      hide Inv, Solvent;
      Runs.InvParts(c, s);
      hide FifoOk, PoolOk, AssetsOk, RandOk, ReserveOk, EscrowOk;
      HeadHandIn(c, s.vault, s.pool, s.requests, s.owner);
    }
  }

  lemma ExpiryCounts(c: Config, s: State, returned: State, r: Request)
    requires r.seqNo == s.vault.nextSettleSeq < s.vault.nextSeq && returned.vault == s.vault
             && s.vault.totalExpired < U64_MAX
    requires s.vault.assetsOutside <= c.n <= 10_000
    requires if r.kind == Capture then s.vault.pendingCaptures >= 1 else s.vault.pendingRerolls >= 1
    ensures CountExpired(returned.vault, r).Ok?
  {
  }

  // ----- a batch is its iteration

  /** One `expire` call after another with the accounts of the groups, stopping at the first that fails. */
  function ExpireEach(c: Config, s: State, groups: seq<Group>): Result<State>
    decreases |groups|
  {
    if groups == [] then Ok(s)
    else
      var _ :- Need(AccountsFit(s, groups[0]), AccountConstraint);
      var next :- Apply(c, s, DoExpire(groups[0].seqNo, groups[0].asset));
      ExpireEach(c, next, groups[1..])
  }

  lemma {:induction false} GroupsAreIterated(c: Config, s: State, groups: seq<Group>)
    requires Inv(c, s)
    ensures ExpireGroups(c, s, groups).Ok? <==> ExpireEach(c, s, groups).Ok?
    ensures ExpireEach(c, s, groups).Ok? ==> ExpireEach(c, s, groups) == ExpireGroups(c, s, groups)
    decreases |groups|
  {
    hide Inv, Check, ExpireOne, PoolOk, AssetsOk, ReserveOk, RandOk, EscrowOk, FifoOk, ExpiredTo;
    if groups != [] {
      var step := DoExpire(groups[0].seqNo, groups[0].asset);
      CheckIsRedundant(c, s, step);
      if ExpireOne(c, s, groups[0].seqNo, groups[0].asset).Ok? {
        Runs.InvParts(c, s);
        ExpireShape(c, s, groups[0].seqNo, groups[0].asset);
        ExpireOneKeepsInv(c, s, groups[0].seqNo, groups[0].asset);
        GroupsAreIterated(c, ExpireOne(c, s, groups[0].seqNo, groups[0].asset).value, groups[1..]);
      }
    }
  }

  /**
   A batch of one to seven succeeds exactly when expiring the same heads one call at a time
   would, and ends in the same state, although it runs the check once; otherwise it changes nothing.
   */
  lemma BatchIsIteration(c: Config, s: State, count: nat, groups: seq<Group>)
    requires Inv(c, s)
    ensures Apply(c, s, DoExpireBatch(count, groups)).Ok?
            <==> 1 <= count <= MAX_EXPIRE_PER_CALL && |groups| == count && ExpireEach(c, s, groups).Ok?
    ensures Apply(c, s, DoExpireBatch(count, groups)).Ok?
            ==> Apply(c, s, DoExpireBatch(count, groups)) == ExpireEach(c, s, groups)
    ensures Apply(c, s, DoExpireBatch(count, groups)).Err? ==> Next(c, s, DoExpireBatch(count, groups)) == s
  {
    hide Inv, Check, ExpireGroups, ExpireEach;
    CheckIsRedundant(c, s, DoExpireBatch(count, groups));
    GroupsAreIterated(c, s, groups);
  }
}
