/**
 How the queue moves: which calls succeed, and by which steps that anyone may take a pending request comes to its end.
 `Head` says exactly which revealed request never does.
 */
module Liveness {
  import opened Base
  import opened Pool
  import opened Vault
  import opened Accounting
  import opened Invariant
  import opened Preservation
  import opened Oracle
  import opened Progress
  import Head
  import History
  import Leaf
  import Runs

  // ----- when a reveal succeeds

  /** The randomness account of a pending request is refused exactly when the request has its value already. */
  lemma WaitsForItsValue(c: Config, s: State, q: u64)
    requires Inv(c, s) && q in s.requests
    ensures UnrevealedAccount(s, s.requests[q]).Ok? <==> !s.requests[q].revealed
  {
    hide Inv, PoolOk, FifoOk, AssetsOk, ReserveOk, EscrowOk, CommitsOk;
    Runs.InvParts(c, s);
    assert RequestOk(c, s.requests[q], s.rand, s.locks);
  }

  /**
   A reveal succeeds exactly once per request: when the oracle network answers for the seed slot of its latest commit.
   */
  lemma RevealSucceedsExactly(c: Config, s: State, q: u64, seedSlot: u64, revealSlot: u64, value: Digest)
    requires Inv(c, s)
    ensures Apply(c, s, DoReveal(q, seedSlot, revealSlot, value)).Ok?
            <==> && q in s.requests && !s.requests[q].revealed
                 && seedSlot == s.requests[q].seedSlot && seedSlot < revealSlot
    ensures Apply(c, s, DoReveal(q, seedSlot, revealSlot, value)).Ok? ==>
              Next(c, s, DoReveal(q, seedSlot, revealSlot, value)).requests
              == s.requests[q := s.requests[q].(revealed := true, value := value)]
  {
    hide Inv, UnrevealedAccount;
    if q in s.requests {
      WaitsForItsValue(c, s, q);
      PendingLock(c, s, q);
    }
  }

  lemma PendingLock(c: Config, s: State, q: u64)
    requires Inv(c, s) && q in s.requests
    ensures s.requests[q].randomness in s.locks
  {
    hide Inv, PoolOk, FifoOk, AssetsOk, ReserveOk, EscrowOk, CommitsOk, Mirrors;
    Runs.InvParts(c, s);
    assert RequestOk(c, s.requests[q], s.rand, s.locks);
  }

  // ----- when a re-commit succeeds

  /** What a re-commit needs: an overdue request with a commit left, and a commit that the oracle rules accept now. */
  ghost predicate RecommitReady(c: Config, s: State, q: u64, env: CommitEnv) {
    && q in s.requests
    && var r := s.requests[q];
    && !r.revealed && s.slot > r.deadlineSlot && r.commits <= MAX_RECOMMITS
    && env.randomness == r.randomness && env.queueKey == c.queue
    && CommitOracle(c.sha, env.queue, c.vaultKey, q, r.oracles[..r.commits], env.proofs, env.heartbeats, env.now,
                    env.oracle).Ok?
    && env.seedSlot + 1 == s.slot && env.revealSlot <= env.seedSlot
    && s.slot + REVEAL_TIMEOUT_SLOTS <= U64_MAX && s.vault.totalRecommits < U64_MAX
  }

  /**
   A re-commit succeeds exactly when it is due and its oracle is the right one: the randomness account never refuses.
   */
  lemma RecommitSucceedsExactly(c: Config, s: State, q: u64, env: CommitEnv)
    requires Inv(c, s)
    ensures Apply(c, s, DoRecommit(q, env)).Ok? <==> RecommitReady(c, s, q, env)
  {
    hide Inv, Check, Recommit, RecommitReady;
    CheckIsRedundant(c, s, DoRecommit(q, env));
    if Recommit(c, s, q, env).Ok? {
      RecommitNeeds(c, s, q, env);
    }
    if RecommitReady(c, s, q, env) {
      RecommitSucceeds(c, s, q, env);
    }
  }

  lemma RecommitNeeds(c: Config, s: State, q: u64, env: CommitEnv)
    requires Recommit(c, s, q, env).Ok?
    ensures RecommitReady(c, s, q, env)
  {
    hide CommitOracle;
  }

  lemma RecommitSucceeds(c: Config, s: State, q: u64, env: CommitEnv)
    requires Inv(c, s) && RecommitReady(c, s, q, env)
    ensures Recommit(c, s, q, env).Ok?
  {
    hide Inv, CommitOracle, PoolOk, FifoOk, AssetsOk, ReserveOk, EscrowOk;
    Runs.InvParts(c, s);
    var r := s.requests[q];
    assert RequestOk(c, r, s.rand, s.locks);
    UsedOraclesRefused(c, env, q, r.oracles[..r.commits]);
  }

  lemma UsedOraclesRefused(c: Config, env: CommitEnv, q: u64, used: seq<Key>)
    requires CommitOracle(c.sha, env.queue, c.vaultKey, q, used, env.proofs, env.heartbeats, env.now, env.oracle).Ok?
    ensures env.oracle !in used
  {
    hide Start, Place;
    CommitUsesFirstLive(c.sha, env.queue, c.vaultKey, q, used, env.proofs, env.heartbeats, env.now, env.oracle);
  }

  // ----- a network with enough live oracles

  /** What the oracle network shows in each slot: its list, the heartbeats and the time. */
  datatype Network = Network(queue: u64 -> Queue, heartbeats: u64 -> Heartbeats, now: u64 -> i64)

  ghost function LiveKeys(queue: Queue, heartbeats: Heartbeats, now: i64): set<Key>
    requires queue.len <= QUEUE_SLOTS
  {
    set i: nat | i < queue.len && Live(queue.keys[i], [], heartbeats, now) :: queue.keys[i]
  }

  /** Every listed key is an oracle account, and four of them are live: one for each commit a request can have. */
  ghost predicate EnoughLive(queue: Queue, heartbeats: Heartbeats, now: i64) {
    && 0 < queue.len <= QUEUE_SLOTS
    && (forall i: nat :: i < queue.len ==> queue.keys[i] == DEFAULT_KEY || queue.keys[i] in heartbeats)
    && |LiveKeys(queue, heartbeats, now)| >= 4
  }

  ghost predicate Responsive(net: Network) {
    forall slot: u64 :: EnoughLive(net.queue(slot), net.heartbeats(slot), net.now(slot))
  }

  ghost function KeysOf(used: seq<Key>): set<Key> {
    set k | k in used
  }

  lemma {:induction false} FewKeys(used: seq<Key>)
    ensures |KeysOf(used)| <= |used|
  {
    if used == [] {
      assert KeysOf(used) == {};
    } else {
      FewKeys(used[1..]);
      assert KeysOf(used) == KeysOf(used[1..]) + {used[0]};
    }
  }

  lemma {:induction false} SubsetSize(a: set<Key>, b: set<Key>)
    requires a <= b
    ensures |a| <= |b|
  {
    if a != {} {
      var k :| k in a;
      SubsetSize(a - {k}, b - {k});
    }
  }

  /** With at most three oracles used up, a live one is left. */
  lemma OneIsLeft(queue: Queue, heartbeats: Heartbeats, now: i64, used: seq<Key>) returns (i: nat)
    requires EnoughLive(queue, heartbeats, now) && |used| <= 3
    ensures i < queue.len && Live(queue.keys[i], used, heartbeats, now)
  {
    hide HeartbeatIsFresh;
    var live, spent := LiveKeys(queue, heartbeats, now), KeysOf(used);
    FewKeys(used);
    assert !(live <= spent) by {
      if live <= spent {
        SubsetSize(live, spent);
      }
    }
    var key :| key in live && key !in spent;
    i :| i < queue.len && Live(queue.keys[i], [], heartbeats, now) && queue.keys[i] == key;
  }

  /** The first live place in cyclic order. */
  lemma FirstLivePlace(queue: Queue, start: nat, heartbeats: Heartbeats, now: i64, used: seq<Key>) returns (step: nat)
    requires EnoughLive(queue, heartbeats, now) && |used| <= 3 && start < queue.len
    ensures step < queue.len && Live(KeyAt(queue, start, step), used, heartbeats, now)
    ensures forall earlier: nat :: earlier < step ==> !Live(KeyAt(queue, start, earlier), used, heartbeats, now)
  {
    hide LiveKeys, Live, Place;
    var i := OneIsLeft(queue, heartbeats, now, used);
    EveryPlaceVisited(queue, start, i);
    var last: nat :| last < queue.len && Place(start, last, queue.len) == i;
    assert KeyAt(queue, start, last) == queue.keys[i];
    step := 0;
    while !Live(KeyAt(queue, start, step), used, heartbeats, now)
      invariant step <= last
      invariant forall earlier: nat :: earlier < step ==> !Live(KeyAt(queue, start, earlier), used, heartbeats, now)
      decreases last - step
    {
      step := step + 1;
    }
  }

  /** The re-commit shows the network as it is in this slot. */
  predicate FromNetwork(env: CommitEnv, net: Network, slot: u64) {
    env.queue == net.queue(slot) && env.heartbeats == net.heartbeats(slot) && env.now == net.now(slot)
  }

  /** A due re-commit that the network of the present slot supports. */
  lemma OfferedCommit(c: Config, s: State, q: u64, net: Network) returns (env: CommitEnv)
    requires Responsive(net) && q in s.requests
    requires var r := s.requests[q]; !r.revealed && s.slot > r.deadlineSlot && r.commits <= MAX_RECOMMITS
    requires s.slot + REVEAL_TIMEOUT_SLOTS <= U64_MAX && s.vault.totalRecommits < U64_MAX
    ensures RecommitReady(c, s, q, env) && FromNetwork(env, net, s.slot)
  {
    hide Start, Live, LiveKeys, CommitOracle, Place;
    var r := s.requests[q];
    var queue, heartbeats, now := net.queue(s.slot), net.heartbeats(s.slot), net.now(s.slot);
    var used := r.oracles[..r.commits];
    var start := Start(c.sha, queue, c.vaultKey, q, used);
    var step := FirstLivePlace(queue, start, heartbeats, now, used);
    forall earlier: nat | earlier < step
      ensures !Stranger(KeyAt(queue, start, earlier), used, heartbeats)
    {
      assert KeyAt(queue, start, earlier) == queue.keys[Place(start, earlier, queue.len)];
    }
    FirstLiveIsReachable(c.sha, queue, c.vaultKey, q, used, heartbeats, now, step);
    env := CommitEnv(r.randomness, c.queue, KeyAt(queue, start, step), queue, heartbeats, queue.keys, now, s.slot - 1,
                     0,
                     seq(32, _ => 0));
  }

  // ----- the head can always leave

  /** The clock, or a call that anyone may make; a re-commit shows the network as it is. */
  predicate Allowed(step: Step, net: Network, slot: u64) {
    || step.Tick? || step.DoMerge? || step.DoSettle? || step.DoExpire?
    || (step.DoRecommit? && FromNetwork(step.env, net, slot))
  }

  ghost predicate Permissionless(c: Config, s: State, steps: seq<Step>, net: Network)
    decreases |steps|
  {
    steps == [] || (Allowed(steps[0], net, s.slot) && Permissionless(c, Next(c, s, steps[0]), steps[1..], net))
  }

  lemma {:induction false} InTurn(c: Config, s: State, a: seq<Step>, b: seq<Step>, net: Network)
    requires Permissionless(c, s, a, net) && Permissionless(c, Exec(c, s, a), b, net)
    ensures Permissionless(c, s, a + b, net) && Exec(c, s, a + b) == Exec(c, Exec(c, s, a), b)
    decreases |a|
  {
    hide Next;
    if a == [] {
      assert a + b == b;
    } else {
      InTurn(c, Next(c, s, a[0]), a[1..], b, net);
      assert (a + b)[1..] == a[1..] + b;
    }
  }

  lemma {:induction false} CranksPermissionless(c: Config, s: State, n: nat, net: Network)
    ensures Permissionless(c, s, Cranks(n), net)
    decreases n
  {
    hide Next;
    if n > 0 {
      CranksPermissionless(c, Next(c, s, Cranks(n)[0]), n - 1, net);
      assert Cranks(n)[1..] == Cranks(n - 1);
    }
  }

  /** Slots and lifetime counters have room for `left` more commits and an expiry. */
  predicate RoomToExpire(s: State, r: Request, left: nat) {
    && LatestSlot(s, r, left) <= U64_MAX
    && s.vault.totalRecommits + left <= U64_MAX && s.vault.totalExpired < U64_MAX
  }

  lemma TickMovesClock(c: Config, s: State, wait: nat)
    requires s.slot + wait <= U64_MAX
    ensures Next(c, s, Tick(wait)) == s.(slot := s.slot + wait)
  {
    hide Check, RequestCapture, RequestReroll, Reveal, Recommit, Settle, ExpireOne, ExpireBatch, Unwrap, MergeIncoming,
         OpenVault, InitRandomness, Transfer;
  }

  /** The clock moves on to slot `target`, unless it is past it. */
  lemma WaitUntil(c: Config, s: State, target: u64) returns (wait: nat)
    ensures Next(c, s, Tick(wait)) == s.(slot := Max(s.slot, target))
  {
    hide Next;
    wait := Max(target - s.slot, 0);
    TickMovesClock(c, s, wait);
  }

  lemma OneStep(c: Config, s: State, step: Step, net: Network)
    requires Allowed(step, net, s.slot)
    ensures Permissionless(c, s, [step], net) && Exec(c, s, [step]) == Next(c, s, step)
  {
    hide Next, Allowed;
    assert [step][1..] == [];
  }

  lemma TwoSteps(c: Config, s: State, wait: nat, step: Step, net: Network)
    requires Allowed(step, net, Next(c, s, Tick(wait)).slot)
    ensures var steps := [Tick(wait), step];
            Permissionless(c, s, steps, net) && Exec(c, s, steps) == Next(c, Next(c, s, Tick(wait)), step)
  {
    var steps := [Tick(wait), step];
    assert steps[1..] == [step];
    OneStep(c, Next(c, s, Tick(wait)), step, net);
    hide Next;
  }

  /**
   What the leaving of the head changes for the requests behind it: nothing in their records, a bounded number of slots,
   and at most one more settlement or expiry and `left` more re-commits on the counters.
   */
  ghost predicate OnlyHeadLeft(s: State, s': State, slots: nat, left: nat) {
    && s'.vault.nextSettleSeq == s.vault.nextSettleSeq + 1 && s'.vault.nextSeq == s.vault.nextSeq
    && (forall p: u64 :: p in s.requests && p > s.vault.nextSettleSeq ==>
          p in s'.requests && s'.requests[p] == s.requests[p])
    && s'.slot <= slots
    && s'.vault.totalRecommits <= s.vault.totalRecommits + left && s'.vault.totalExpired <= s.vault.totalExpired + 1
    && s'.vault.totalCaptures <= s.vault.totalCaptures + 1 && s'.vault.totalRerolls <= s.vault.totalRerolls + 1
  }

  /** The slot by which an unrevealed head with `left` commits can have left. */
  function LatestSlot(s: State, r: Request, left: nat): nat {
    Max(s.slot, r.deadlineSlot) + 9_001 * left + 216_001
  }

  /** An overdue head with no commit left expires. */
  lemma HeadExpires(c: Config, s: State, net: Network) returns (steps: seq<Step>)
    requires Inv(c, s) && s.vault.nextSettleSeq in s.requests
    requires var r := s.requests[s.vault.nextSettleSeq]; !r.revealed && r.commits == 4 && RoomToExpire(s, r, 0)
    ensures Permissionless(c, s, steps, net)
    ensures OnlyHeadLeft(s, Exec(c, s, steps), LatestSlot(s, s.requests[s.vault.nextSettleSeq], 0), 0)
  {
    hide Inv, Core, ExpireOne, Exec, Permissionless, Apply;
    var q := s.vault.nextSettleSeq;
    var r := s.requests[q];
    var wait := WaitUntil(c, s, r.deadlineSlot + EXPIRE_GRACE_SLOTS + 1);
    var s1 := Next(c, s, Tick(wait));
    NextKeepsInv(c, s, Tick(wait));
    ExpireSucceedsExactly(c, s1, q, r.handedIn);
    ExpiryMovesHead(c, s1, q, r.handedIn);
    steps := [Tick(wait), DoExpire(q, r.handedIn)];
    TwoSteps(c, s, wait, DoExpire(q, r.handedIn), net);
  }

  lemma ExpiryMovesHead(c: Config, s: State, q: u64, asset: u32)
    requires Inv(c, s) && Apply(c, s, DoExpire(q, asset)).Ok?
    ensures OnlyHeadLeft(s, Next(c, s, DoExpire(q, asset)), s.slot, 0)
  {
    hide Inv, ExpireOne, Check;
    CheckIsRedundant(c, s, DoExpire(q, asset));
    History.ExpireResolves(c, s, q, asset);
    ExpiryTotals(c, s, q, asset);
  }

  lemma ExpiryTotals(c: Config, s: State, q: u64, asset: u32)
    requires ExpireOne(c, s, q, asset).Ok?
    ensures var v := ExpireOne(c, s, q, asset).value.vault;
            && v.totalRecommits == s.vault.totalRecommits && v.totalExpired == s.vault.totalExpired + 1
            && v.totalCaptures == s.vault.totalCaptures && v.totalRerolls == s.vault.totalRerolls
  {
    hide ExpirableHead, ReturnPrincipal;
    ReturnKeepsVault(c, s, ExpirableHead(s, q).value, asset);
  }

  lemma ReturnKeepsVault(c: Config, s: State, r: Request, asset: u32)
    requires ReturnPrincipal(c, s, r, asset).Ok?
    ensures ReturnPrincipal(c, s, r, asset).value.vault == s.vault
  {
  }

  lemma SettleMovesHead(c: Config, s: State, args: SettleArgs)
    requires Inv(c, s) && Apply(c, s, DoSettle(args)).Ok?
    ensures OnlyHeadLeft(s, Next(c, s, DoSettle(args)), s.slot, 0)
  {
    hide Inv, Settle, Check;
    CheckIsRedundant(c, s, DoSettle(args));
    History.SettleResolves(c, s, args);
    SettleTotals(c, s, args);
  }

  lemma SettleTotals(c: Config, s: State, args: SettleArgs)
    requires Settle(c, s, args).Ok?
    ensures var v := Settle(c, s, args).value.vault;
            && v.totalRecommits == s.vault.totalRecommits && v.totalExpired == s.vault.totalExpired
            && v.totalCaptures <= s.vault.totalCaptures + 1 && v.totalRerolls <= s.vault.totalRerolls + 1
  {
    hide SettleHead, Draw, HandOver, CloseRequest;
    var r := SettleHead(s, args).value;
    var (pool, picked) := Draw(c, s.pool, r).value;
    HandOverShape(c, s.(pool := pool), r, picked, args);
  }

  /** A re-commit leaves the request unrevealed, with one commit more and a new deadline. */
  lemma AfterRecommit(c: Config, s: State, q: u64, env: CommitEnv)
    requires Inv(c, s) && Apply(c, s, DoRecommit(q, env)).Ok? && q in s.requests
    ensures var s', r := Next(c, s, DoRecommit(q, env)), s.requests[q];
            && q in s'.requests && !s'.requests[q].revealed && s'.requests[q].commits == r.commits + 1
            && s'.requests[q].deadlineSlot == s.slot + REVEAL_TIMEOUT_SLOTS && s'.slot == s.slot
            && s'.vault == s.vault.(totalRecommits := s.vault.totalRecommits + 1)
            && forall p: u64 :: p in s.requests && p != q ==> p in s'.requests && s'.requests[p] == s.requests[p]
  {
    hide Inv, Check, Commit;
    CheckIsRedundant(c, s, DoRecommit(q, env));
  }

  /** An unrevealed head can always leave: the remaining re-commits, each after its deadline, and then the expiry. */
  lemma {:induction false} UnrevealedHeadCanLeave(c: Config, s: State, net: Network, left: nat)
    returns (steps: seq<Step>)
    requires Inv(c, s) && s.vault.nextSettleSeq in s.requests && Responsive(net)
    requires var r := s.requests[s.vault.nextSettleSeq];
             !r.revealed && r.commits + left == 4 && RoomToExpire(s, r, left)
    ensures Permissionless(c, s, steps, net)
    ensures OnlyHeadLeft(s, Exec(c, s, steps), LatestSlot(s, s.requests[s.vault.nextSettleSeq], left), left)
    decreases left
  {
    hide Inv, Core, Exec, Permissionless, Apply, Responsive, RecommitReady, FromNetwork;
    var q := s.vault.nextSettleSeq;
    if left == 0 {
      steps := HeadExpires(c, s, net);
    } else {
      var r := s.requests[q];
      var wait := WaitUntil(c, s, r.deadlineSlot + 1);
      var s1 := Next(c, s, Tick(wait));
      NextKeepsInv(c, s, Tick(wait));
      var env := OfferedCommit(c, s1, q, net);
      var step := DoRecommit(q, env);
      RecommitSucceedsExactly(c, s1, q, env);
      AfterRecommit(c, s1, q, env);
      NextKeepsInv(c, s1, step);
      TwoSteps(c, s, wait, step, net);
      var rest := UnrevealedHeadCanLeave(c, Next(c, s1, step), net, left - 1);
      InTurn(c, s, [Tick(wait), step], rest, net);
      steps := [Tick(wait), step] + rest;
    }
  }

  /**
   A pending head can leave by steps that anyone may take: an unrevealed one by its re-commits and an expiry, a revealed
   one by merges and a settlement, unless it drew an asset that can never be minted.
   */
  lemma HeadCanLeave(c: Config, s: State, net: Network, art: seq<Leaf.LeafPreimage>, liveMintCost: nat, mintSpent: nat)
    returns (steps: seq<Step>)
    requires Inv(c, s) && s.vault.nextSettleSeq in s.requests && Responsive(net)
    requires var r := s.requests[s.vault.nextSettleSeq];
             if r.revealed then CanSettle(c, s, art) else RoomToExpire(s, r, 3)
    requires Leaf.Commits(c.sha, Art(c), art) && mintSpent <= liveMintCost <= MINT_ESCROW_LAMPORTS
    ensures Permissionless(c, s, steps, net)
    ensures OnlyHeadLeft(s, Exec(c, s, steps), LatestSlot(s, s.requests[s.vault.nextSettleSeq], 3), 3)
  {
    hide Inv, Exec, Permissionless, Apply, Responsive, CanSettle, Leaf.Commits, CommitsOk, Next, Cranks, Advance,
         Pool.Eligible;
    var q := s.vault.nextSettleSeq;
    var r := s.requests[q];
    if r.revealed {
      var n := |s.pool.queue| / 1024 + 1;
      var args := RevealedHeadCanSettle(c, s, n, art, liveMintCost, mintSpent);
      ExecKeepsInv(c, s, Cranks(n));
      CranksMerge(c, s, n);
      SettleMovesHead(c, Exec(c, s, Cranks(n)), args);
      CranksPermissionless(c, s, n, net);
      OneStep(c, Exec(c, s, Cranks(n)), DoSettle(args), net);
      InTurn(c, s, Cranks(n), [DoSettle(args)], net);
      steps := Cranks(n) + [DoSettle(args)];
    } else {
      HeadCommits(c, s);
      steps := UnrevealedHeadCanLeave(c, s, net, 4 - r.commits);
    }
  }

  lemma HeadCommits(c: Config, s: State)
    requires Inv(c, s) && s.vault.nextSettleSeq in s.requests
    ensures 1 <= s.requests[s.vault.nextSettleSeq].commits <= 4
  {
    hide Inv;
    History.PendingCommits(c, s, s.vault.nextSettleSeq);
  }

  // ----- every pending request can leave

  /**
   For each request up to `q`: deadlines up to `top`, and room for all of them to expire or settle one after another.
   */
  ghost predicate RoomUpTo(s: State, q: u64, top: nat) {
    var k := q - s.vault.nextSettleSeq + 1;
    && s.slot <= top && top + 260_000 * k <= U64_MAX
    && (forall p: u64 :: p in s.requests && p <= q ==> s.requests[p].deadlineSlot <= top)
    && s.vault.totalRecommits + 3 * k <= U64_MAX && s.vault.totalExpired + k <= U64_MAX
    && s.vault.totalCaptures + k <= U64_MAX && s.vault.totalRerolls + k <= U64_MAX
  }

  /** The sampling of every revealed request up to `q` ends within the budget, for pools of any size. */
  ghost predicate SamplingsEnd(c: Config, s: State, q: u64) {
    forall p: u64, n: u32 :: p in s.requests && p <= q && s.requests[p].revealed && n > 0 ==>
      Position(c, s.requests[p].value, p, n).Some?
  }

  ghost predicate AllUrisPass(art: seq<Leaf.LeafPreimage>) {
    forall i :: 0 <= i < |art| ==> UriPasses(art[i])
  }

  lemma HeadCanSettle(c: Config, s: State, art: seq<Leaf.LeafPreimage>, q: u64, top: nat)
    requires Inv(c, s) && s.vault.nextSettleSeq in s.requests && s.requests[s.vault.nextSettleSeq].revealed
    requires Leaf.Commits(c.sha, Art(c), art) && AllUrisPass(art)
    requires s.vault.nextSettleSeq <= q && RoomUpTo(s, q, top) && SamplingsEnd(c, s, q)
    ensures CanSettle(c, s, art)
  {
    hide Inv, Position, UriPasses, Pool.Eligible, Advance, Wf;
    Runs.InvParts(c, s);
    hide FifoOk, AssetsOk, ReserveOk, RandOk, EscrowOk;
    ReadyInRange(c, s.pool, s.vault.nextSettleSeq);
    assert |art| == c.n;
  }

  lemma RoomBehind(c: Config, s: State, s': State, q: u64, top: nat)
    requires Inv(c, s) && s.vault.nextSettleSeq in s.requests && s.vault.nextSettleSeq < q && q in s.requests
    requires Inv(c, s') && RoomUpTo(s, q, top) && SamplingsEnd(c, s, q)
    requires OnlyHeadLeft(s, s', LatestSlot(s, s.requests[s.vault.nextSettleSeq], 3), 3)
    ensures q in s'.requests && RoomUpTo(s', q, top + 260_000) && SamplingsEnd(c, s', q)
  {
    hide Inv, Position;
    forall p: u64 | p in s'.requests && p <= q
      ensures p in s.requests && s'.requests[p] == s.requests[p]
    {
      History.PendingRange(c, s', p);
      StillInQueue(c, s, p);
    }
  }

  lemma StillInQueue(c: Config, s: State, p: u64)
    requires Inv(c, s) && s.vault.nextSettleSeq <= p < s.vault.nextSeq
    ensures p in s.requests
  {
    hide Inv;
    Runs.InvParts(c, s);
  }

  lemma HeadIsPending(c: Config, s: State, q: u64)
    requires Inv(c, s) && q in s.requests
    ensures s.vault.nextSettleSeq <= q && s.vault.nextSettleSeq in s.requests
  {
    hide Inv;
    History.PendingRange(c, s, q);
    StillInQueue(c, s, s.vault.nextSettleSeq);
  }

  /**
   The queue never jams for a collection whose URIs all pass: every pending request, however many others are ahead of
   it, can be brought to its end by steps that anyone may take.
   */
  lemma {:induction false} RequestCanLeave(c: Config, s: State, net: Network, art: seq<Leaf.LeafPreimage>,
                                           liveMintCost: nat, mintSpent: nat, q: u64, top: nat)
    returns (steps: seq<Step>)
    requires Inv(c, s) && q in s.requests && s.vault.nextSettleSeq <= q && Responsive(net)
    requires Leaf.Commits(c.sha, Art(c), art) && AllUrisPass(art) && mintSpent <= liveMintCost <= MINT_ESCROW_LAMPORTS
    requires RoomUpTo(s, q, top) && SamplingsEnd(c, s, q)
    ensures Permissionless(c, s, steps, net) && Exec(c, s, steps).vault.nextSettleSeq == q + 1
    decreases q - s.vault.nextSettleSeq
  {
    hide Inv, Exec, Permissionless, Responsive, CanSettle, Leaf.Commits, SamplingsEnd, AllUrisPass;
    HeadIsPending(c, s, q);
    var r := s.requests[s.vault.nextSettleSeq];
    if r.revealed {
      HeadCanSettle(c, s, art, q, top);
    }
    steps := HeadCanLeave(c, s, net, art, liveMintCost, mintSpent);
    if s.vault.nextSettleSeq < q {
      var s1 := Exec(c, s, steps);
      ExecKeepsInv(c, s, steps);
      RoomBehind(c, s, s1, q, top);
      var rest := RequestCanLeave(c, s1, net, art, liveMintCost, mintSpent, q, top + 260_000);
      InTurn(c, s, steps, rest, net);
      steps := steps + rest;
    }
  }

  // ----- the failing input is reachable

  /** A capture that can be the first of a new vault: funds, a network that accepts its commit, and a free account. */
  ghost predicate FirstCaptureReady(c: Config, s: State, user: Key, env: CommitEnv) {
    && user != c.authority && c.n > PoolFloor(c.n)
    && Balance(s.tokens, user) >= c.ratio && Balance(s.lamports, user) >= c.fee + MINT_ESCROW_LAMPORTS
    && env.randomness !in s.rand && env.queueKey == c.queue
    && CommitOracle(c.sha, env.queue, c.vaultKey, 0, [], env.proofs, env.heartbeats, env.now, env.oracle).Ok?
    && env.seedSlot + 1 == s.slot && env.revealSlot <= env.seedSlot && s.slot + REVEAL_TIMEOUT_SLOTS <= U64_MAX
  }

  function NewAccount(c: Config): Randomness {
    Randomness(c.randomnessAuthority, c.queue, 0, 0, seq(32, _ => 0))
  }

  /** The vault once it is open. */
  function Opened(s: State): State {
    s.(vault := NEW_VAULT.(open := true, openedAtSlot := s.slot))
  }

  /** And once it has a randomness account. */
  function OpenedState(c: Config, s: State, key: Key): State {
    Opened(s).(rand := s.rand[key := NewAccount(c)])
  }

  lemma VaultOpens(c: Config, s: State)
    requires Initial(c, s)
    ensures Core(c, s, DoOpen(Collection(true, c.authority, 0, 0), true)) == Ok(Opened(s))
  {
  }

  lemma AccountIsMade(c: Config, s: State, key: Key)
    requires key !in s.rand
    ensures Core(c, s, DoInitRandomness(key, NewAccount(c))) == Ok(s.(rand := s.rand[key := NewAccount(c)]))
  {
  }

  lemma Opens(c: Config, s: State, key: Key)
    requires ConfigOk(c) && Initial(c, s) && key !in s.rand
    ensures Exec(c, s, [DoOpen(Collection(true, c.authority, 0, 0), true), DoInitRandomness(key, NewAccount(c))])
            == OpenedState(c, s, key)
  {
    hide Inv, Core, Check, Initial, ConfigOk;
    var open, account := DoOpen(Collection(true, c.authority, 0, 0), true), DoInitRandomness(key, NewAccount(c));
    InitialInv(c, s);
    VaultOpens(c, s);
    CheckIsRedundant(c, s, open);
    NextKeepsInv(c, s, open);
    AccountIsMade(c, Opened(s), key);
    CheckIsRedundant(c, Opened(s), account);
    Head.ExecThen(c, s, [open], account);
    assert [open] + [account] == [open, account];
    assert [open][1..] == [];
  }

  lemma FirstCapture(c: Config, s0: State, s: State, user: Key, env: CommitEnv)
    requires ConfigOk(c) && Initial(c, s0) && FirstCaptureReady(c, s0, user, env)
    requires s == OpenedState(c, s0, env.randomness)
    ensures RequestCapture(c, s, user, 0, env).Ok?
    ensures var s' := RequestCapture(c, s, user, 0, env).value;
            && s'.pool == s.pool && s'.vault.nextSettleSeq == 0
            && 0 in s'.requests && !s'.requests[0].revealed && s'.requests[0].seedSlot == env.seedSlot
  {
    hide CommitOracle, PoolFloor, ConfigOk;
  }

  /**
   The state that `Head.EmptyUrisJamTheQueue` speaks of is reached from a new vault by four instructions: open, create a
   randomness account, capture, reveal. Nothing is minted then, and the revealed request is the head.
   */
  lemma JamIsReachable(c: Config, s: State, user: Key, env: CommitEnv, revealSlot: u64, value: Digest)
    returns (steps: seq<Step>)
    requires ConfigOk(c) && Initial(c, s) && FirstCaptureReady(c, s, user, env) && env.seedSlot < revealSlot
    ensures var s' := Exec(c, s, steps);
            s'.pool.minted == {} && s'.vault.nextSettleSeq in s'.requests
              && s'.requests[s'.vault.nextSettleSeq].revealed
  {
    hide Inv, RequestCapture, Exec, FirstCaptureReady;
    var key := env.randomness;
    var opening := [DoOpen(Collection(true, c.authority, 0, 0), true), DoInitRandomness(key, NewAccount(c))];
    var capture, answer := DoCapture(user, 0, env), DoReveal(0, env.seedSlot, revealSlot, value);
    var s1 := OpenedState(c, s, key);
    KeyIsFree(c, s, user, env);
    Opens(c, s, key);
    FirstCapture(c, s, s1, user, env);
    InitialInv(c, s);
    ExecKeepsInv(c, s, opening);
    CheckIsRedundant(c, s1, capture);
    var s2 := Next(c, s1, capture);
    NextKeepsInv(c, s1, capture);
    RevealSucceedsExactly(c, s2, 0, env.seedSlot, revealSlot, value);
    RevealLeavesPool(c, s2, answer);
    Head.ExecThen(c, s, opening, capture);
    Head.ExecThen(c, s, opening + [capture], answer);
    steps := opening + [capture] + [answer];
  }

  lemma KeyIsFree(c: Config, s: State, user: Key, env: CommitEnv)
    requires FirstCaptureReady(c, s, user, env)
    ensures env.randomness !in s.rand
  {
  }

  lemma RevealLeavesPool(c: Config, s: State, step: Step)
    requires step.DoReveal?
    ensures Next(c, s, step).pool == s.pool && Next(c, s, step).vault == s.vault
  {
    hide UnrevealedAccount, Check;
  }
}
