/** What holds in every reachable state, and why the end-of-instruction check can never fail there. */
module Invariant {
  import opened Base
  import opened Arithmetic
  import opened Pool
  import opened Vault
  import opened Accounting

  ghost predicate PoolOk(c: Config, pool: PoolState) {
    Wf(pool) && QueueInRange(pool) && pool.cap == c.n
  }

  /** The counters count what they are named after. */
  ghost predicate CountsOk(c: Config, v: Vault, pool: PoolState, held: multiset<u32>) {
    && v.pendingRerolls == |held|
    && v.pendingCaptures + v.pendingRerolls == v.nextSeq - v.nextSettleSeq
    && |pool.slots| + |pool.queue| + v.pendingRerolls + v.assetsOutside == c.n
    && v.mintedCount == |pool.minted|
  }

  /** No index twice, none out of range. */
  ghost predicate Singles(n: u32, inside: multiset<u32>) {
    forall i: u32 :: i in inside ==> inside[i] == 1 && i < n
  }

  /**
   Only minted indices exist as assets; a minted index inside the vault belongs to the vault's
   authority; an index never minted is in the pool account.
   */
  ghost predicate OwnersOk(n: u32, authority: Key, inside: multiset<u32>, contents: multiset<u32>, minted: set<u32>,
                           owner: map<u32, Key>) {
    && (forall i: u32 :: i in owner ==> i in minted)
    && (forall i: u32 :: i in minted && i in inside ==> i in owner && owner[i] == authority)
    && (forall i: u32 :: i < n && i !in minted ==> i in contents)
  }

  /**
   Request `q` finds at least `floor` indices it may draw beyond one for itself and one for each request before it.
   */
  ghost predicate ReserveOk(c: Config, v: Vault, pool: PoolState) {
    && (forall j :: 0 <= j < |pool.queue| ==> pool.queue[j].tag <= v.nextSeq)
    && (forall q: u64 :: v.nextSettleSeq <= q < v.nextSeq
                         ==> |pool.slots| + Eligible(pool.queue, q) >= q - v.nextSettleSeq + 1 + PoolFloor(c.n))
  }

  function Owed(v: Vault): nat {
    v.assetsOutside + v.pendingCaptures + v.pendingRerolls
  }

  ghost predicate Solvent(c: Config, v: Vault, vaultTokens: nat) {
    Times(c.ratio, Owed(v)) <= vaultTokens
  }

  /** One to four commits, by pairwise different oracles, none of them the zero key. */
  ghost predicate CommitsOk(r: Request) {
    && 1 <= r.commits <= 4
    && (forall j :: 0 <= j < r.commits ==> r.oracles[j] != DEFAULT_KEY)
    && (forall j, k :: 0 <= j < k < r.commits ==> r.oracles[j] != r.oracles[k])
  }

  /** The recorded outcome of a request mirrors its randomness account. */
  ghost predicate Mirrors(c: Config, r: Request, account: Randomness) {
    && account.authority == c.randomnessAuthority && account.queue == c.queue
    && account.seedSlot == r.seedSlot
    && (r.revealed <==> account.seedSlot < account.revealSlot)
    && (r.revealed ==> r.value == account.value)
  }

  ghost predicate RequestOk(c: Config, r: Request, rand: map<Key, Randomness>, locks: map<Key, u64>) {
    && CommitsOk(r) && r.user != c.authority
    && r.randomness in rand && Mirrors(c, r, rand[r.randomness])
    && r.randomness in locks && locks[r.randomness] == r.seqNo
  }

  /** Every pending request holds the one lock on its own randomness account. */
  ghost predicate RandOk(c: Config, requests: map<u64, Request>, locks: map<Key, u64>, rand: map<Key, Randomness>) {
    && (forall q: u64 :: q in requests ==> requests[q].seqNo == q && RequestOk(c, requests[q], rand, locks))
    && (forall key: Key :: key in locks ==> locks[key] in requests && requests[locks[key]].randomness == key)
  }

  ghost predicate EscrowOk(requests: map<u64, Request>, escrow: map<u64, nat>) {
    forall q: u64 :: q in requests ==> Balance(escrow, q) >= MINT_ESCROW_LAMPORTS
  }

  /** Index accounting and ownership. */
  ghost predicate AssetsOk(c: Config, v: Vault, pool: PoolState, requests: map<u64, Request>, owner: map<u32, Key>)
    requires FifoOk(v, requests)
  {
    && CountsOk(c, v, pool, Held(v, requests))
    && Singles(c.n, Inside(v, pool, requests))
    && OwnersOk(c.n, c.authority, Inside(v, pool, requests), Contents(pool), pool.minted, owner)
  }

  ghost predicate Inv(c: Config, s: State) {
    && ConfigOk(c)
    && PoolOk(c, s.pool)
    && FifoOk(s.vault, s.requests)
    && AssetsOk(c, s.vault, s.pool, s.requests, s.owner)
    && ReserveOk(c, s.vault, s.pool)
    && Solvent(c, s.vault, s.vaultTokens)
    && RandOk(c, s.requests, s.locks, s.rand)
    && EscrowOk(s.requests, s.escrow)
  }

  // ----- the floor in numbers

  /** The floor is the least number that is at least 5 and at least a fiftieth of the collection. */
  lemma PoolFloorIsLeast(n: u32, k: nat)
    ensures PoolFloor(n) <= k <==> 5 <= k && n <= 50 * k
  {
  }

  // ----- the end-of-instruction check

  /**
   What the check accepts, in plain arithmetic: tokens for every unit owed, every index accounted for, and every index
   held or outside minted. Insolvency is reported only when the debt can be computed.
   */
  lemma CheckAcceptsExactly(c: Config, v: Vault, pool: PoolState, vaultTokens: nat)
    ensures var owed := v.assetsOutside as nat + v.pendingCaptures + v.pendingRerolls;
            && (Check(c, v, pool, vaultTokens).Ok?
                <==> && owed <= U64_MAX && c.ratio * owed <= U64_MAX && c.ratio * owed <= vaultTokens
                     && |pool.slots| + |pool.queue| + v.pendingRerolls + v.assetsOutside == c.n == pool.cap
                     && v.assetsOutside + v.pendingRerolls <= v.mintedCount <= c.n)
            && (Check(c, v, pool, vaultTokens) == Err(InsolventVault)
                <==> owed <= U64_MAX && vaultTokens < c.ratio * owed <= U64_MAX)
  {
    TimesIsProduct(c.ratio, v.assetsOutside + v.pendingCaptures + v.pendingRerolls);
    hide Times;
  }

  lemma ContentsSize(pool: PoolState)
    ensures |Contents(pool)| == |pool.slots| + |pool.queue|
  {
  }

  /** Everything outside the pool account has been minted. */
  lemma OutsideIsMinted(c: Config, v: Vault, pool: PoolState, requests: map<u64, Request>, owner: map<u32, Key>)
    requires PoolOk(c, pool) && FifoOk(v, requests) && AssetsOk(c, v, pool, requests, owner)
    ensures v.assetsOutside + v.pendingRerolls <= v.mintedCount <= c.n
  {
    hide Singles, SortedTags, Held, Inside, All;
    UnmintedSize(c.n, pool.minted, Contents(pool));
    ContentsSize(pool);
  }

  lemma UnmintedSize(n: u32, minted: set<u32>, contents: multiset<u32>)
    requires forall i: u32 :: i in minted ==> i < n
    requires forall i: u32 :: i < n && i !in minted ==> i in contents
    ensures n - |contents| <= |minted| <= n
  {
    var unminted := All(n) - minted;
    SetInsideMultiset(unminted, contents);
    AllSize(n);
    assert unminted + minted == All(n);
  }

  lemma OwedAtMostAll(c: Config, v: Vault, pool: PoolState, held: multiset<u32>)
    requires CountsOk(c, v, pool, held) && ReserveOk(c, v, pool)
    ensures Owed(v) <= c.n
  {
    var pending := v.nextSeq - v.nextSettleSeq;
    if pending > 0 {
      assert |pool.slots| + Eligible(pool.queue, v.nextSeq - 1) >= pending;
    }
  }

  /** In every state that satisfies the invariant the end-of-instruction check succeeds. */
  lemma CheckNeverRejects(c: Config, s: State)
    requires Inv(c, s)
    ensures Check(c, s.vault, s.pool, s.vaultTokens) == Ok(())
    ensures RequiredVaultTokens(s.vault, c.ratio) == Ok(Times(c.ratio, Owed(s.vault)))
    ensures Checked(c, s) == Ok(s)
  {
    hide Times, RandOk, EscrowOk, HeldFrom, SortedTags, Eligible;
    OutsideIsMinted(c, s.vault, s.pool, s.requests, s.owner);
    OwedAtMostAll(c, s.vault, s.pool, Held(s.vault, s.requests));
    TimesGrows(c.ratio, Owed(s.vault), c.n);
  }

  // ----- index accounting, one move at a time

  /** An index leaves the vault for `user`. */
  lemma OwnersAfterExit(n: u32, authority: Key, inside: multiset<u32>, contents: multiset<u32>, minted: set<u32>,
                        owner: map<u32, Key>,
                        inside': multiset<u32>, contents': multiset<u32>, i: u32, user: Key)
    requires Singles(n, inside) && OwnersOk(n, authority, inside, contents, minted, owner)
    requires inside' + multiset{i} == inside
    requires forall j: u32 :: j in contents && j != i ==> j in contents'
    ensures Singles(n, inside')
    ensures OwnersOk(n, authority, inside', contents', minted + {i}, owner[i := user])
  {
    assert inside[i] == inside'[i] + 1;
    assert forall j: u32 :: j in inside' ==> j in inside && j != i && inside'[j] <= inside[j];
  }

  /** An asset that someone other than the vault owns is outside; it enters. */
  lemma OwnersAfterEntry(n: u32, authority: Key, inside: multiset<u32>, contents: multiset<u32>, minted: set<u32>,
                         owner: map<u32, Key>,
                         inside': multiset<u32>, contents': multiset<u32>, i: u32)
    requires Singles(n, inside) && OwnersOk(n, authority, inside, contents, minted, owner)
    requires i < n && i in owner && owner[i] != authority
    requires inside' == inside + multiset{i} && contents <= contents'
    ensures i !in inside
    ensures Singles(n, inside')
    ensures OwnersOk(n, authority, inside', contents', minted, owner[i := authority])
  {
    assert forall j: u32 :: j in inside' ==> j in inside || j == i;
    assert forall j: u32 :: j in inside && j != i ==> inside'[j] == inside[j];
    assert forall j: u32 :: j in contents ==> contents'[j] >= contents[j] > 0;
  }

  /** A held index has been minted, and the vault owns it. */
  lemma HeldIsMinted(n: u32, authority: Key, contents: multiset<u32>, held: multiset<u32>, minted: set<u32>,
                     owner: map<u32, Key>, i: u32)
    requires Singles(n, contents + held) && OwnersOk(n, authority, contents + held, contents, minted, owner)
    requires i in held
    ensures i < n && i in minted && i !in contents && i in owner && owner[i] == authority
  {
    assert (contents + held)[i] == contents[i] + held[i];
  }

  // ----- reservation

  lemma ReserveAfterMerge(c: Config, v: Vault, pool: PoolState, n: nat)
    requires Wf(pool) && ReserveOk(c, v, pool) && n <= Eligible(pool.queue, v.nextSettleSeq)
    ensures ReserveOk(c, v, Advance(pool, n))
  {
    hide PoolFloor, Indices;
    var pool' := Advance(pool, n);
    forall q: u64 | v.nextSettleSeq <= q < v.nextSeq
      ensures |pool'.slots| + Eligible(pool'.queue, q) >= q - v.nextSettleSeq + 1 + PoolFloor(c.n)
    {
      EligibleMonotone(pool.queue, v.nextSettleSeq, q);
      EligibleDrop(pool.queue, n, q);
    }
  }

  /** Serving the head leaves every later request its share. */
  lemma ReserveAfterDraw(c: Config, v: Vault, v': Vault, pool: PoolState, pool': PoolState)
    requires Wf(pool) && ReserveOk(c, v, pool) && v.nextSettleSeq < v.nextSeq
    requires v'.nextSettleSeq == v.nextSettleSeq + 1 && v'.nextSeq == v.nextSeq
    requires pool'.queue == pool.queue[Eligible(pool.queue, v.nextSettleSeq)..]
    requires |pool'.slots| >= |pool.slots| + Eligible(pool.queue, v.nextSettleSeq) - 1
    ensures ReserveOk(c, v', pool')
  {
    hide PoolFloor;
    var n := Eligible(pool.queue, v.nextSettleSeq);
    forall q: u64 | v'.nextSettleSeq <= q < v'.nextSeq
      ensures |pool'.slots| + Eligible(pool'.queue, q) >= q - v'.nextSettleSeq + 1 + PoolFloor(c.n)
    {
      EligibleMonotone(pool.queue, v.nextSettleSeq, q);
      EligibleDrop(pool.queue, n, q);
    }
  }

  lemma ReserveAfterExpiry(c: Config, v: Vault, v': Vault, pool: PoolState)
    requires ReserveOk(c, v, pool) && v.nextSettleSeq < v.nextSeq
    requires v'.nextSettleSeq == v.nextSettleSeq + 1 && v'.nextSeq == v.nextSeq
    ensures ReserveOk(c, v', pool)
  {
  }

  /** A returned index is tagged for the future and takes nothing from pending requests. */
  lemma ReserveAfterUnwrap(c: Config, v: Vault, v': Vault, pool: PoolState, index: u32)
    requires ReserveOk(c, v, pool) && SortedTags(pool.queue + [Entry(index, v.nextSeq)])
    requires v'.nextSettleSeq == v.nextSettleSeq && v'.nextSeq == v.nextSeq
    ensures ReserveOk(c, v', pool.(queue := pool.queue + [Entry(index, v.nextSeq)]))
  {
    hide PoolFloor;
    forall q: u64 | v.nextSettleSeq <= q < v.nextSeq
      ensures |pool.slots| + Eligible(pool.queue + [Entry(index, v.nextSeq)], q) >= q - v.nextSettleSeq + 1
              + PoolFloor(c.n)
    {
      EligibleAppend(pool.queue, Entry(index, v.nextSeq), q);
    }
  }

  lemma AllEligible(queue: seq<Entry>, t: u64)
    requires SortedTags(queue) && forall j :: 0 <= j < |queue| ==> queue[j].tag <= t
    ensures Eligible(queue, t) == |queue|
  {
    EligibleIsAllSmallTags(queue, t);
    assert queue != [] ==> queue[|queue| - 1].tag <= t;
  }

  /** The admission check reserves an index for the new request on top of the floor. */
  lemma ReserveAfterRequest(c: Config, v: Vault, v': Vault, pool: PoolState)
    requires Wf(pool) && ReserveOk(c, v, pool) && v.nextSettleSeq <= v.nextSeq
    requires v.pendingCaptures + v.pendingRerolls == v.nextSeq - v.nextSettleSeq
    requires CheckCanRequest(c, v, pool).Ok?
    requires v'.nextSettleSeq == v.nextSettleSeq && v'.nextSeq == v.nextSeq + 1
    ensures ReserveOk(c, v', pool)
  {
    hide PoolFloor;
    AllEligible(pool.queue, v.nextSeq);
  }

  // ----- the start

  lemma InitialAssets(c: Config, s: State)
    requires Initial(c, s)
    ensures FifoOk(s.vault, s.requests) && AssetsOk(c, s.vault, s.pool, s.requests, s.owner)
  {
    var slots := s.pool.slots;
    IdentityIsSingle(slots, c.n);
    assert Contents(s.pool) == multiset(slots);
    assert Inside(s.vault, s.pool, s.requests) == multiset(slots);
  }

  lemma InitialRest(c: Config, s: State)
    requires Initial(c, s)
    ensures ReserveOk(c, s.vault, s.pool)
    ensures RandOk(c, s.requests, s.locks, s.rand) && EscrowOk(s.requests, s.escrow)
  {
  }

  lemma InitialSolvent(c: Config, s: State)
    requires Initial(c, s)
    ensures Solvent(c, s.vault, s.vaultTokens)
  {
  }

  lemma InitialInv(c: Config, s: State)
    requires ConfigOk(c) && Initial(c, s)
    ensures Inv(c, s)
  {
    assert PoolOk(c, s.pool);
    hide Initial, PoolOk, FifoOk, AssetsOk, ReserveOk, Solvent, RandOk, EscrowOk, ConfigOk;
    InitialAssets(c, s);
    InitialRest(c, s);
    InitialSolvent(c, s);
  }

  lemma {:induction false} IdentityIsSingle(slots: seq<u32>, n: u32)
    requires |slots| == n && forall i :: 0 <= i < n ==> slots[i] == i
    ensures forall i: u32 :: multiset(slots)[i] == if i < n then 1 else 0
  {
    if n > 0 {
      IdentityIsSingle(slots[..n - 1], n - 1);
      assert slots == slots[..n - 1] + [slots[n - 1]];
      assert multiset(slots) == multiset(slots[..n - 1]) + multiset{n - 1};
    }
  }
}
