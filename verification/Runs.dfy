/** What holds after every run: where each index is, and solvency to the token. */
module Runs {
  import opened Base
  import opened Arithmetic
  import opened Pool
  import opened Vault
  import opened Accounting
  import opened Invariant
  import opened Preservation
  import Launch

  // ----- where every index is

  /** The indices the vault does not hold. */
  ghost function OutsideSet(c: Config, s: State): set<u32>
    requires FifoOk(s.vault, s.requests)
  {
    set i | i in All(c.n) && i !in Inside(s.vault, s.pool, s.requests)
  }

  /**
   Exact partition: each index is once in the pool, or once in the queue, or once a hand-in, or
   outside, and only one of these; each part is as large as its counter; what is outside or held has been
   minted; a minted asset inside belongs to the vault; an asset someone else owns is outside.
   */
  lemma ExactPartition(c: Config, s: State)
    requires Inv(c, s)
    ensures forall i: u32 :: i < c.n ==>
              multiset(s.pool.slots)[i] + multiset(Indices(s.pool.queue))[i] + Held(s.vault, s.requests)[i]
              + (if i in OutsideSet(c, s) then 1 else 0) == 1
    ensures forall i: u32 :: i >= c.n ==> i !in Inside(s.vault, s.pool, s.requests) && i !in s.owner
    ensures |OutsideSet(c, s)| == s.vault.assetsOutside && |Held(s.vault, s.requests)| == s.vault.pendingRerolls
    ensures OutsideSet(c, s) <= s.pool.minted
    ensures forall i: u32 :: i in Held(s.vault, s.requests) ==> i in s.pool.minted
    ensures forall i: u32 :: i in s.pool.minted && i in Inside(s.vault, s.pool, s.requests) ==>
              i in s.owner && s.owner[i] == c.authority
    ensures forall i: u32 :: i in s.owner && s.owner[i] != c.authority ==> i in OutsideSet(c, s)
  {
    hide ReserveOk, RandOk, EscrowOk, Solvent, ConfigOk, HeldFrom;
    var inside := Inside(s.vault, s.pool, s.requests);
    forall i: u32 | i in Held(s.vault, s.requests)
      ensures i in s.pool.minted
    {
      HeldIsMinted(c.n, c.authority, Contents(s.pool), Held(s.vault, s.requests), s.pool.minted, s.owner, i);
    }
    OutsideSize(c.n, inside, OutsideSet(c, s));
    ContentsSize(s.pool);
  }

  lemma OutsideSize(n: u32, inside: multiset<u32>, outside: set<u32>)
    requires Singles(n, inside) && outside == set i | i in All(n) && i !in inside
    ensures |outside| == n - |inside|
  {
    var kept := All(n) - outside;
    SingletonsSize(inside, kept);
    AllSize(n);
    assert kept + outside == All(n);
  }

  /** A re-roll never gives its own hand-in back. */
  lemma RerollNeverReturnsHandIn(c: Config, s: State, args: SettleArgs)
    requires Inv(c, s) && Apply(c, s, DoSettle(args)).Ok? && args.kind == Reroll
    ensures args.seqNo in s.requests && args.asset != s.requests[args.seqNo].handedIn
    ensures s.requests[args.seqNo].handedIn in Contents(Apply(c, s, DoSettle(args)).value.pool)
  {
    hide Inv, Settle, Check, Draw, PoolOk, AssetsOk, FifoOk;
    assert FifoOk(s.vault, s.requests) && PoolOk(c, s.pool) && AssetsOk(c, s.vault, s.pool, s.requests, s.owner) by {
      InvParts(c, s);
    }
    CheckIsRedundant(c, s, DoSettle(args));
    SettleShape(c, s, args);
    SettleHeadKind(c, s, args);
    RerollDraw(c, s, args);
  }

  lemma InvParts(c: Config, s: State)
    requires Inv(c, s)
    ensures PoolOk(c, s.pool) && FifoOk(s.vault, s.requests) && AssetsOk(c, s.vault, s.pool, s.requests, s.owner)
    ensures ReserveOk(c, s.vault, s.pool) && RandOk(c, s.requests, s.locks, s.rand) && EscrowOk(s.requests, s.escrow)
  {
  }

  lemma SettleHeadKind(c: Config, s: State, args: SettleArgs)
    requires Settle(c, s, args).Ok? && args.seqNo in s.requests
    ensures s.requests[args.seqNo].kind == args.kind
  {
    hide Draw, HandOver;
  }

  lemma RerollDraw(c: Config, s: State, args: SettleArgs)
    requires PoolOk(c, s.pool) && FifoOk(s.vault, s.requests) && AssetsOk(c, s.vault, s.pool, s.requests, s.owner)
    requires s.vault.nextSettleSeq in s.requests && args.seqNo == s.vault.nextSettleSeq
    requires var r := s.requests[args.seqNo];
             && r.kind == Reroll && Draw(c, s.pool, r).Ok? && args.asset == Draw(c, s.pool, r).value.1
             && Settle(c, s, args).Ok?
             && SettledTo(c, s, Settle(c, s, args).value, r, Draw(c, s.pool, r).value.0, Draw(c, s.pool, r).value.1)
    ensures args.asset != s.requests[args.seqNo].handedIn
    ensures s.requests[args.seqNo].handedIn in Contents(Settle(c, s, args).value.pool)
  {
    hide Settle, Draw, AssetsOk, Contents;
    var r := s.requests[args.seqNo];
    var (after, picked) := Draw(c, s.pool, r).value;
    HeadHandIn(c, s.vault, s.pool, s.requests, s.owner);
    DrawIsDrawn(c, s.pool, r);
    SameContents(after, Settle(c, s, args).value.pool);
    HandInArrives(Contents(after), picked, Contents(s.pool), r.handedIn);
  }

  lemma HandInArrives(a': multiset<u32>, x: u32, a: multiset<u32>, h: u32)
    requires a' + multiset{x} == a + multiset{h} && h !in a && x in a
    ensures h in a' && x != h
  {
    assert (a' + multiset{x})[h] == (a + multiset{h})[h];
  }

  // ----- solvency to the token

  function DonatedBy(step: Step): nat {
    if step.Donate? then step.amount else 0
  }

  function Donated(steps: seq<Step>): nat {
    if steps == [] then 0 else DonatedBy(steps[0]) + Donated(steps[1..])
  }

  /** Vault tokens beyond what is owed. */
  function Surplus(c: Config, s: State): int {
    s.vaultTokens - Times(c.ratio, Owed(s.vault))
  }

  /** Tokens and debts as two numbers, so that products stay out of sight. */
  lemma SurplusMoves(c: Config, s: State, s': State, units: int, gift: nat)
    requires -1 <= units <= 1 && Owed(s'.vault) == Owed(s.vault) + units
    requires s'.vaultTokens == s.vaultTokens + gift
             + (if units == 1 then c.ratio as int else if units == -1 then -(c.ratio as int) else 0)
    ensures Surplus(c, s') == Surplus(c, s) + gift
  {
    OneLess(c.ratio, Owed(s.vault));
  }

  lemma {:induction false} SurplusOfGroups(c: Config, s: State, groups: seq<Group>)
    requires Inv(c, s) && ExpireGroups(c, s, groups).Ok?
    ensures Surplus(c, ExpireGroups(c, s, groups).value) == Surplus(c, s)
    decreases |groups|
  {
    hide Inv, ExpireOne, Surplus;
    if groups != [] {
      ExpireOneKeepsInv(c, s, groups[0].seqNo, groups[0].asset);
      SurplusOfExpiry(c, s, groups[0].seqNo, groups[0].asset);
      SurplusOfGroups(c, ExpireOne(c, s, groups[0].seqNo, groups[0].asset).value, groups[1..]);
    }
  }

  lemma SurplusOfExpiry(c: Config, s: State, seqNo: u64, asset: u32)
    requires Inv(c, s) && ExpireOne(c, s, seqNo, asset).Ok?
    ensures Surplus(c, ExpireOne(c, s, seqNo, asset).value) == Surplus(c, s)
  {
    hide ExpireOne, FifoOk, PoolOk, AssetsOk, ReserveOk, RandOk, EscrowOk, Solvent, ConfigOk, Surplus;
    ExpireShape(c, s, seqNo, asset);
    var r := s.requests[s.vault.nextSettleSeq];
    SurplusMoves(c, s, ExpireOne(c, s, seqNo, asset).value, if r.kind == Capture then -1 else 0, 0);
  }

  lemma SurplusOfRequest(c: Config, s: State, step: Step)
    requires Inv(c, s) && (step.DoCapture? || step.DoReroll?) && Core(c, s, step).Ok?
    ensures Surplus(c, Core(c, s, step).value) == Surplus(c, s)
  {
    hide Inv, RequestCapture, RequestReroll, Surplus, FinishedTo, CheckCanRequest;
    InvParts(c, s);
    hide FifoOk, PoolOk, AssetsOk, ReserveOk, RandOk, EscrowOk;
    var s' := Core(c, s, step).value;
    if step.DoCapture? {
      var paid := CaptureShape(c, s, step.user, step.liveMintCost, step.env);
      var r := s'.requests[s.vault.nextSeq];
      CaptureKeepsAssets(c, s, paid, s', r, step.user, step.env);
      FinishedFrame(c, paid, s', r, Capture, step.user, NO_HANDED_IN, step.env);
      SurplusMoves(c, s, s', 1, 0);
    } else {
      var paid := RerollShape(c, s, step.user, step.index, step.liveMintCost, step.env);
      var r := s'.requests[s.vault.nextSeq];
      RerollKeepsAssets(c, s, paid, s', r, step.user, step.index, step.env);
      FinishedFrame(c, paid, s', r, Reroll, step.user, step.index, step.env);
      SurplusMoves(c, s, s', 0, 0);
    }
  }

  lemma SurplusOfVaultStep(c: Config, s: State, step: Step)
    requires Inv(c, s) && Core(c, s, step).Ok?
    requires step.DoSettle? || step.DoUnwrap? || step.DoReveal? || step.DoRecommit? || step.DoMerge?
    ensures Surplus(c, Core(c, s, step).value) == Surplus(c, s)
  {
    hide Inv, FifoOk, PoolOk, AssetsOk, ReserveOk, RandOk, EscrowOk, Settle, Unwrap, Recommit, Reveal, MergeIncoming,
         Surplus, Mirrors;
    InvParts(c, s);
    var s' := Core(c, s, step).value;
    match step
    case DoSettle(args) =>
      SettleShape(c, s, args);
      SurplusMoves(c, s, s', 0, 0);
    case DoUnwrap(user, index) =>
      UnwrapShape(c, s, user, index);
      SurplusMoves(c, s, s', -1, 0);
    case DoReveal(seqNo, seedSlot, revealSlot, value) =>
      RevealShape(s, seqNo, seedSlot, revealSlot, value);
      SurplusMoves(c, s, s', 0, 0);
    case DoRecommit(seqNo, env) =>
      RecommitShape(c, s, seqNo, env);
      SurplusMoves(c, s, s', 0, 0);
    case DoMerge(max) =>
      MergeKeepsInv(c, s, max);
      SurplusMoves(c, s, s', 0, 0);
  }

  lemma SurplusOfOther(c: Config, s: State, step: Step)
    requires IsOutside(step) || step.DoOpen? || step.DoInitRandomness?
    requires Core(c, s, step).Ok?
    ensures Surplus(c, Core(c, s, step).value) == Surplus(c, s) + DonatedBy(step)
  {
    hide Surplus;
    SurplusMoves(c, s, Core(c, s, step).value, 0, DonatedBy(step));
  }

  lemma SurplusOfCore(c: Config, s: State, step: Step)
    requires Inv(c, s) && Core(c, s, step).Ok?
    ensures Surplus(c, Core(c, s, step).value) == Surplus(c, s) + DonatedBy(step)
  {
    hide Inv, RequestCapture, RequestReroll, Settle, ExpireOne, ExpireGroups, Unwrap, Recommit, Reveal, MergeIncoming,
         OpenVault, InitRandomness, Outside, Surplus;
    match step
    case DoCapture(user, liveMintCost, env) => SurplusOfRequest(c, s, step);
    case DoReroll(user, index, liveMintCost, env) => SurplusOfRequest(c, s, step);
    case DoExpire(seqNo, asset) => SurplusOfExpiry(c, s, seqNo, asset);
    case DoExpireBatch(count, groups) => SurplusOfGroups(c, s, groups);
    case DoSettle(args) => SurplusOfVaultStep(c, s, step);
    case DoUnwrap(user, index) => SurplusOfVaultStep(c, s, step);
    case DoReveal(seqNo, seedSlot, revealSlot, value) => SurplusOfVaultStep(c, s, step);
    case DoRecommit(seqNo, env) => SurplusOfVaultStep(c, s, step);
    case DoMerge(max) => SurplusOfVaultStep(c, s, step);
    case _ => SurplusOfOther(c, s, step);
  }

  lemma {:induction false} SurplusOverRun(c: Config, s: State, steps: seq<Step>)
    requires Inv(c, s)
    ensures Surplus(c, Exec(c, s, steps)) == Surplus(c, s) + Donated(steps)
    decreases |steps|
  {
    hide Inv, Apply, Core, Surplus;
    if steps != [] {
      CheckIsRedundant(c, s, steps[0]);
      NextKeepsInv(c, s, steps[0]);
      if Core(c, s, steps[0]).Ok? {
        SurplusOfCore(c, s, steps[0]);
      } else {
        DonationsSucceed(c, s, steps[0]);
      }
      SurplusOverRun(c, Next(c, s, steps[0]), steps[1..]);
    }
  }

  lemma DonationsSucceed(c: Config, s: State, step: Step)
    requires Core(c, s, step).Err?
    ensures DonatedBy(step) == 0
  {
  }

  /** After any run the vault holds exactly `ratio` tokens per unit owed, plus everything ever donated. */
  lemma ExactSolvency(c: Config, s: State, steps: seq<Step>)
    requires ConfigOk(c) && Initial(c, s)
    ensures Exec(c, s, steps).vaultTokens == c.ratio * Owed(Exec(c, s, steps).vault) + Donated(steps)
    ensures Owed(Exec(c, s, steps).vault) <= c.n
  {
    hide Initial, Inv, Exec;
    InitialInv(c, s);
    SurplusOverRun(c, s, steps);
    assert Surplus(c, s) == 0 by {
      InitialOwesNothing(c, s);
    }
    ExecKeepsInv(c, s, steps);
    InvOwed(c, Exec(c, s, steps));
    TimesIsProduct(c.ratio, Owed(Exec(c, s, steps).vault));
  }

  /** `c` takes its ratio and collection size from an accepted launch. */
  ghost predicate LaunchedWith(p: Launch.LaunchParams, c: Config) {
    Launch.Validate(p).Accepted? && c.n == p.collectionSize && c.ratio == Launch.Validate(p).value.ratioBase
  }

  /** Every vault of an accepted launch is sound after every run, and no final check ever stops it. */
  lemma LaunchedVaultIsSound(p: Launch.LaunchParams, c: Config, s: State, steps: seq<Step>, step: Step)
    requires LaunchedWith(p, c) && Initial(c, s)
    ensures Inv(c, Exec(c, s, steps))
    ensures Apply(c, Exec(c, s, steps), step) == Core(c, Exec(c, s, steps), step)
    ensures Exec(c, s, steps).vaultTokens == c.ratio * Owed(Exec(c, s, steps).vault) + Donated(steps)
  {
    hide Launch.Validate, Initial, Inv, Exec, Core, Check, Owed;
    Launch.AcceptedFitsSupply(p);
    InitialInv(c, s);
    ExecKeepsInv(c, s, steps);
    CheckIsRedundant(c, Exec(c, s, steps), step);
    ExactSolvency(c, s, steps);
  }

  lemma InitialOwesNothing(c: Config, s: State)
    requires Initial(c, s)
    ensures Surplus(c, s) == 0
  {
    hide Surplus;
    assert Owed(s.vault) == 0 && s.vaultTokens == 0;
    NothingOwed(c, s);
  }

  lemma NothingOwed(c: Config, s: State)
    requires Owed(s.vault) == 0 && s.vaultTokens == 0
    ensures Surplus(c, s) == 0
  {
  }

  lemma InvOwed(c: Config, s: State)
    requires Inv(c, s)
    ensures Owed(s.vault) <= c.n
  {
    hide Solvent, ConfigOk, PoolOk, RandOk, EscrowOk, Singles, OwnersOk;
    OwedAtMostAll(c, s.vault, s.pool, Held(s.vault, s.requests));
  }

  // ----- the floor of the pool

  /** Beyond one index for each pending request, the vault keeps the floor in its pool and queue. */
  predicate FloorKept(c: Config, v: Vault, pool: PoolState) {
    |pool.slots| + |pool.queue| >= v.pendingCaptures + v.pendingRerolls + PoolFloor(c.n)
  }

  /** The same, said of the counters alone. */
  predicate FloorCounted(c: Config, v: Vault) {
    c.n >= v.assetsOutside + v.pendingCaptures + 2 * v.pendingRerolls + PoolFloor(c.n)
  }

  lemma FloorByCounters(c: Config, s: State)
    requires Inv(c, s)
    ensures FloorKept(c, s.vault, s.pool) <==> FloorCounted(c, s.vault)
  {
    hide PoolOk, ReserveOk, RandOk, EscrowOk, Solvent, ConfigOk, Singles, OwnersOk, PoolFloor;
  }

  lemma FloorAfterRequest(c: Config, s: State, step: Step)
    requires Inv(c, s) && (step.DoCapture? || step.DoReroll?) && Core(c, s, step).Ok?
    ensures FloorKept(c, Core(c, s, step).value.vault, Core(c, s, step).value.pool)
  {
    hide Inv, RequestCapture, RequestReroll, PoolFloor, Mirrors;
    if step.DoCapture? {
      var paid := CaptureShape(c, s, step.user, step.liveMintCost, step.env);
    } else {
      var paid := RerollShape(c, s, step.user, step.index, step.liveMintCost, step.env);
    }
  }

  lemma FloorAfterExpiry(c: Config, s: State, seqNo: u64, asset: u32)
    requires Inv(c, s) && ExpireOne(c, s, seqNo, asset).Ok? && FloorCounted(c, s.vault)
    ensures FloorCounted(c, ExpireOne(c, s, seqNo, asset).value.vault)
  {
    hide Inv, ExpireOne, PoolFloor;
    InvParts(c, s);
    hide FifoOk, PoolOk, AssetsOk, ReserveOk, RandOk, EscrowOk;
    ExpireShape(c, s, seqNo, asset);
  }

  lemma {:induction false} FloorAfterGroups(c: Config, s: State, groups: seq<Group>)
    requires Inv(c, s) && ExpireGroups(c, s, groups).Ok? && FloorCounted(c, s.vault)
    ensures FloorCounted(c, ExpireGroups(c, s, groups).value.vault)
    decreases |groups|
  {
    hide Inv, ExpireOne, FloorCounted;
    if groups != [] {
      ExpireOneKeepsInv(c, s, groups[0].seqNo, groups[0].asset);
      FloorAfterExpiry(c, s, groups[0].seqNo, groups[0].asset);
      FloorAfterGroups(c, ExpireOne(c, s, groups[0].seqNo, groups[0].asset).value, groups[1..]);
    }
  }

  lemma FloorAfterVaultStep(c: Config, s: State, step: Step)
    requires Inv(c, s) && Core(c, s, step).Ok? && FloorCounted(c, s.vault)
    requires step.DoSettle? || step.DoUnwrap? || step.DoReveal? || step.DoRecommit? || step.DoMerge?
    ensures FloorCounted(c, Core(c, s, step).value.vault)
  {
    hide Inv, PoolOk, AssetsOk, ReserveOk, RandOk, EscrowOk, Settle, Unwrap, Recommit, Reveal, MergeIncoming, Mirrors,
         PoolFloor;
    InvParts(c, s);
    match step
    case DoSettle(args) => SettleShape(c, s, args);
    case DoUnwrap(user, index) => UnwrapShape(c, s, user, index);
    case DoReveal(seqNo, seedSlot, revealSlot, value) => RevealShape(s, seqNo, seedSlot, revealSlot, value);
    case DoRecommit(seqNo, env) => RecommitShape(c, s, seqNo, env);
    case DoMerge(max) => MergeKeepsInv(c, s, max);
  }

  lemma FloorAfterOther(c: Config, s: State, step: Step)
    requires IsOutside(step) || step.DoOpen? || step.DoInitRandomness?
    requires Core(c, s, step).Ok? && FloorCounted(c, s.vault)
    ensures FloorCounted(c, Core(c, s, step).value.vault)
  {
    hide PoolFloor;
  }

  lemma FloorAfterCore(c: Config, s: State, step: Step)
    requires Inv(c, s) && Core(c, s, step).Ok? && FloorKept(c, s.vault, s.pool)
    ensures FloorKept(c, Core(c, s, step).value.vault, Core(c, s, step).value.pool)
  {
    hide Inv, RequestCapture, RequestReroll, Settle, ExpireOne, ExpireGroups, Unwrap, Recommit, Reveal, MergeIncoming,
         OpenVault, InitRandomness, Outside, FloorKept, FloorCounted;
    FloorByCounters(c, s);
    CoreKeepsInv(c, s, step);
    FloorByCounters(c, Core(c, s, step).value);
    match step
    case DoCapture(user, liveMintCost, env) => FloorAfterRequest(c, s, step);
    case DoReroll(user, index, liveMintCost, env) => FloorAfterRequest(c, s, step);
    case DoExpire(seqNo, asset) => FloorAfterExpiry(c, s, seqNo, asset);
    case DoExpireBatch(count, groups) => FloorAfterGroups(c, s, groups);
    case DoSettle(args) => FloorAfterVaultStep(c, s, step);
    case DoUnwrap(user, index) => FloorAfterVaultStep(c, s, step);
    case DoReveal(seqNo, seedSlot, revealSlot, value) => FloorAfterVaultStep(c, s, step);
    case DoRecommit(seqNo, env) => FloorAfterVaultStep(c, s, step);
    case DoMerge(max) => FloorAfterVaultStep(c, s, step);
    case _ => FloorAfterOther(c, s, step);
  }

  lemma {:induction false} FloorOverRun(c: Config, s: State, steps: seq<Step>)
    requires Inv(c, s) && FloorKept(c, s.vault, s.pool)
    ensures FloorKept(c, Exec(c, s, steps).vault, Exec(c, s, steps).pool)
    decreases |steps|
  {
    hide Inv, Apply, Core, FloorKept;
    if steps != [] {
      CheckIsRedundant(c, s, steps[0]);
      NextKeepsInv(c, s, steps[0]);
      if Core(c, s, steps[0]).Ok? {
        FloorAfterCore(c, s, steps[0]);
      }
      FloorOverRun(c, Next(c, s, steps[0]), steps[1..]);
    }
  }

  /**
   Nobody corners the pool: after every run of a launched vault, when every pending request has taken its index there
   remain in pool and queue at least five indices and at least a fiftieth of the collection.
   */
  lemma LaunchedVaultKeepsFloor(p: Launch.LaunchParams, c: Config, s: State, steps: seq<Step>)
    requires LaunchedWith(p, c) && Initial(c, s)
    ensures var s' := Exec(c, s, steps);
            var free := |s'.pool.slots| + |s'.pool.queue| - s'.vault.pendingCaptures - s'.vault.pendingRerolls;
            free >= 5 && 50 * free >= c.n
  {
    hide Launch.Validate, Inv, Exec;
    Launch.AcceptedFitsSupply(p);
    InitialInv(c, s);
    FloorOverRun(c, s, steps);
    var s' := Exec(c, s, steps);
    PoolFloorIsLeast(c.n, |s'.pool.slots| + |s'.pool.queue| - s'.vault.pendingCaptures - s'.vault.pendingRerolls);
  }
}
