/** What the head of the queue depends on while it waits, and exactly when a revealed head can leave. */
module Head {
  import opened Base
  import opened Pool
  import opened Vault
  import opened Accounting
  import opened Invariant
  import opened Preservation
  import opened History
  import opened Progress
  import BlindDraw
  import Leaf
  import Merkle
  import Runs

  // ----- a step that resolves nothing leaves the head its draw

  /** A settle call for the head finds in `s'` all that it found in `s`, and no larger backlog. */
  ghost predicate HeadStands(s: State, s': State) {
    var q := s.vault.nextSettleSeq;
    && s'.vault.nextSettleSeq == q && q in s.requests && q in s'.requests
    && (s.requests[q].revealed ==> s'.requests[q] == s.requests[q])
    && Ready(s'.pool, q).slots == Ready(s.pool, q).slots && s'.pool.minted == s.pool.minted
    && Eligible(s'.pool.queue, q) <= Eligible(s.pool.queue, q)
    && Balance(s'.escrow, q) >= Balance(s.escrow, q)
    && s'.vault.totalCaptures == s.vault.totalCaptures && s'.vault.totalRerolls == s.vault.totalRerolls
  }

  lemma StandsAtRest(s: State)
    requires s.vault.nextSettleSeq in s.requests
    ensures HeadStands(s, s)
  {
  }

  lemma StandsOn(s: State, s1: State, s2: State)
    requires HeadStands(s, s1) && HeadStands(s1, s2)
    ensures HeadStands(s, s2)
  {
    hide Ready, Eligible, Balance;
  }

  /** What is kept apart from the pool: the escrow of the head and the counters of settlements. */
  ghost predicate PurseKept(s: State, s': State, q: u64) {
    && Balance(s'.escrow, q) >= Balance(s.escrow, q)
    && s'.vault.totalCaptures == s.vault.totalCaptures && s'.vault.totalRerolls == s.vault.totalRerolls
  }

  lemma CaptureKeepsPurse(c: Config, s: State, user: Key, liveMintCost: nat, env: CommitEnv, q: u64)
    requires RequestCapture(c, s, user, liveMintCost, env).Ok?
    ensures PurseKept(s, RequestCapture(c, s, user, liveMintCost, env).value, q)
  {
    hide Commit, CheckCanRequest;
  }

  lemma RerollKeepsPurse(c: Config, s: State, user: Key, index: u32, liveMintCost: nat, env: CommitEnv, q: u64)
    requires RequestReroll(c, s, user, index, liveMintCost, env).Ok?
    ensures PurseKept(s, RequestReroll(c, s, user, index, liveMintCost, env).value, q)
  {
    hide Commit, CheckCanRequest;
  }

  lemma OtherKeepsPurse(c: Config, s: State, step: Step, q: u64)
    requires !IsResolution(step) && !step.DoCapture? && !step.DoReroll? && Core(c, s, step).Ok?
    ensures PurseKept(s, Core(c, s, step).value, q)
  {
    hide Commit, Merge, UnrevealedAccount, OverdueRequest, RequestCapture, RequestReroll, Settle, ExpireOne,
         ExpireBatch, IncomingPush, Transfer;
  }

  lemma QuietKeepsPurse(c: Config, s: State, step: Step, q: u64)
    requires !IsResolution(step) && Core(c, s, step).Ok?
    ensures PurseKept(s, Core(c, s, step).value, q)
  {
    hide PurseKept, RequestCapture, RequestReroll, Reveal, Recommit, Unwrap, MergeIncoming, OpenVault, InitRandomness,
         Outside, Settle, ExpireOne, ExpireBatch;
    match step
    case DoCapture(user, liveMintCost, env) => CaptureKeepsPurse(c, s, user, liveMintCost, env, q);
    case DoReroll(user, index, liveMintCost, env) => RerollKeepsPurse(c, s, user, index, liveMintCost, env, q);
    case _ => OtherKeepsPurse(c, s, step, q);
  }

  lemma BacklogShrinks(c: Config, s: State, step: Step)
    requires Inv(c, s) && s.vault.nextSettleSeq in s.requests && !IsResolution(step) && Core(c, s, step).Ok?
    ensures Eligible(Core(c, s, step).value.pool.queue, s.vault.nextSettleSeq)
            <= Eligible(s.pool.queue, s.vault.nextSettleSeq)
  {
    hide Inv, Core, Eligible, Advance;
    var q := s.vault.nextSettleSeq;
    if step.DoMerge? {
      MergeKeepsInv(c, s, step.max);
      BlindDraw.MergeCore(c, s, step);
      PoolIsWf(c, s);
      EligibleAfterAdvance(s.pool, Min(Min(step.max, MAX_MERGE_PER_CRANK), Eligible(s.pool.queue, q)), q);
    } else {
      BlindDraw.QuietPool(c, s, step, q);
    }
  }

  lemma DrawStays(c: Config, s: State, step: Step)
    requires Inv(c, s) && s.vault.nextSettleSeq in s.requests && !IsResolution(step)
    ensures Next(c, s, step).vault.nextSettleSeq == s.vault.nextSettleSeq
    ensures Ready(Next(c, s, step).pool, s.vault.nextSettleSeq).slots == Ready(s.pool, s.vault.nextSettleSeq).slots
  {
    hide Inv, Next, Ready, BlindDraw.Simulate;
    var q := s.vault.nextSettleSeq;
    NextKeepsInv(c, s, step);
    BlindDraw.QuietKeepsFate(c, s, step, q, []);
    BlindDraw.HeadDrawsMerged(c, s, q);
    BlindDraw.HeadDrawsMerged(c, Next(c, s, step), q);
  }

  /** A step after which the head has not moved leaves it its draw, its record, its escrow and its backlog. */
  lemma StepKeepsHead(c: Config, s: State, step: Step)
    requires Inv(c, s) && s.vault.nextSettleSeq in s.requests
    requires Next(c, s, step).vault.nextSettleSeq == s.vault.nextSettleSeq
    ensures HeadStands(s, Next(c, s, step))
  {
    hide Inv, Core, Ready, Eligible, Balance, Resolves;
    CheckIsRedundant(c, s, step);
    if Core(c, s, step).Err? {
      StandsAtRest(s);
    } else if IsResolution(step) {
      ResolutionMoves(c, s, step);
    } else {
      QuietStep(c, s, step);
      DrawStays(c, s, step);
      BacklogShrinks(c, s, step);
      QuietKeepsPurse(c, s, step, s.vault.nextSettleSeq);
    }
  }

  /** A successful settlement or expiry moves the head. */
  lemma ResolutionMoves(c: Config, s: State, step: Step)
    requires Inv(c, s) && IsResolution(step) && Apply(c, s, step).Ok?
    ensures Next(c, s, step).vault.nextSettleSeq > s.vault.nextSettleSeq
  {
    hide Inv, Settle, ExpireOne, ExpireGroups, Check;
    CheckIsRedundant(c, s, step);
    match step
    case DoSettle(args) => SettleResolves(c, s, args);
    case DoExpire(seqNo, asset) => ExpireResolves(c, s, seqNo, asset);
    case DoExpireBatch(count, groups) => GroupsResolve(c, s, groups);
  }

  lemma HeadNeverBack(c: Config, s: State, steps: seq<Step>)
    requires Inv(c, s)
    ensures Exec(c, s, steps).vault.nextSettleSeq >= s.vault.nextSettleSeq
  {
    hide Inv, Exec, Log;
    ResolvedOnceInOrder(c, s, steps);
  }

  lemma {:induction false} RunKeepsHead(c: Config, s: State, steps: seq<Step>)
    requires Inv(c, s) && s.vault.nextSettleSeq in s.requests
    requires Exec(c, s, steps).vault.nextSettleSeq == s.vault.nextSettleSeq
    ensures HeadStands(s, Exec(c, s, steps))
    decreases |steps|
  {
    hide Inv, Next, HeadStands;
    if steps == [] {
      StandsAtRest(s);
    } else {
      var s1 := Next(c, s, steps[0]);
      NextKeepsInv(c, s, steps[0]);
      HeadNeverBack(c, s, [steps[0]]);
      assert Exec(c, s, [steps[0]]) == s1 by {
        assert [steps[0]][1..] == [];
      }
      HeadNeverBack(c, s1, steps[1..]);
      StepKeepsHead(c, s, steps[0]);
      HeadStillThere(s, s1);
      RunKeepsHead(c, s1, steps[1..]);
      StandsOn(s, s1, Exec(c, s, steps));
    }
  }

  lemma HeadStillThere(s: State, s': State)
    requires HeadStands(s, s')
    ensures s'.vault.nextSettleSeq in s'.requests && s'.vault.nextSettleSeq == s.vault.nextSettleSeq
  {
  }

  lemma ReadinessStands(c: Config, s: State, s': State, args: SettleArgs)
    requires HeadStands(s, s') && SettleReady(c, s, args)
    ensures SettleReady(c, s', args)
  {
    hide Position, Leaf.CheckLeaf, Ready, Eligible;
  }

  /**
   Nobody can hold a settlement back: a settle call that was right stays right along every run in which the head
   has not moved, and succeeds after it once the merge crank has been called often enough.
   */
  lemma SettlementCannotBeHeldBack(c: Config, s: State, steps: seq<Step>, args: SettleArgs, n: nat)
    requires Inv(c, s) && SettleReady(c, s, args)
    requires Exec(c, s, steps).vault.nextSettleSeq == s.vault.nextSettleSeq
    requires |Exec(c, s, steps).pool.queue| <= 1024 * n
    ensures var s' := Exec(c, s, steps);
            SettleReady(c, s', args) && Apply(c, Exec(c, s', Cranks(n)), DoSettle(args)).Ok?
  {
    hide Inv, Exec, SettleReady, HeadStands, Apply;
    ReadyNamesHead(c, s, args);
    ExecKeepsInv(c, s, steps);
    RunKeepsHead(c, s, steps);
    ReadinessStands(c, s, Exec(c, s, steps), args);
    SettleAfterCranks(c, Exec(c, s, steps), args, n);
  }

  lemma ReadyNamesHead(c: Config, s: State, args: SettleArgs)
    requires SettleReady(c, s, args)
    ensures s.vault.nextSettleSeq in s.requests
  {
  }

  // ----- exactly when a revealed head can leave

  /**
   The step mints with a preimage that is not the committed one, although it hashes as if it were: its hashed strings
   collide with those of the commitment.
   */
  ghost predicate Forges(c: Config, art: seq<Leaf.LeafPreimage>, step: Step)
    requires Leaf.Commits(c.sha, Art(c), art)
  {
    && step.DoSettle? && step.args.mint.Some? && step.args.asset < |art|
    && step.args.mint.value.leaf != art[step.args.asset]
    && Merkle.Collides(c.sha, Leaf.CheckInputs(c.sha, Art(c), step.args.asset, step.args.mint.value.leaf,
                                               step.args.mint.value.proof),
                       Leaf.CommitInputs(c.sha, Art(c), art))
  }

  ghost predicate Unforged(c: Config, art: seq<Leaf.LeafPreimage>, steps: seq<Step>)
    requires Leaf.Commits(c.sha, Art(c), art)
  {
    forall k :: 0 <= k < |steps| ==> !Forges(c, art, steps[k])
  }

  /** An accepted preimage is the committed one, whose URI then passes, or it is a forgery. */
  lemma MintNeedsUri(c: Config, s: State, art: seq<Leaf.LeafPreimage>, args: SettleArgs)
    requires Leaf.Commits(c.sha, Art(c), art) && MintReady(c, s, args) && !Forges(c, art, DoSettle(args))
    ensures args.asset < |art| && UriPasses(art[args.asset])
  {
    hide Leaf.Commits, Leaf.IsContentAddressed, Merkle.Verifies, Leaf.LeafHash, Merkle.Collides, Leaf.CheckInputs,
         Leaf.CommitInputs;
    Leaf.LeafBinding(c.sha, Art(c), art, args.asset, args.mint.value.leaf, args.mint.value.proof);
  }

  /** A settle call that succeeds without a forgery shows that the head can settle. */
  lemma SettledCanSettle(c: Config, s: State, art: seq<Leaf.LeafPreimage>, args: SettleArgs)
    requires Inv(c, s) && Leaf.Commits(c.sha, Art(c), art)
    requires Apply(c, s, DoSettle(args)).Ok? && !Forges(c, art, DoSettle(args))
    ensures CanSettle(c, s, art)
  {
    hide Inv, Apply, Leaf.Commits, Forges, MintReady, UriPasses, Position, Ready;
    SettleSucceedsExactly(c, s, args);
    PendingHead(c, s);
    HeadFindsAsset(c, s);
    if args.asset !in s.pool.minted {
      MintNeedsUri(c, s, art, args);
    }
  }

  lemma PendingHead(c: Config, s: State)
    requires Inv(c, s) && s.vault.nextSettleSeq in s.requests
    ensures s.vault.nextSettleSeq < s.vault.nextSeq
  {
    hide Inv;
    PendingRange(c, s, s.vault.nextSettleSeq);
  }

  /** A revealed head is never expired, alone or in a batch. */
  lemma RevealedNeverExpires(c: Config, s: State, step: Step)
    requires Inv(c, s) && s.vault.nextSettleSeq in s.requests && s.requests[s.vault.nextSettleSeq].revealed
    requires step.DoExpire? || step.DoExpireBatch?
    ensures Apply(c, s, step).Err?
  {
    hide Inv, Apply;
    match step
    case DoExpire(seqNo, asset) => ExpireSucceedsExactly(c, s, seqNo, asset);
    case DoExpireBatch(count, groups) =>
      BatchIsIteration(c, s, count, groups);
      if |groups| > 0 {
        ExpireSucceedsExactly(c, s, groups[0].seqNo, groups[0].asset);
      }
  }

  lemma StepCannotMoveHead(c: Config, s: State, art: seq<Leaf.LeafPreimage>, step: Step)
    requires Inv(c, s) && s.vault.nextSettleSeq in s.requests && s.requests[s.vault.nextSettleSeq].revealed
    requires Leaf.Commits(c.sha, Art(c), art) && !CanSettle(c, s, art) && !Forges(c, art, step)
    ensures Next(c, s, step).vault.nextSettleSeq == s.vault.nextSettleSeq
  {
    hide Inv, Apply, Leaf.Commits, Forges, CanSettle, Ready;
    if !IsResolution(step) {
      DrawStays(c, s, step);
    } else if step.DoSettle? {
      if Apply(c, s, step).Ok? {
        SettledCanSettle(c, s, art, step.args);
      }
    } else {
      RevealedNeverExpires(c, s, step);
    }
  }

  lemma CanSettleStands(c: Config, s: State, s': State, art: seq<Leaf.LeafPreimage>)
    requires HeadStands(s, s') && s.requests[s.vault.nextSettleSeq].revealed
    ensures CanSettle(c, s', art) <==> CanSettle(c, s, art)
  {
    hide Position, Ready, Eligible, UriPasses;
  }

  /**
   A revealed head that cannot settle stays at the head for ever, whatever anybody does, short of a hash collision.
   */
  lemma {:induction false} StuckForEver(c: Config, s: State, art: seq<Leaf.LeafPreimage>, steps: seq<Step>)
    requires Inv(c, s) && s.vault.nextSettleSeq in s.requests && s.requests[s.vault.nextSettleSeq].revealed
    requires Leaf.Commits(c.sha, Art(c), art) && !CanSettle(c, s, art) && Unforged(c, art, steps)
    ensures Exec(c, s, steps).vault.nextSettleSeq == s.vault.nextSettleSeq
    decreases |steps|
  {
    hide Inv, Next, Leaf.Commits, Forges, CanSettle, HeadStands;
    if steps != [] {
      assert steps[0] in steps && forall k :: 0 <= k < |steps[1..]| ==> steps[1..][k] == steps[k + 1];
      var s1 := Next(c, s, steps[0]);
      StepCannotMoveHead(c, s, art, steps[0]);
      StepKeepsHead(c, s, steps[0]);
      NextKeepsInv(c, s, steps[0]);
      CanSettleStands(c, s, s1, art);
      RevealedStays(s, s1);
      StuckForEver(c, s1, art, steps[1..]);
    }
  }

  lemma RevealedStays(s: State, s': State)
    requires HeadStands(s, s') && s.requests[s.vault.nextSettleSeq].revealed
    ensures s'.vault.nextSettleSeq in s'.requests && s'.requests[s'.vault.nextSettleSeq].revealed
  {
  }

  ghost predicate LeavesBy(c: Config, s: State, art: seq<Leaf.LeafPreimage>, steps: seq<Step>)
    requires Leaf.Commits(c.sha, Art(c), art)
  {
    Unforged(c, art, steps) && Exec(c, s, steps).vault.nextSettleSeq > s.vault.nextSettleSeq
  }

  /**
   A revealed head can leave, by some run without a forgery, exactly when its sampling ends, its counter has room, and
   the asset it draws exists already or has a committed URI that passes the mint-time check.
   */
  lemma RevealedHeadLeavesExactly(c: Config, s: State, art: seq<Leaf.LeafPreimage>)
    requires Inv(c, s) && s.vault.nextSettleSeq in s.requests && s.requests[s.vault.nextSettleSeq].revealed
    requires Leaf.Commits(c.sha, Art(c), art)
    ensures (exists steps :: LeavesBy(c, s, art, steps)) <==> CanSettle(c, s, art)
  {
    hide Inv, Exec, Leaf.Commits, CanSettle, Forges;
    if CanSettle(c, s, art) {
      var steps := SettlingRun(c, s, art);
      assert LeavesBy(c, s, art, steps);
    } else {
      forall steps | Unforged(c, art, steps)
        ensures !LeavesBy(c, s, art, steps)
      {
        StuckForEver(c, s, art, steps);
      }
    }
  }

  /** The cranks and the settle call, without a forgery. */
  lemma SettlingRun(c: Config, s: State, art: seq<Leaf.LeafPreimage>) returns (steps: seq<Step>)
    requires Inv(c, s) && s.vault.nextSettleSeq in s.requests && s.requests[s.vault.nextSettleSeq].revealed
    requires Leaf.Commits(c.sha, Art(c), art) && CanSettle(c, s, art)
    ensures LeavesBy(c, s, art, steps)
  {
    hide Inv, Apply, Exec, Leaf.Commits, CanSettle, Next, Cranks, Ready, Advance, Eligible, Merkle.Collides;
    var n := |s.pool.queue| / 1024 + 1;
    var args := RevealedHeadCanSettle(c, s, n, art, 0, 0);
    var s1 := Exec(c, s, Cranks(n));
    ExecKeepsInv(c, s, Cranks(n));
    CranksMerge(c, s, n);
    ResolutionOfSettle(c, s1, args);
    CranksAreMerges(n);
    ExecThen(c, s, Cranks(n), DoSettle(args));
    steps := Cranks(n) + [DoSettle(args)];
  }

  lemma ResolutionOfSettle(c: Config, s: State, args: SettleArgs)
    requires Inv(c, s) && Apply(c, s, DoSettle(args)).Ok?
    ensures Next(c, s, DoSettle(args)).vault.nextSettleSeq > s.vault.nextSettleSeq
  {
    hide Inv, Apply, Next;
    ResolutionMoves(c, s, DoSettle(args));
  }

  lemma {:induction false} CranksAreMerges(n: nat)
    ensures forall k :: 0 <= k < |Cranks(n)| ==> Cranks(n)[k].DoMerge?
  {
    if n > 0 {
      CranksAreMerges(n - 1);
    }
  }

  lemma {:induction false} ExecThen(c: Config, s: State, steps: seq<Step>, last: Step)
    ensures Exec(c, s, steps + [last]) == Next(c, Exec(c, s, steps), last)
    decreases |steps|
  {
    hide Next;
    if steps == [] {
      assert ([] + [last])[1..] == [] && [] + [last] == [last];
    } else {
      ExecThen(c, Next(c, s, steps[0]), steps[1..], last);
      assert (steps + [last])[1..] == steps[1..] + [last];
    }
  }

  /**
   The failing input: a collection committed with empty URIs, which no instruction refuses. The first revealed head of
   such a vault never leaves: it cannot be settled, since no asset can be minted, and it cannot be expired.
   */
  lemma EmptyUrisJamTheQueue(c: Config, s0: State, before: seq<Step>, art: seq<Leaf.LeafPreimage>, steps: seq<Step>)
    requires ConfigOk(c) && Initial(c, s0)
    requires Leaf.Commits(c.sha, Art(c), art) && forall i :: 0 <= i < |art| ==> art[i].uri == []
    requires var s := Exec(c, s0, before);
             && s.pool.minted == {} && s.vault.nextSettleSeq in s.requests && s.requests[s.vault.nextSettleSeq].revealed
    requires Unforged(c, art, steps)
    ensures var s := Exec(c, s0, before); Exec(c, s, steps).vault.nextSettleSeq == s.vault.nextSettleSeq
  {
    hide Inv, Initial, ConfigOk, Exec, Leaf.Commits, Unforged;
    var s := Exec(c, s0, before);
    InitialInv(c, s0);
    ExecKeepsInv(c, s0, before);
    if CanSettle(c, s, art) {
      NothingToGive(c, s, art);
    } else {
      StuckForEver(c, s, art, steps);
    }
  }

  lemma NothingToGive(c: Config, s: State, art: seq<Leaf.LeafPreimage>)
    requires Inv(c, s) && s.vault.nextSettleSeq in s.requests && s.pool.minted == {}
    requires forall i :: 0 <= i < |art| ==> art[i].uri == []
    ensures !CanSettle(c, s, art)
  {
    hide Inv, Position, Ready;
    PendingHead(c, s);
    HeadFindsAsset(c, s);
    assert !Leaf.IsContentAddressed([]);
  }
}
