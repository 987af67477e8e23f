/** What the lifetime counters of the vault count over a run, and what must have happened before the first request. */
module Lifetime {
  import opened Base
  import opened Vault
  import opened Invariant
  import opened Preservation
  import Head
  import Rules

  // ----- counting what a run does

  /** How often each thing happened, and the fees paid. */
  datatype Tally = Tally(requests: nat, fees: nat, captures: nat, rerolls: nat, unwraps: nat, recommits: nat,
                         expiries: nat)

  const NOTHING: Tally := Tally(0, 0, 0, 0, 0, 0, 0)

  function Plus(a: Tally, b: Tally): Tally {
    Tally(a.requests + b.requests, a.fees + b.fees, a.captures + b.captures, a.rerolls + b.rerolls,
          a.unwraps + b.unwraps, a.recommits + b.recommits, a.expiries + b.expiries)
  }

  /** What one step adds: nothing when it fails. */
  function StepTally(c: Config, s: State, step: Step): Tally {
    if Apply(c, s, step).Err? then NOTHING
    else match step
      case DoCapture(_, _, _) => NOTHING.(requests := 1, fees := c.fee)
      case DoReroll(_, _, _, _) => NOTHING.(requests := 1, fees := c.fee)
      case DoSettle(args) => if args.kind == Capture then NOTHING.(captures := 1) else NOTHING.(rerolls := 1)
      case DoUnwrap(_, _) => NOTHING.(unwraps := 1)
      case DoRecommit(_, _) => NOTHING.(recommits := 1)
      case DoExpire(_, _) => NOTHING.(expiries := 1)
      case DoExpireBatch(_, groups) => NOTHING.(expiries := |groups|)
      case _ => NOTHING
  }

  function RunTally(c: Config, s: State, steps: seq<Step>): Tally
    decreases |steps|
  {
    if steps == [] then NOTHING else Plus(StepTally(c, s, steps[0]), RunTally(c, Next(c, s, steps[0]), steps[1..]))
  }

  /** The counters of `v'` are those of `v` plus the tally. */
  ghost predicate Counted(v: Vault, v': Vault, t: Tally) {
    && v'.nextSeq == v.nextSeq + t.requests && v'.totalFeeLamports == v.totalFeeLamports + t.fees
    && v'.totalCaptures == v.totalCaptures + t.captures && v'.totalRerolls == v.totalRerolls + t.rerolls
    && v'.totalUnwraps == v.totalUnwraps + t.unwraps && v'.totalRecommits == v.totalRecommits + t.recommits
    && v'.totalExpired == v.totalExpired + t.expiries
    && v'.nextSettleSeq == v.nextSettleSeq + t.captures + t.rerolls + t.expiries
  }

  ghost predicate StaysOpen(v: Vault, v': Vault) {
    v'.open == v.open && v'.openedAtSlot == v.openedAtSlot
  }

  lemma {:induction false} GroupsCounted(c: Config, s: State, groups: seq<Group>)
    requires Inv(c, s) && ExpireGroups(c, s, groups).Ok?
    ensures var v' := ExpireGroups(c, s, groups).value.vault;
            Counted(s.vault, v', NOTHING.(expiries := |groups|)) && StaysOpen(s.vault, v')
    decreases |groups|
  {
    hide Inv, ExpireOne, AccountsFit, Rules.Closed;
    if groups != [] {
      var g := groups[0];
      ExpireOneKeepsInv(c, s, g.seqNo, g.asset);
      Rules.ExpiryDoes(c, s, g.seqNo, g.asset);
      Rules.ExpiryMoves(c, s, g.seqNo, g.asset);
      GroupsCounted(c, ExpireOne(c, s, g.seqNo, g.asset).value, groups[1..]);
    }
  }

  lemma RequestCounted(c: Config, s: State, step: Step)
    requires Inv(c, s) && (step.DoCapture? || step.DoReroll?) && Apply(c, s, step).Ok?
    ensures var v' := Apply(c, s, step).value.vault;
            s.vault.open && Counted(s.vault, v', StepTally(c, s, step)) && StaysOpen(s.vault, v')
  {
    hide Inv, Apply, Rules.PurseRule, Rules.CommitRule, Rules.RoomRule;
    match step
    case DoCapture(user, liveMintCost, env) => Rules.CaptureExactly(c, s, user, liveMintCost, env);
    case DoReroll(user, index, liveMintCost, env) => Rules.RerollExactly(c, s, user, index, liveMintCost, env);
  }

  lemma ResolutionCounted(c: Config, s: State, step: Step)
    requires Inv(c, s) && (step.DoSettle? || step.DoExpire? || step.DoExpireBatch?) && Apply(c, s, step).Ok?
    ensures var v' := Apply(c, s, step).value.vault;
            Counted(s.vault, v', StepTally(c, s, step)) && StaysOpen(s.vault, v')
  {
    hide Inv, Apply, Rules.MintRule, Rules.Candidates, Rules.DrawnPlace, ExpireGroups;
    match step
    case DoSettle(args) => Rules.SettleExactly(c, s, args);
    case DoExpire(q, asset) => Rules.ExpireExactly(c, s, q, asset);
    case DoExpireBatch(count, groups) =>
      CheckIsRedundant(c, s, step);
      GroupsCounted(c, s, groups);
  }

  lemma OtherCounted(c: Config, s: State, step: Step)
    requires Inv(c, s) && !step.DoCapture? && !step.DoReroll? && !step.DoSettle? && !step.DoExpire?
             && !step.DoExpireBatch? && Apply(c, s, step).Ok?
    ensures var v' := Apply(c, s, step).value.vault;
            && Counted(s.vault, v', StepTally(c, s, step))
            && if step.DoOpen? then !s.vault.open && step.graduated && v'.open && v'.openedAtSlot == s.slot
               else StaysOpen(s.vault, v')
  {
    hide Inv, Apply, Check, Rules.CommitRule, Rules.Waiting, Rules.Joined;
    match step
    case DoOpen(collection, graduated) => Rules.OpenExactly(c, s, collection, graduated);
    case DoUnwrap(user, index) => Rules.UnwrapExactly(c, s, user, index);
    case DoRecommit(q, env) => Rules.RecommitExactly(c, s, q, env);
    case DoMerge(max) => Rules.MergeExactly(c, s, max);
    case DoReveal(q, seedSlot, revealSlot, value) => Rules.RevealExactly(c, s, q, seedSlot, revealSlot, value);
    case DoInitRandomness(key, account) => Rules.InitRandomnessExactly(c, s, key, account);
    case _ => OutsideCounted(c, s, step);
  }

  lemma OutsideCounted(c: Config, s: State, step: Step)
    requires IsOutside(step) && Apply(c, s, step).Ok?
    ensures Apply(c, s, step).value.vault == s.vault && StepTally(c, s, step) == NOTHING
  {
    hide Check;
  }

  /** Every step moves the counters by what it did, and only an opening with a graduation proof opens the vault. */
  lemma StepCounted(c: Config, s: State, step: Step)
    requires Inv(c, s)
    ensures Counted(s.vault, Next(c, s, step).vault, StepTally(c, s, step))
    ensures if step.DoOpen? && Apply(c, s, step).Ok? then
              && !s.vault.open && step.graduated
              && Next(c, s, step).vault.open && Next(c, s, step).vault.openedAtSlot == s.slot
            else
              StaysOpen(s.vault, Next(c, s, step).vault)
  {
    hide Inv, Apply;
    if Apply(c, s, step).Ok? {
      if step.DoCapture? || step.DoReroll? {
        RequestCounted(c, s, step);
      } else if step.DoSettle? || step.DoExpire? || step.DoExpireBatch? {
        ResolutionCounted(c, s, step);
      } else {
        OtherCounted(c, s, step);
      }
    }
  }

  /** Over every run each lifetime counter grows by the number of things it is named after, and the fees add up. */
  lemma {:induction false} CountersOverRun(c: Config, s: State, steps: seq<Step>)
    requires Inv(c, s)
    ensures Counted(s.vault, Exec(c, s, steps).vault, RunTally(c, s, steps))
    ensures RunTally(c, s, steps).fees == c.fee * RunTally(c, s, steps).requests
    decreases |steps|
  {
    hide Inv, Next, StepTally;
    if steps != [] {
      var s1 := Next(c, s, steps[0]);
      NextKeepsInv(c, s, steps[0]);
      StepCounted(c, s, steps[0]);
      StepFees(c, s, steps[0]);
      CountersOverRun(c, s1, steps[1..]);
      OneMore(c.fee, StepTally(c, s, steps[0]).requests, RunTally(c, s1, steps[1..]).requests);
    }
  }

  lemma StepFees(c: Config, s: State, step: Step)
    ensures StepTally(c, s, step).fees == c.fee * StepTally(c, s, step).requests
  {
    hide Apply;
  }

  lemma OneMore(fee: nat, a: nat, b: nat)
    ensures fee * (a + b) == fee * a + fee * b
  {
  }

  // ----- the opening

  /** Step `k` of the run opens the vault, with a graduation proof. */
  ghost predicate OpenedBy(c: Config, s: State, steps: seq<Step>, k: nat) {
    k < |steps| && steps[k].DoOpen? && steps[k].graduated && Apply(c, Exec(c, s, steps[..k]), steps[k]).Ok?
  }

  /** A vault is open exactly when one step of its run opened it; there is only one, and its slot is on record. */
  lemma {:induction false} OpenedOnce(c: Config, s: State, steps: seq<Step>)
    requires Inv(c, s) && !s.vault.open
    ensures Exec(c, s, steps).vault.open <==> exists k :: OpenedBy(c, s, steps, k)
    ensures forall k: nat :: OpenedBy(c, s, steps, k) ==>
              Exec(c, s, steps).vault.openedAtSlot == Exec(c, s, steps[..k]).slot
    ensures forall j: nat, k: nat :: OpenedBy(c, s, steps, j) && OpenedBy(c, s, steps, k) ==> j == k
    decreases |steps|
  {
    hide Inv, Apply, Next;
    if steps != [] {
      var n := |steps| - 1;
      var before, last := steps[..n], steps[n];
      OpenedOnce(c, s, before);
      assert steps == before + [last];
      Head.ExecThen(c, s, before, last);
      ExecKeepsInv(c, s, before);
      StepCounted(c, Exec(c, s, before), last);
      hide Exec;
      forall k: nat | k < n
        ensures steps[..k] == before[..k] && (OpenedBy(c, s, steps, k) <==> OpenedBy(c, s, before, k))
      {
        assert steps[..k] == before[..k];
      }
      assert OpenedBy(c, s, steps, n) <==> last.DoOpen? && Apply(c, Exec(c, s, before), last).Ok?;
    }
  }

  /** No request is accepted before the vault was opened, and it is opened only with a graduation proof. */
  lemma NoRequestBeforeGraduation(c: Config, s: State, steps: seq<Step>, request: Step)
    requires ConfigOk(c) && Initial(c, s)
    requires request.DoCapture? || request.DoReroll?
    requires Apply(c, Exec(c, s, steps), request).Ok?
    ensures exists k: nat :: OpenedBy(c, s, steps, k)
                             && Exec(c, s, steps).vault.openedAtSlot == Exec(c, s, steps[..k]).slot
  {
    hide Inv, Apply, Exec, ConfigOk;
    InitialInv(c, s);
    ExecKeepsInv(c, s, steps);
    RequestCounted(c, Exec(c, s, steps), request);
    OpenedOnce(c, s, steps);
  }
}
