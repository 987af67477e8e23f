/** The history of a run: which requests were resolved and how, and which indices were minted. */
module History {
  import opened Base
  import opened Pool
  import opened Vault
  import opened Accounting
  import opened Invariant
  import opened Preservation
  import Runs

  // ----- events

  datatype Event =
    | Settled(seqNo: u64, user: Key, value: Digest, asset: u32)
    | Expired(seqNo: u64, user: Key, slot: u64, oracles: Oracles)

  predicate IsResolution(step: Step) {
    step.DoSettle? || step.DoExpire? || step.DoExpireBatch?
  }

  /** The event of expiring the pending request `q` now. */
  function Expiry(s: State, q: u64): Event
    requires q in s.requests
  {
    Expired(q, s.requests[q].user, s.slot, s.requests[q].oracles)
  }

  function Expiries(s: State, groups: seq<Group>): (events: seq<Event>)
    requires forall k :: 0 <= k < |groups| ==> groups[k].seqNo in s.requests
    ensures |events| == |groups|
  {
    seq(|groups|, k requires 0 <= k < |groups| => Expiry(s, groups[k].seqNo))
  }

  /** The requests that a step resolves, in order. */
  function EventsOf(c: Config, s: State, step: Step): seq<Event> {
    if Apply(c, s, step).Err? then []
    else match step
      case DoSettle(args) =>
        if args.seqNo in s.requests then
          [Settled(args.seqNo, s.requests[args.seqNo].user, s.requests[args.seqNo].value, args.asset)]
        else []
      case DoExpire(seqNo, _) => if seqNo in s.requests then [Expiry(s, seqNo)] else []
      case DoExpireBatch(_, groups) =>
        if forall k :: 0 <= k < |groups| ==> groups[k].seqNo in s.requests then Expiries(s, groups) else []
      case _ => []
  }

  /** All resolutions of a run, in order. */
  function Log(c: Config, s: State, steps: seq<Step>): seq<Event>
    decreases |steps|
  {
    if steps == [] then [] else EventsOf(c, s, steps[0]) + Log(c, Next(c, s, steps[0]), steps[1..])
  }

  /** The index a step mints, if any. */
  function MintsOf(c: Config, s: State, step: Step): seq<u32> {
    if Apply(c, s, step).Ok? && step.DoSettle? && step.args.asset !in s.pool.minted then [step.args.asset] else []
  }

  function Mints(c: Config, s: State, steps: seq<Step>): seq<u32>
    decreases |steps|
  {
    if steps == [] then [] else MintsOf(c, s, steps[0]) + Mints(c, Next(c, s, steps[0]), steps[1..])
  }

  // ----- what one step does to a pending request

  /** How a pending request can change while it waits. */
  ghost predicate Progressed(slot: u64, r: Request, r': Request) {
    || r' == r
       // revealed: recorded once
    || (!r.revealed && r'.revealed && r' == r.(revealed := true, value := r'.value))
       // re-committed: only after the deadline, with another oracle
    || (!r.revealed && !r'.revealed && SameDraw(r, r') && slot > r.deadlineSlot && r.commits <= MAX_RECOMMITS
        && r'.commits == r.commits + 1 && r'.deadlineSlot == slot + REVEAL_TIMEOUT_SLOTS)
  }

  /** The steps that resolve nothing leave every pending request pending and the minted set alone. */
  ghost predicate Waits(s: State, s': State) {
    && s'.vault.nextSettleSeq == s.vault.nextSettleSeq && s.vault.nextSeq <= s'.vault.nextSeq
    && s'.pool.minted == s.pool.minted && s.slot <= s'.slot
    && forall q: u64 :: q in s.requests ==> q in s'.requests && Progressed(s.slot, s.requests[q], s'.requests[q])
  }

  lemma RequestWaits(c: Config, s: State, step: Step)
    requires Inv(c, s) && (step.DoCapture? || step.DoReroll?) && Core(c, s, step).Ok?
    ensures Waits(s, Core(c, s, step).value)
  {
    hide Inv, FifoOk, RequestCapture, RequestReroll, CheckCanRequest, Mirrors;
    if step.DoCapture? {
      var paid := CaptureShape(c, s, step.user, step.liveMintCost, step.env);
    } else {
      var paid := RerollShape(c, s, step.user, step.index, step.liveMintCost, step.env);
    }
  }

  lemma UpdateWaits(c: Config, s: State, step: Step)
    requires Inv(c, s) && (step.DoReveal? || step.DoRecommit? || step.DoMerge? || step.DoUnwrap?)
             && Core(c, s, step).Ok?
    ensures Waits(s, Core(c, s, step).value)
  {
    hide Inv, FifoOk, Reveal, Recommit, Unwrap, MergeIncoming, Mirrors;
    match step
    case DoReveal(q, seedSlot, revealSlot, value) => RevealShape(s, q, seedSlot, revealSlot, value);
    case DoRecommit(q, env) => RecommitShape(c, s, q, env);
    case DoMerge(max) => MergeKeepsInv(c, s, max);
    case DoUnwrap(user, index) => UnwrapShape(c, s, user, index);
  }

  lemma OutsideWaits(c: Config, s: State, step: Step)
    requires IsOutside(step) && Outside(c, s, step).Ok?
    ensures Waits(s, Outside(c, s, step).value)
  {
    hide Progressed;
    var s' := Outside(c, s, step).value;
    assert s'.vault == s.vault && s'.pool == s.pool && s'.requests == s.requests;
    RequestsRest(s, s');
  }

  lemma RequestsRest(s: State, s': State)
    requires s'.vault.nextSettleSeq == s.vault.nextSettleSeq && s'.vault.nextSeq == s.vault.nextSeq
    requires s'.pool == s.pool && s'.requests == s.requests && s.slot <= s'.slot
    ensures Waits(s, s')
  {
  }

  lemma OtherWaits(c: Config, s: State, step: Step)
    requires IsOutside(step) || step.DoOpen? || step.DoInitRandomness?
    requires Core(c, s, step).Ok?
    ensures Waits(s, Core(c, s, step).value)
  {
    hide Progressed, Outside, Waits;
    if IsOutside(step) {
      OutsideWaits(c, s, step);
    } else {
      RequestsRest(s, Core(c, s, step).value);
    }
  }

  lemma QuietStep(c: Config, s: State, step: Step)
    requires Inv(c, s) && !IsResolution(step)
    ensures Waits(s, Next(c, s, step)) && EventsOf(c, s, step) == [] && MintsOf(c, s, step) == []
  {
    hide Inv, Core, Waits;
    CheckIsRedundant(c, s, step);
    if Core(c, s, step).Ok? {
      if step.DoCapture? || step.DoReroll? {
        RequestWaits(c, s, step);
      } else if step.DoReveal? || step.DoRecommit? || step.DoMerge? || step.DoUnwrap? {
        UpdateWaits(c, s, step);
      } else {
        OtherWaits(c, s, step);
      }
    } else {
      WaitsAtRest(s);
    }
  }

  lemma WaitsAtRest(s: State)
    ensures Waits(s, s)
  {
  }

  /** The head of the queue is resolved and leaves; the requests behind it are not touched. */
  ghost predicate Resolves(s: State, s': State, n: nat) {
    && s.vault.nextSettleSeq + n <= s.vault.nextSeq
    && s'.vault.nextSettleSeq == s.vault.nextSettleSeq + n && s'.vault.nextSeq == s.vault.nextSeq && s'.slot == s.slot
    && (forall q: u64 :: q in s.requests && q >= s'.vault.nextSettleSeq ==>
          q in s'.requests && s'.requests[q] == s.requests[q])
  }

  /** A request that may expire at `slot`. */
  ghost predicate Expirable(r: Request, slot: u64) {
    !r.revealed && r.commits == 4 && slot > r.deadlineSlot + EXPIRE_GRACE_SLOTS
  }

  lemma SettleResolves(c: Config, s: State, args: SettleArgs)
    requires Inv(c, s) && Settle(c, s, args).Ok?
    ensures var s' := Settle(c, s, args).value;
            && Resolves(s, s', 1)
            && args.seqNo == s.vault.nextSettleSeq && args.seqNo in s.requests && s.requests[args.seqNo].revealed
            && s'.pool.minted == s.pool.minted + {args.asset}
  {
    hide Inv, Settle, Draw, PoolOk, AssetsOk, ReserveOk, RandOk, EscrowOk, Wf, QueueInRange, HeadLeft;
    Runs.InvParts(c, s);
    SettleShape(c, s, args);
    var r := s.requests[args.seqNo];
    if r.kind == Reroll {
      HeadHandIn(c, s.vault, s.pool, s.requests, s.owner);
    }
    DrawMinted(c, s, r);
    FifoHead(s.vault, s.requests);
  }

  lemma FifoHead(v: Vault, requests: map<u64, Request>)
    requires FifoOk(v, requests) && v.nextSettleSeq in requests
    ensures v.nextSettleSeq < v.nextSeq
  {
  }

  lemma DrawMinted(c: Config, s: State, r: Request)
    requires PoolOk(c, s.pool) && (r.kind == Reroll ==> r.handedIn < c.n) && Draw(c, s.pool, r).Ok?
    ensures Draw(c, s.pool, r).value.0.minted == s.pool.minted
  {
    hide Draw, Wf, QueueInRange;
    DrawIsDrawn(c, s.pool, r);
  }

  lemma ExpireResolves(c: Config, s: State, seqNo: u64, asset: u32)
    requires Inv(c, s) && ExpireOne(c, s, seqNo, asset).Ok?
    ensures var s' := ExpireOne(c, s, seqNo, asset).value;
            && Resolves(s, s', 1) && seqNo == s.vault.nextSettleSeq && seqNo in s.requests
            && Expirable(s.requests[seqNo], s.slot) && s'.pool == s.pool
  {
    hide Inv, ExpireOne, PoolOk, AssetsOk, ReserveOk, EscrowOk, Mirrors;
    Runs.InvParts(c, s);
    ExpireShape(c, s, seqNo, asset);
    assert RequestOk(c, s.requests[seqNo], s.rand, s.locks);
    FifoHead(s.vault, s.requests);
  }

  lemma {:induction false} GroupsResolve(c: Config, s: State, groups: seq<Group>)
    requires Inv(c, s) && ExpireGroups(c, s, groups).Ok?
    ensures var s' := ExpireGroups(c, s, groups).value;
            && Resolves(s, s', |groups|) && s'.pool == s.pool
            && forall k :: 0 <= k < |groups| ==>
                 groups[k].seqNo == s.vault.nextSettleSeq + k && groups[k].seqNo in s.requests
                   && Expirable(s.requests[groups[k].seqNo], s.slot)
    decreases |groups|
  {
    hide Inv, ExpireOne, Expirable;
    if groups == [] {
      EmptyResolves(c, s);
    } else {
      ExpireOneKeepsInv(c, s, groups[0].seqNo, groups[0].asset);
      ExpireResolves(c, s, groups[0].seqNo, groups[0].asset);
      var mid := ExpireOne(c, s, groups[0].seqNo, groups[0].asset).value;
      var rest := groups[1..];
      GroupsResolve(c, mid, rest);
      Runs.InvParts(c, s);
      forall k | 0 <= k < |groups|
        ensures groups[k].seqNo == s.vault.nextSettleSeq + k && groups[k].seqNo in s.requests
                && Expirable(s.requests[groups[k].seqNo], s.slot)
      {
        if k > 0 {
          assert groups[k] == rest[k - 1];
          PendingBefore(c, s, mid, groups[k].seqNo);
        }
      }
    }
  }

  lemma EmptyResolves(c: Config, s: State)
    requires Inv(c, s)
    ensures Resolves(s, s, 0)
  {
  }

  lemma PendingBefore(c: Config, s: State, mid: State, q: u64)
    requires FifoOk(s.vault, s.requests) && Inv(c, mid) && Resolves(s, mid, 1) && q in mid.requests
    ensures q in s.requests && mid.requests[q] == s.requests[q]
  {
    hide Inv;
    Runs.InvParts(c, mid);
  }

  /** A resolution step: its events are numbered from the head on, and each says truthfully how its request ended. */
  ghost predicate TrueEvent(s: State, e: Event) {
    && e.seqNo in s.requests && e.user == s.requests[e.seqNo].user
    && match e
       case Settled(q, _, value, _) => s.requests[q].revealed && value == s.requests[q].value
       case Expired(q, _, slot, oracles) =>
         Expirable(s.requests[q], s.slot) && slot == s.slot && oracles == s.requests[q].oracles
  }

  lemma ResolutionStep(c: Config, s: State, step: Step)
    requires Inv(c, s) && IsResolution(step)
    ensures var s', events := Next(c, s, step), EventsOf(c, s, step);
            && Resolves(s, s', |events|)
            && (forall k :: 0 <= k < |events| ==>
                  events[k].seqNo == s.vault.nextSettleSeq + k && TrueEvent(s, events[k]))
            && s'.pool.minted == s.pool.minted + (set i | i in MintsOf(c, s, step))
  {
    hide Inv, Core, Settle, ExpireOne, ExpireGroups, Expirable, Check;
    CheckIsRedundant(c, s, step);
    if Core(c, s, step).Err? {
      EmptyResolves(c, s);
    } else {
      ResolutionCore(c, s, step);
    }
  }

  lemma ResolutionCore(c: Config, s: State, step: Step)
    requires Inv(c, s) && IsResolution(step) && Core(c, s, step).Ok? && Apply(c, s, step) == Core(c, s, step)
    ensures var s', events := Core(c, s, step).value, EventsOf(c, s, step);
            && Resolves(s, s', |events|)
            && (forall k :: 0 <= k < |events| ==>
                  events[k].seqNo == s.vault.nextSettleSeq + k && TrueEvent(s, events[k]))
            && s'.pool.minted == s.pool.minted + (set i | i in MintsOf(c, s, step))
  {
    hide Inv, Apply, Settle, ExpireOne, ExpireGroups, Expirable, Resolves;
    match step
    case DoSettle(args) => SettleResolves(c, s, args);
    case DoExpire(seqNo, asset) => ExpireResolves(c, s, seqNo, asset);
    case DoExpireBatch(count, groups) => GroupsResolve(c, s, groups);
  }

  // ----- requests are resolved once each, in order

  /** The `k`-th resolution of a run resolves the `k`-th request in the queue; nothing is skipped or repeated. */
  lemma {:induction false} ResolvedOnceInOrder(c: Config, s: State, steps: seq<Step>)
    requires Inv(c, s)
    ensures var log, s' := Log(c, s, steps), Exec(c, s, steps);
            && s'.vault.nextSettleSeq == s.vault.nextSettleSeq + |log|
            && forall k :: 0 <= k < |log| ==> log[k].seqNo == s.vault.nextSettleSeq + k
    decreases |steps|
  {
    hide Inv, Next, EventsOf, Waits, TrueEvent;
    if steps != [] {
      var s1 := Next(c, s, steps[0]);
      NextKeepsInv(c, s, steps[0]);
      HeadMoves(c, s, steps[0]);
      ResolvedOnceInOrder(c, s1, steps[1..]);
    }
  }

  lemma HeadMoves(c: Config, s: State, step: Step)
    requires Inv(c, s)
    ensures var events := EventsOf(c, s, step);
            && Next(c, s, step).vault.nextSettleSeq == s.vault.nextSettleSeq + |events|
            && forall k :: 0 <= k < |events| ==> events[k].seqNo == s.vault.nextSettleSeq + k && TrueEvent(s, events[k])
  {
    hide Inv, Next, EventsOf, TrueEvent, Progressed;
    if IsResolution(step) {
      ResolutionStep(c, s, step);
    } else {
      QuietStep(c, s, step);
    }
  }

  /** While a request is pending it only progresses. */
  lemma StillPending(c: Config, s: State, step: Step, q: u64)
    requires Inv(c, s) && q in s.requests && q >= Next(c, s, step).vault.nextSettleSeq
    ensures var s' := Next(c, s, step);
            q in s'.requests && Progressed(s.slot, s.requests[q], s'.requests[q]) && s.slot <= s'.slot
  {
    hide Inv, Next, EventsOf, TrueEvent, Progressed;
    if IsResolution(step) {
      ResolutionStep(c, s, step);
      ProgressedAtRest(s.slot, s.requests[q]);
    } else {
      QuietStep(c, s, step);
    }
  }

  lemma ProgressedAtRest(slot: u64, r: Request)
    ensures Progressed(slot, r, r)
  {
  }

  /**
   A revealed request never expires: however the run goes on, if request `q` is resolved at all, it
   is settled, with the value recorded at its reveal and for the user who made it.
   */
  lemma {:induction false} RevealedIsSettled(c: Config, s: State, steps: seq<Step>, q: u64)
    requires Inv(c, s) && q in s.requests && s.requests[q].revealed
    requires q < Exec(c, s, steps).vault.nextSettleSeq
    ensures s.vault.nextSettleSeq <= q
    ensures q - s.vault.nextSettleSeq < |Log(c, s, steps)|
    ensures var e := Log(c, s, steps)[q - s.vault.nextSettleSeq];
            e.Settled? && e.seqNo == q && e.value == s.requests[q].value && e.user == s.requests[q].user
    decreases |steps|
  {
    hide Inv, Next, EventsOf;
    PendingRange(c, s, q);
    if steps != [] {
      var s1, events := Next(c, s, steps[0]), EventsOf(c, s, steps[0]);
      NextKeepsInv(c, s, steps[0]);
      HeadMoves(c, s, steps[0]);
      if q < s1.vault.nextSettleSeq {
        var e := events[q - s.vault.nextSettleSeq];
        assert e.seqNo == q && TrueEvent(s, e);
      } else {
        StillPending(c, s, steps[0], q);
        RevealedIsSettled(c, s1, steps[1..], q);
        assert Log(c, s, steps)[q - s.vault.nextSettleSeq] == Log(c, s1, steps[1..])[q - s1.vault.nextSettleSeq];
      }
    }
  }

  lemma PendingRange(c: Config, s: State, q: u64)
    requires Inv(c, s) && q in s.requests
    ensures s.vault.nextSettleSeq <= q < s.vault.nextSeq
  {
    hide AssetsOk, PoolOk, ReserveOk, RandOk, EscrowOk, Solvent, ConfigOk;
  }

  // ----- an expiry takes four commits and more than a day

  /** A request made at `born` has waited out every commit but the current one. */
  ghost predicate WaitedSince(born: nat, r: Request) {
    r.commits >= 1 && r.deadlineSlot >= born + 9_000 + (r.commits - 1) * 9_001
  }

  lemma WaitGoesOn(born: nat, slot: u64, r: Request, r': Request)
    requires WaitedSince(born, r) && Progressed(slot, r, r')
    ensures WaitedSince(born, r')
  {
  }

  /**
   If request `q` expires, it does so at least 252,004 slots after it was made, after commits by four different oracles.
   */
  lemma {:induction false} ExpiryTakesADay(c: Config, s: State, steps: seq<Step>, q: u64, born: nat)
    requires Inv(c, s) && q in s.requests && WaitedSince(born, s.requests[q])
    requires q < Exec(c, s, steps).vault.nextSettleSeq
    ensures s.vault.nextSettleSeq <= q && q - s.vault.nextSettleSeq < |Log(c, s, steps)|
    ensures var e := Log(c, s, steps)[q - s.vault.nextSettleSeq];
            && e.seqNo == q
            && (e.Expired? ==>
                  && e.slot >= born + 252_004
                  && (forall j :: 0 <= j < 4 ==> e.oracles[j] != DEFAULT_KEY)
                  && (forall j, k :: 0 <= j < k < 4 ==> e.oracles[j] != e.oracles[k]))
    decreases |steps|
  {
    hide Inv, Next, EventsOf, Progressed;
    PendingRange(c, s, q);
    if steps != [] {
      var s1, events := Next(c, s, steps[0]), EventsOf(c, s, steps[0]);
      NextKeepsInv(c, s, steps[0]);
      HeadMoves(c, s, steps[0]);
      if q < s1.vault.nextSettleSeq {
        var e := events[q - s.vault.nextSettleSeq];
        assert e.seqNo == q && TrueEvent(s, e);
        PendingCommits(c, s, q);
      } else {
        StillPending(c, s, steps[0], q);
        WaitGoesOn(born, s.slot, s.requests[q], s1.requests[q]);
        ExpiryTakesADay(c, s1, steps[1..], q, born);
        assert Log(c, s, steps)[q - s.vault.nextSettleSeq] == Log(c, s1, steps[1..])[q - s1.vault.nextSettleSeq];
      }
    }
  }

  lemma PendingCommits(c: Config, s: State, q: u64)
    requires Inv(c, s) && q in s.requests
    ensures CommitsOk(s.requests[q])
  {
    hide AssetsOk, PoolOk, ReserveOk, FifoOk, EscrowOk, Solvent, ConfigOk, Mirrors, CommitsOk;
    assert RequestOk(c, s.requests[q], s.rand, s.locks);
  }

  /** A new request starts its wait in the slot it is made. */
  lemma WaitStarts(c: Config, s: State, step: Step)
    requires Inv(c, s) && (step.DoCapture? || step.DoReroll?) && Apply(c, s, step).Ok?
    ensures var s' := Next(c, s, step);
            s.vault.nextSeq in s'.requests && WaitedSince(s.slot, s'.requests[s.vault.nextSeq])
  {
    hide Inv, RequestCapture, RequestReroll, CheckCanRequest, Mirrors, Check;
    CheckIsRedundant(c, s, step);
    if step.DoCapture? {
      var paid := CaptureShape(c, s, step.user, step.liveMintCost, step.env);
    } else {
      var paid := RerollShape(c, s, step.user, step.index, step.liveMintCost, step.env);
    }
  }

  /**
   From request to expiry: a request that ends by expiring does so at least 252,004 slots after the slot it was made in.
   */
  lemma RequestWaitsADay(c: Config, s: State, step: Step, steps: seq<Step>)
    requires Inv(c, s) && (step.DoCapture? || step.DoReroll?) && Apply(c, s, step).Ok?
    requires s.vault.nextSeq < Exec(c, Next(c, s, step), steps).vault.nextSettleSeq
    ensures var q, s1 := s.vault.nextSeq, Next(c, s, step);
            s1.vault.nextSettleSeq <= q && q - s1.vault.nextSettleSeq < |Log(c, s1, steps)|
    ensures var q, s1 := s.vault.nextSeq, Next(c, s, step);
            var e := Log(c, s1, steps)[q - s1.vault.nextSettleSeq];
            && e.seqNo == q
            && (e.Expired? ==>
                  && e.slot >= s.slot + 252_004
                  && (forall j :: 0 <= j < 4 ==> e.oracles[j] != DEFAULT_KEY)
                  && (forall j, k :: 0 <= j < k < 4 ==> e.oracles[j] != e.oracles[k]))
  {
    hide Inv, Next, Apply, Exec, Log, WaitedSince;
    WaitStarts(c, s, step);
    NextKeepsInv(c, s, step);
    ExpiryTakesADay(c, Next(c, s, step), steps, s.vault.nextSeq, s.slot);
  }

  // ----- every index is minted at most once

  /** `added` lists, without repetition, what `after` has and `before` has not. */
  ghost predicate Gained(before: set<u32>, added: seq<u32>, after: set<u32>) {
    && (forall j, k :: 0 <= j < k < |added| ==> added[j] != added[k])
    && (forall k :: 0 <= k < |added| ==> added[k] !in before)
    && after == before + (set i | i in added)
  }

  /**
   The minted indices of a run are pairwise different and added, and they are all that the minted set and its counter
   gain.
   */
  lemma {:induction false} MintedOnce(c: Config, s: State, steps: seq<Step>)
    requires Inv(c, s)
    ensures var mints, s' := Mints(c, s, steps), Exec(c, s, steps);
            Gained(s.pool.minted, mints, s'.pool.minted) && s'.vault.mintedCount == |s'.pool.minted|
    decreases |steps|
  {
    hide Inv, Next, MintsOf;
    if steps == [] {
      assert Gained(s.pool.minted, [], s.pool.minted);
      MintedCounted(c, s);
    } else {
      var s1 := Next(c, s, steps[0]);
      var now := MintsOf(c, s, steps[0]);
      NextKeepsInv(c, s, steps[0]);
      MintStep(c, s, steps[0]);
      MintedOnce(c, s1, steps[1..]);
      CombineMints(s.pool.minted, now, s1.pool.minted, Mints(c, s1, steps[1..]), Exec(c, s, steps).pool.minted);
    }
  }

  lemma CombineMints(before: set<u32>, now: seq<u32>, mid: set<u32>, later: seq<u32>, after: set<u32>)
    requires Gained(before, now, mid) && Gained(mid, later, after)
    ensures Gained(before, now + later, after)
  {
    var both := now + later;
    forall j, k | 0 <= j < k < |both|
      ensures both[j] != both[k]
    {
      if j < |now| <= k {
        assert now[j] in mid && later[k - |now|] !in mid;
      }
    }
    assert forall i :: i in both <==> i in now || i in later;
  }

  lemma MintStep(c: Config, s: State, step: Step)
    requires Inv(c, s)
    ensures Gained(s.pool.minted, MintsOf(c, s, step), Next(c, s, step).pool.minted)
  {
    hide Inv, Next, EventsOf, TrueEvent, Progressed, Resolves, Apply;
    if IsResolution(step) {
      ResolutionStep(c, s, step);
    } else {
      QuietStep(c, s, step);
    }
  }

  lemma MintedCounted(c: Config, s: State)
    requires Inv(c, s)
    ensures s.vault.mintedCount == |s.pool.minted|
  {
    hide PoolOk, ReserveOk, RandOk, EscrowOk, Solvent, ConfigOk, Singles, OwnersOk;
  }

  // ----- the randomness of pending requests

  /** Pending requests never share a randomness account, and each mirrors its own. */
  lemma RandomnessLifecycle(c: Config, s: State)
    requires Inv(c, s)
    ensures forall p: u64, q: u64 :: p in s.requests && q in s.requests && p != q ==>
              s.requests[p].randomness != s.requests[q].randomness
    ensures forall q: u64 :: q in s.requests ==>
              var r := s.requests[q];
              && r.randomness in s.rand && s.rand[r.randomness].seedSlot == r.seedSlot
              && (r.revealed <==> IsRevealed(s.rand[r.randomness], r.seedSlot))
              && (r.revealed ==> r.value == s.rand[r.randomness].value)
  {
    hide AssetsOk, PoolOk, ReserveOk, FifoOk, EscrowOk, Solvent, ConfigOk, CommitsOk;
    forall q: u64 | q in s.requests
      ensures s.locks.Keys >= {s.requests[q].randomness} && s.locks[s.requests[q].randomness] == q
    {
      assert RequestOk(c, s.requests[q], s.rand, s.locks);
    }
  }
}
