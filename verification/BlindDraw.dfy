/**
 The fairness claim: from the moment a request exists, the pool it will draw from is a function of what
 the vault held then and of how the earlier requests end. Nothing else that happens can change it.
 */
module BlindDraw {
  import opened Base
  import opened Pool
  import opened Vault
  import opened Accounting
  import opened Invariant
  import opened Preservation
  import opened History
  import Runs

  /** How an earlier request ended: with its random value, or without one. */
  datatype Ending = Drew(value: Digest) | Refunded

  function EndingOf(e: Event): Ending {
    match e
    case Settled(_, _, value, _) => Drew(value)
    case Expired(_, _, _, _) => Refunded
  }

  function Endings(log: seq<Event>): (endings: seq<Ending>)
    ensures |endings| == |log|
  {
    seq(|log|, k requires 0 <= k < |log| => EndingOf(log[k]))
  }

  function Back(r: Request): seq<u32> {
    if r.kind == Reroll then [r.handedIn] else []
  }

  /**
   What a request sees of the vault: the pool in order, the queued indices it may still draw, and
   what each request ahead of it will put back.
   */
  datatype View = View(slots: seq<u32>, queue: seq<Entry>, backs: seq<seq<u32>>)

  function ViewOf(s: State, q: u64): View
    requires s.vault.nextSettleSeq <= q && forall p: u64 :: s.vault.nextSettleSeq <= p < q ==> p in s.requests
  {
    View(s.pool.slots, s.pool.queue[..Eligible(s.pool.queue, q)],
         seq(q - s.vault.nextSettleSeq,
             k requires 0 <= k < q - s.vault.nextSettleSeq => Back(s.requests[s.vault.nextSettleSeq + k])))
  }

  /** The pool once the head may draw everything its number allows. */
  function Merged(v: View, head: u64): seq<u32> {
    v.slots + Indices(v.queue[..Eligible(v.queue, head)])
  }

  /** The pool after the head ended. */
  function AfterHead(c: Config, pool: seq<u32>, head: u64, ending: Ending, back: seq<u32>): seq<u32> {
    if ending.Drew? && 0 < |pool| <= U32_MAX && Position(c, ending.value, head, |pool|).Some? then
      SwapOut(pool, Position(c, ending.value, head, |pool|).value) + back
    else
      pool
  }

  /** The pool that the request behind `|v.backs|` others draws from, when those end as listed. */
  function Simulate(c: Config, v: View, head: u64, endings: seq<Ending>): seq<u32>
    decreases |v.backs|
  {
    if v.backs == [] || endings == [] || head == U64_MAX then
      Merged(v, head)
    else
      Simulate(c,
               View(AfterHead(c, Merged(v, head), head, endings[0], v.backs[0]), v.queue[Eligible(v.queue, head)..],
                    v.backs[1..]),
               head + 1, endings[1..])
  }

  /** The pool request `q` will draw from if the requests ahead of it end as listed. */
  function Fate(c: Config, s: State, q: u64, endings: seq<Ending>): seq<u32>
    requires s.vault.nextSettleSeq <= q && forall p: u64 :: s.vault.nextSettleSeq <= p < q ==> p in s.requests
  {
    Simulate(c, ViewOf(s, q), s.vault.nextSettleSeq, endings)
  }

  // ----- merging early changes nothing

  lemma MergedAhead(v: View, n: nat, head: u64)
    requires SortedTags(v.queue) && n <= Eligible(v.queue, head)
    ensures var ahead := View(v.slots + Indices(v.queue[..n]), v.queue[n..], v.backs);
            && Merged(ahead, head) == Merged(v, head)
            && ahead.queue[Eligible(ahead.queue, head)..] == v.queue[Eligible(v.queue, head)..]
  {
    hide Indices, Eligible, SortedTags;
    var e := Eligible(v.queue, head);
    EligibleDrop(v.queue, n, head);
    Slices(v.queue, n, e);
    IndicesConcat(v.queue[..n], v.queue[n..][..e - n]);
    var i, j := Indices(v.queue[..n]), Indices(v.queue[n..][..e - n]);
    assert (v.slots + i) + j == v.slots + (i + j);
  }

  lemma Slices<T>(s: seq<T>, n: nat, e: nat)
    requires n <= e <= |s|
    ensures s[..e] == s[..n] + s[n..][..e - n]
    ensures s[n..][e - n..] == s[e..]
    ensures s[n..][..e - n] == s[..e][n..] == s[n..e]
    ensures s[..e][..n] == s[..n]
  {
  }

  lemma MergeAhead(c: Config, v: View, n: nat, head: u64, endings: seq<Ending>)
    requires SortedTags(v.queue) && n <= Eligible(v.queue, head)
    ensures Simulate(c, View(v.slots + Indices(v.queue[..n]), v.queue[n..], v.backs), head, endings)
            == Simulate(c, v, head, endings)
  {
    hide AfterHead, Indices, Merged;
    MergedAhead(v, n, head);
  }

  // ----- the eligible part of the queue

  lemma EligiblePrefix(queue: seq<Entry>, t: u64, t': u64)
    requires SortedTags(queue) && t <= t'
    ensures Eligible(queue, t) <= Eligible(queue, t')
    ensures Eligible(queue[..Eligible(queue, t')], t) == Eligible(queue, t)
    ensures SortedTags(queue[..Eligible(queue, t')])
  {
    EligibleMonotone(queue, t, t');
    EligibleTake(queue, Eligible(queue, t'), t);
  }

  lemma {:induction false} EligibleTake(queue: seq<Entry>, n: nat, t: u64)
    requires Eligible(queue, t) <= n <= |queue|
    ensures Eligible(queue[..n], t) == Eligible(queue, t)
  {
    if n > 0 && queue[0].tag <= t {
      EligibleTake(queue[1..], n - 1, t);
      assert queue[..n][1..] == queue[1..][..n - 1];
    }
  }

  // ----- steps that resolve nothing

  /** The view of `q` is the same in both states. */
  lemma SameView(c: Config, s: State, s': State, q: u64)
    requires FifoOk(s.vault, s.requests) && FifoOk(s'.vault, s'.requests) && q in s.requests
    requires s'.vault.nextSettleSeq == s.vault.nextSettleSeq
    requires forall p: u64 :: p in s.requests ==> p in s'.requests && Back(s'.requests[p]) == Back(s.requests[p])
    requires s'.pool.slots == s.pool.slots
             && s'.pool.queue[..Eligible(s'.pool.queue, q)] == s.pool.queue[..Eligible(s.pool.queue, q)]
    ensures ViewOf(s', q) == ViewOf(s, q)
  {
    hide Eligible, Back;
  }

  lemma BackStays(slot: u64, r: Request, r': Request)
    requires Progressed(slot, r, r')
    ensures Back(r') == Back(r)
  {
  }

  lemma MergeKeepsFate(c: Config, s: State, max: u32, q: u64, endings: seq<Ending>)
    requires Inv(c, s) && q in s.requests
    ensures MergeIncoming(s, max).Ok?
    ensures var s' := MergeIncoming(s, max).value;
            s.vault.nextSettleSeq <= q < s.vault.nextSeq && FifoOk(s.vault, s.requests) && FifoOk(s'.vault, s'.requests)
            && s'.vault == s.vault
            && Fate(c, s', q, endings) == Fate(c, s, q, endings)
  {
    hide Inv, MergeIncoming, Simulate, AssetsOk, ReserveOk, RandOk, EscrowOk, QueueInRange;
    Runs.InvParts(c, s);
    MergeKeepsInv(c, s, max);
    MergedView(c, s, Min(Min(max, MAX_MERGE_PER_CRANK), Eligible(s.pool.queue, s.vault.nextSettleSeq)), q, endings);
  }

  lemma MergedView(c: Config, s: State, n: nat, q: u64, endings: seq<Ending>)
    requires FifoOk(s.vault, s.requests) && q in s.requests && SortedTags(s.pool.queue)
    requires n <= Eligible(s.pool.queue, s.vault.nextSettleSeq)
    ensures Fate(c, s.(pool := Advance(s.pool, n)), q, endings) == Fate(c, s, q, endings)
  {
    hide Simulate, Back, Indices, Eligible, SortedTags;
    var head, v, s' := s.vault.nextSettleSeq, ViewOf(s, q), s.(pool := Advance(s.pool, n));
    EligiblePrefix(s.pool.queue, head, q);
    EligibleDrop(s.pool.queue, n, q);
    Slices(s.pool.queue, n, Eligible(s.pool.queue, q));
    assert ViewOf(s', q) == View(v.slots + Indices(v.queue[..n]), v.queue[n..], v.backs);
    MergeAhead(c, v, n, head, endings);
  }

  lemma UnwrapKeepsView(c: Config, s: State, user: Key, index: u32, q: u64)
    requires Inv(c, s) && q in s.requests && Unwrap(c, s, user, index).Ok?
    ensures var s' := Unwrap(c, s, user, index).value;
            s'.pool.slots == s.pool.slots
              && s'.pool.queue[..Eligible(s'.pool.queue, q)] == s.pool.queue[..Eligible(s.pool.queue, q)]
  {
    hide Inv, Unwrap, AssetsOk, ReserveOk, RandOk, EscrowOk, QueueInRange, Wf, Eligible, IncomingPush;
    PendingRange(c, s, q);
    Runs.InvParts(c, s);
    UnwrapShape(c, s, user, index);
    PushedSorted(s.pool, index, s.vault.nextSeq);
    var e := Entry(index, s.vault.nextSeq);
    EligibleAppend(s.pool.queue, e, q);
    assert (s.pool.queue + [e])[..Eligible(s.pool.queue, q)] == s.pool.queue[..Eligible(s.pool.queue, q)];
  }

  lemma PushedSorted(pool: PoolState, index: u32, tag: u64)
    requires Wf(pool) && IncomingPush(pool, index, tag).Ok?
    ensures SortedTags(pool.queue + [Entry(index, tag)])
  {
    IncomingPushWf(pool, index, tag);
  }

  /** Neither the pool nor the part of the queue that `q` may draw changes, unless the step merges. */
  lemma QuietPool(c: Config, s: State, step: Step, q: u64)
    requires Inv(c, s) && q in s.requests && !IsResolution(step) && !step.DoMerge? && Core(c, s, step).Ok?
    ensures var s' := Core(c, s, step).value;
            s'.pool.slots == s.pool.slots
              && s'.pool.queue[..Eligible(s'.pool.queue, q)] == s.pool.queue[..Eligible(s.pool.queue, q)]
  {
    hide Inv, RequestCapture, RequestReroll, Reveal, Recommit, Unwrap, CheckCanRequest, FinishedTo, Outside, Eligible;
    match step
    case DoUnwrap(user, index) => UnwrapKeepsView(c, s, user, index, q);
    case DoCapture(user, liveMintCost, env) =>
      var paid := CaptureShape(c, s, user, liveMintCost, env);
      FinishedFrame(c, paid, Core(c, s, step).value, Core(c, s, step).value.requests[s.vault.nextSeq], Capture, user,
                    NO_HANDED_IN, env);
    case DoReroll(user, index, liveMintCost, env) =>
      var paid := RerollShape(c, s, user, index, liveMintCost, env);
      FinishedFrame(c, paid, Core(c, s, step).value, Core(c, s, step).value.requests[s.vault.nextSeq], Reroll, user,
                    index, env);
    case DoReveal(p, seedSlot, revealSlot, value) => RevealShape(s, p, seedSlot, revealSlot, value);
    case DoRecommit(p, env) => RecommitShape(c, s, p, env);
    case DoOpen(_, _) =>
    case DoInitRandomness(_, _) =>
    case _ => OutsidePool(c, s, step);
  }

  lemma OutsidePool(c: Config, s: State, step: Step)
    requires IsOutside(step) && Outside(c, s, step).Ok?
    ensures Outside(c, s, step).value.pool == s.pool
  {
  }

  /** Unwraps, requests, reveals, re-commits, merges and everything outside the vault leave the fate of `q` as it is. */
  lemma QuietKeepsFate(c: Config, s: State, step: Step, q: u64, endings: seq<Ending>)
    requires Inv(c, s) && q in s.requests && !IsResolution(step)
    ensures var s' := Next(c, s, step);
            && FifoOk(s.vault, s.requests) && FifoOk(s'.vault, s'.requests)
            && s.vault.nextSettleSeq == s'.vault.nextSettleSeq <= q && q in s'.requests
            && Fate(c, s', q, endings) == Fate(c, s, q, endings)
  {
    hide Inv, Core, Fate, Progressed, Eligible, AssetsOk, PoolOk, ReserveOk, RandOk, EscrowOk;
    var s' := Next(c, s, step);
    NextKeepsInv(c, s, step);
    Runs.InvParts(c, s);
    Runs.InvParts(c, s');
    PendingRange(c, s, q);
    QuietStep(c, s, step);
    CheckIsRedundant(c, s, step);
    if Core(c, s, step).Ok? {
      if step.DoMerge? {
        MergeCore(c, s, step);
        MergeKeepsFate(c, s, step.max, q, endings);
      } else {
        QuietPool(c, s, step, q);
        forall p: u64 | p in s.requests
          ensures p in s'.requests && Back(s'.requests[p]) == Back(s.requests[p])
        {
          BackStays(s.slot, s.requests[p], s'.requests[p]);
        }
        SameView(c, s, s', q);
        FateOfView(c, s, s', q, endings);
      }
    }
  }

  lemma MergeCore(c: Config, s: State, step: Step)
    requires step.DoMerge?
    ensures Core(c, s, step) == MergeIncoming(s, step.max)
  {
  }

  lemma FateOfView(c: Config, s: State, s': State, q: u64, endings: seq<Ending>)
    requires FifoOk(s.vault, s.requests) && FifoOk(s'.vault, s'.requests)
             && s.vault.nextSettleSeq == s'.vault.nextSettleSeq <= q
    requires q in s.requests && q in s'.requests && ViewOf(s', q) == ViewOf(s, q)
    ensures Fate(c, s', q, endings) == Fate(c, s, q, endings)
  {
  }

  // ----- steps that resolve the head

  /** The view behind the head, once the head has merged what it may. */
  lemma BehindHead(c: Config, s: State, s': State, q: u64)
    requires FifoOk(s.vault, s.requests) && FifoOk(s'.vault, s'.requests) && SortedTags(s.pool.queue) && q in s.requests
    requires s'.vault.nextSettleSeq == s.vault.nextSettleSeq + 1 <= q
    requires forall p: u64 :: p in s.requests && p > s.vault.nextSettleSeq ==>
               p in s'.requests && s'.requests[p] == s.requests[p]
    ensures ViewOf(s', q).backs == ViewOf(s, q).backs[1..] && ViewOf(s, q).backs != []
    ensures ViewOf(s, q).backs[0] == Back(s.requests[s.vault.nextSettleSeq])
    ensures Merged(ViewOf(s, q), s.vault.nextSettleSeq) == Ready(s.pool, s.vault.nextSettleSeq).slots
    ensures ViewOf(s, q).queue[Eligible(ViewOf(s, q).queue, s.vault.nextSettleSeq)..]
            == s.pool.queue[Eligible(s.pool.queue, s.vault.nextSettleSeq)..Eligible(s.pool.queue, q)]
  {
    BacksBehind(c, s, s', q);
    MergedBehind(s.pool, s.vault.nextSettleSeq, q);
    hide Indices, Back, Eligible, SortedTags, FifoOk;
  }

  lemma BacksBehind(c: Config, s: State, s': State, q: u64)
    requires FifoOk(s.vault, s.requests) && FifoOk(s'.vault, s'.requests) && q in s.requests
    requires s'.vault.nextSettleSeq == s.vault.nextSettleSeq + 1 <= q
    requires forall p: u64 :: p in s.requests && p > s.vault.nextSettleSeq ==>
               p in s'.requests && s'.requests[p] == s.requests[p]
    ensures ViewOf(s', q).backs == ViewOf(s, q).backs[1..] && ViewOf(s, q).backs != []
    ensures ViewOf(s, q).backs[0] == Back(s.requests[s.vault.nextSettleSeq])
  {
    hide Back, Eligible;
  }

  lemma MergedBehind(pool: PoolState, head: u64, q: u64)
    requires SortedTags(pool.queue) && head <= q
    ensures var seen := pool.queue[..Eligible(pool.queue, q)];
            && Eligible(seen, head) == Eligible(pool.queue, head) <= Eligible(pool.queue, q)
            && seen[..Eligible(seen, head)] == pool.queue[..Eligible(pool.queue, head)]
            && seen[Eligible(seen, head)..] == pool.queue[Eligible(pool.queue, head)..Eligible(pool.queue, q)]
  {
    hide Eligible, SortedTags;
    EligiblePrefix(pool.queue, head, q);
    Slices(pool.queue, Eligible(pool.queue, head), Eligible(pool.queue, q));
  }

  lemma ExpireFollowsFate(c: Config, s: State, seqNo: u64, asset: u32, q: u64, endings: seq<Ending>)
    requires Inv(c, s) && q in s.requests && ExpireOne(c, s, seqNo, asset).Ok? && q > s.vault.nextSettleSeq
    ensures var s' := ExpireOne(c, s, seqNo, asset).value;
            && FifoOk(s.vault, s.requests) && FifoOk(s'.vault, s'.requests) && q in s'.requests
               && s'.vault.nextSettleSeq <= q
            && Fate(c, s, q, [Refunded] + endings) == Fate(c, s', q, endings)
  {
    hide Inv, ExpireOne, AssetsOk, ReserveOk, RandOk, EscrowOk, QueueInRange, Expirable;
    Runs.InvParts(c, s);
    ExpireOneKeepsInv(c, s, seqNo, asset);
    Runs.InvParts(c, ExpireOne(c, s, seqNo, asset).value);
    ExpireResolves(c, s, seqNo, asset);
    RefundFate(c, s, ExpireOne(c, s, seqNo, asset).value, q, endings);
  }

  lemma RefundFate(c: Config, s: State, s': State, q: u64, endings: seq<Ending>)
    requires FifoOk(s.vault, s.requests) && FifoOk(s'.vault, s'.requests) && SortedTags(s.pool.queue) && q in s.requests
    requires s'.vault.nextSettleSeq == s.vault.nextSettleSeq + 1 <= q && s'.pool == s.pool
    requires forall p: u64 :: p in s.requests && p > s.vault.nextSettleSeq ==>
               p in s'.requests && s'.requests[p] == s.requests[p]
    ensures Fate(c, s, q, [Refunded] + endings) == Fate(c, s', q, endings)
  {
    hide Back, Indices, FifoOk;
    FifoRange(s.vault, s.requests, q);
    FifoRange(s'.vault, s'.requests, q);
    var head, v := s.vault.nextSettleSeq, ViewOf(s', q);
    BehindHead(c, s, s', q);
    EligiblePrefix(s.pool.queue, head, q);
    var n := Eligible(v.queue, head);
    assert ([Refunded] + endings)[1..] == endings;
    EligibleMonotone(v.queue, head, head + 1);
    var ahead := View(v.slots + Indices(v.queue[..n]), v.queue[n..], v.backs);
    RefundUnfolds(c, ViewOf(s, q), head, endings);
    assert View(Merged(ViewOf(s, q), head), ViewOf(s, q).queue[n..], ViewOf(s, q).backs[1..]) == ahead;
    MergeAhead(c, v, n, head + 1, endings);
  }

  lemma FifoRange(v: Vault, requests: map<u64, Request>, q: u64)
    requires FifoOk(v, requests) && q in requests
    ensures v.nextSettleSeq <= q < v.nextSeq && forall p: u64 :: v.nextSettleSeq <= p < q ==> p in requests
  {
  }

  lemma RefundUnfolds(c: Config, v: View, head: u64, endings: seq<Ending>)
    requires v.backs != [] && head < U64_MAX
    ensures Simulate(c, v, head, [Refunded] + endings)
            == Simulate(c, View(Merged(v, head), v.queue[Eligible(v.queue, head)..], v.backs[1..]), head + 1, endings)
  {
    hide Merged, Eligible;
    assert ([Refunded] + endings)[1..] == endings;
  }

  lemma DrewUnfolds(c: Config, v: View, head: u64, value: Digest, endings: seq<Ending>)
    requires v.backs != [] && head < U64_MAX
    ensures Simulate(c, v, head, [Drew(value)] + endings)
            == Simulate(c,
                        View(AfterHead(c, Merged(v, head), head, Drew(value), v.backs[0]),
                             v.queue[Eligible(v.queue, head)..], v.backs[1..]),
                        head + 1, endings)
  {
    hide Merged, Eligible, AfterHead;
    assert ([Drew(value)] + endings)[1..] == endings;
  }

  /** What a settle did to the pool, in terms of the fate of its request. */
  ghost predicate SettledPool(c: Config, s: State, s': State, r: Request, asset: u32) {
    && r.seqNo == s.vault.nextSettleSeq
    && var ready := Ready(s.pool, r.seqNo);
    && 0 < |ready.slots| <= U32_MAX && Position(c, r.value, r.seqNo, |ready.slots|).Some?
    && var pos := Position(c, r.value, r.seqNo, |ready.slots|).value;
    && asset == ready.slots[pos]
    && s'.pool.slots == SwapOut(ready.slots, pos) + Back(r)
    && s'.pool.queue == s.pool.queue[Eligible(s.pool.queue, r.seqNo)..]
  }

  lemma SettlePool(c: Config, s: State, args: SettleArgs)
    requires Inv(c, s) && Settle(c, s, args).Ok?
    ensures args.seqNo == s.vault.nextSettleSeq && args.seqNo in s.requests
    ensures SettledPool(c, s, Settle(c, s, args).value, s.requests[args.seqNo], args.asset)
  {
    hide Inv, Settle, Draw, AssetsOk, ReserveOk, RandOk, EscrowOk, Wf, QueueInRange, Position, Eligible, FifoOk;
    Runs.InvParts(c, s);
    SettleShape(c, s, args);
    var r := s.requests[args.seqNo];
    FifoHead(s.vault, s.requests);
    if r.kind == Reroll {
      HeadHandIn(c, s.vault, s.pool, s.requests, s.owner);
    }
    DrawShape(c, s.pool, r);
  }

  lemma SettleFollowsFate(c: Config, s: State, args: SettleArgs, q: u64, endings: seq<Ending>)
    requires Inv(c, s) && q in s.requests && Settle(c, s, args).Ok? && q > s.vault.nextSettleSeq
    ensures var s' := Settle(c, s, args).value;
            && FifoOk(s.vault, s.requests) && FifoOk(s'.vault, s'.requests) && q in s'.requests
               && s'.vault.nextSettleSeq <= q
            && args.seqNo in s.requests
            && Fate(c, s, q, [Drew(s.requests[args.seqNo].value)] + endings) == Fate(c, s', q, endings)
  {
    hide Inv, Settle, AssetsOk, ReserveOk, RandOk, EscrowOk, QueueInRange, SettledPool;
    Runs.InvParts(c, s);
    SettleKeepsInv(c, s, args);
    Runs.InvParts(c, Settle(c, s, args).value);
    SettleResolves(c, s, args);
    SettlePool(c, s, args);
    DrewFate(c, s, Settle(c, s, args).value, s.requests[args.seqNo], args.asset, q, endings);
  }

  lemma DrewFate(c: Config, s: State, s': State, r: Request, asset: u32, q: u64, endings: seq<Ending>)
    requires FifoOk(s.vault, s.requests) && FifoOk(s'.vault, s'.requests) && SortedTags(s.pool.queue) && q in s.requests
    requires s'.vault.nextSettleSeq == s.vault.nextSettleSeq + 1 <= q
    requires s.vault.nextSettleSeq in s.requests && r == s.requests[s.vault.nextSettleSeq]
             && SettledPool(c, s, s', r, asset)
    requires forall p: u64 :: p in s.requests && p > s.vault.nextSettleSeq ==>
               p in s'.requests && s'.requests[p] == s.requests[p]
    ensures Fate(c, s, q, [Drew(r.value)] + endings) == Fate(c, s', q, endings)
  {
    hide Back, Indices, FifoOk, Position, Eligible, Merged, Ready, SortedTags, SwapOut, Simulate;
    FifoRange(s.vault, s.requests, q);
    FifoRange(s'.vault, s'.requests, q);
    var head, v := s.vault.nextSettleSeq, ViewOf(s, q);
    BehindHead(c, s, s', q);
    DrewUnfolds(c, v, head, r.value, endings);
    var e, f := Eligible(s.pool.queue, head), Eligible(s.pool.queue, q);
    EligiblePrefix(s.pool.queue, head, q);
    EligibleDrop(s.pool.queue, e, q);
    Slices(s.pool.queue, e, f);
  }

  lemma {:induction false} GroupsFollowFate(c: Config, s: State, groups: seq<Group>, q: u64, endings: seq<Ending>)
    requires Inv(c, s) && q in s.requests && ExpireGroups(c, s, groups).Ok?
    requires q >= ExpireGroups(c, s, groups).value.vault.nextSettleSeq
    ensures var s' := ExpireGroups(c, s, groups).value;
            && FifoOk(s.vault, s.requests) && FifoOk(s'.vault, s'.requests) && q in s'.requests
            && s.vault.nextSettleSeq <= q
            && Fate(c, s, q, seq(|groups|, _ => Refunded) + endings) == Fate(c, s', q, endings)
    decreases |groups|
  {
    hide Inv, ExpireOne, Fate, AssetsOk, ReserveOk, RandOk, EscrowOk, PoolOk, Expirable;
    Runs.InvParts(c, s);
    PendingRange(c, s, q);
    if groups == [] {
      assert seq(0, _ => Refunded) + endings == endings;
    } else {
      var mid := ExpireOne(c, s, groups[0].seqNo, groups[0].asset).value;
      var rest := groups[1..];
      ExpireOneKeepsInv(c, s, groups[0].seqNo, groups[0].asset);
      ExpireResolves(c, s, groups[0].seqNo, groups[0].asset);
      GroupsResolve(c, mid, rest);
      var more := seq(|rest|, _ => Refunded) + endings;
      ExpireFollowsFate(c, s, groups[0].seqNo, groups[0].asset, q, more);
      GroupsFollowFate(c, mid, rest, q, endings);
      assert seq(|groups|, _ => Refunded) + endings == [Refunded] + more;
    }
  }

  // ----- one step, then whole runs

  lemma StepFollowsFate(c: Config, s: State, step: Step, q: u64, endings: seq<Ending>)
    requires Inv(c, s) && q in s.requests && q >= Next(c, s, step).vault.nextSettleSeq
    ensures var s' := Next(c, s, step);
            && FifoOk(s.vault, s.requests) && FifoOk(s'.vault, s'.requests) && q in s'.requests
            && s.vault.nextSettleSeq <= q
            && Fate(c, s, q, Endings(EventsOf(c, s, step)) + endings) == Fate(c, s', q, endings)
  {
    hide Inv, Core, Fate, AssetsOk, PoolOk, ReserveOk, RandOk, EscrowOk, Progressed, TrueEvent;
    if !IsResolution(step) {
      QuietStep(c, s, step);
      QuietKeepsFate(c, s, step, q, endings);
      assert Endings([]) + endings == endings;
    } else {
      CheckIsRedundant(c, s, step);
      PendingRange(c, s, q);
      Runs.InvParts(c, s);
      if Core(c, s, step).Err? {
        assert Endings([]) + endings == endings;
      } else {
        ResolutionFollowsFate(c, s, step, Core(c, s, step).value, q, endings);
      }
    }
  }

  lemma ResolutionFollowsFate(c: Config, s: State, step: Step, s': State, q: u64, endings: seq<Ending>)
    requires Inv(c, s) && q in s.requests && IsResolution(step)
    requires Core(c, s, step) == Apply(c, s, step) == Ok(s') && q >= s'.vault.nextSettleSeq
    ensures && FifoOk(s.vault, s.requests) && FifoOk(s'.vault, s'.requests) && q in s'.requests
            && s.vault.nextSettleSeq <= q
            && Fate(c, s, q, Endings(EventsOf(c, s, step)) + endings) == Fate(c, s', q, endings)
  {
    hide Inv, Apply, Settle, ExpireOne, ExpireGroups, Fate, Expirable;
    match step
    case DoSettle(args) =>
      SettleResolves(c, s, args);
      SettleFollowsFate(c, s, args, q, endings);
      assert Endings(EventsOf(c, s, step)) == [Drew(s.requests[args.seqNo].value)];
    case DoExpire(seqNo, asset) =>
      ExpireResolves(c, s, seqNo, asset);
      ExpireFollowsFate(c, s, seqNo, asset, q, endings);
      assert Endings(EventsOf(c, s, step)) == [Refunded];
    case DoExpireBatch(count, groups) =>
      GroupsResolve(c, s, groups);
      GroupsFollowFate(c, s, groups, q, endings);
      assert Endings(EventsOf(c, s, step)) == seq(|groups|, _ => Refunded);
  }

  lemma {:induction false} RunFollowsFate(c: Config, s: State, steps: seq<Step>, q: u64, endings: seq<Ending>)
    requires Inv(c, s) && q in s.requests && q >= Exec(c, s, steps).vault.nextSettleSeq
    ensures var s' := Exec(c, s, steps);
            && FifoOk(s.vault, s.requests) && FifoOk(s'.vault, s'.requests) && q in s'.requests
            && s.vault.nextSettleSeq <= q
            && Fate(c, s, q, Endings(Log(c, s, steps)) + endings) == Fate(c, s', q, endings)
    decreases |steps|
  {
    hide Inv, Next, EventsOf, Fate, EndingOf, AssetsOk, PoolOk, ReserveOk, RandOk, EscrowOk, TrueEvent;
    PendingRange(c, s, q);
    Runs.InvParts(c, s);
    if steps == [] {
      assert Endings([]) + endings == endings;
    } else {
      var s1 := Next(c, s, steps[0]);
      NextKeepsInv(c, s, steps[0]);
      ResolvedOnceInOrder(c, s1, steps[1..]);
      var now, later := EventsOf(c, s, steps[0]), Log(c, s1, steps[1..]);
      StepFollowsFate(c, s, steps[0], q, Endings(later) + endings);
      RunFollowsFate(c, s1, steps[1..], q, endings);
      assert Endings(now + later) + endings == Endings(now) + (Endings(later) + endings);
    }
  }

  /**
   Blind draw. Take any state in which request `q` is pending, for example the one right after it was
   made, and any run from there that brings `q` to the head. The pool `q` then draws from, in order, is
   `Simulate` of what `q` saw at the start and of how the requests ahead of it ended.
   */
  lemma BlindDraw(c: Config, s: State, steps: seq<Step>, q: u64)
    requires Inv(c, s) && q in s.requests && Exec(c, s, steps).vault.nextSettleSeq == q
    ensures s.vault.nextSettleSeq <= q && (forall p: u64 :: s.vault.nextSettleSeq <= p < q ==> p in s.requests)
    ensures q in Exec(c, s, steps).requests
    ensures Ready(Exec(c, s, steps).pool, q).slots
            == Simulate(c, ViewOf(s, q), s.vault.nextSettleSeq, Endings(Log(c, s, steps)))
  {
    hide Inv, Exec, Log, AssetsOk, PoolOk, ReserveOk, RandOk, EscrowOk, EndingOf;
    RunFollowsFate(c, s, steps, q, []);
    PendingRange(c, s, q);
    assert Endings(Log(c, s, steps)) + [] == Endings(Log(c, s, steps));
    ExecKeepsInv(c, s, steps);
    HeadDrawsMerged(c, Exec(c, s, steps), q);
  }

  lemma HeadDrawsMerged(c: Config, s: State, q: u64)
    requires Inv(c, s) && q == s.vault.nextSettleSeq
    ensures Simulate(c, ViewOf(s, q), q, []) == Ready(s.pool, q).slots
  {
    hide Inv, AssetsOk, ReserveOk, RandOk, EscrowOk;
    Runs.InvParts(c, s);
    EligiblePrefix(s.pool.queue, q, q);
    assert ViewOf(s, q).queue[..Eligible(s.pool.queue, q)] == s.pool.queue[..Eligible(s.pool.queue, q)];
  }

  lemma SettledAssetIs(c: Config, s: State, args: SettleArgs)
    requires Inv(c, s) && Apply(c, s, DoSettle(args)).Ok?
    ensures args.seqNo == s.vault.nextSettleSeq && args.seqNo in s.requests
    ensures SettledPool(c, s, Apply(c, s, DoSettle(args)).value, s.requests[args.seqNo], args.asset)
  {
    hide Inv, Settle, Check, SettledPool;
    CheckIsRedundant(c, s, DoSettle(args));
    SettlePool(c, s, args);
  }

  /** And if `q` is settled next, the asset it gives is the one that its recorded value picks in that pool. */
  lemma BlindAsset(c: Config, s: State, steps: seq<Step>, q: u64, args: SettleArgs)
    requires Inv(c, s) && q in s.requests && Exec(c, s, steps).vault.nextSettleSeq == q
    requires Apply(c, Exec(c, s, steps), DoSettle(args)).Ok?
    ensures s.vault.nextSettleSeq <= q && (forall p: u64 :: s.vault.nextSettleSeq <= p < q ==> p in s.requests)
    ensures q in Exec(c, s, steps).requests
    ensures var pool := Simulate(c, ViewOf(s, q), s.vault.nextSettleSeq, Endings(Log(c, s, steps)));
            && 0 < |pool| <= U32_MAX
            && var pos := Position(c, Exec(c, s, steps).requests[q].value, q, |pool|);
            pos.Some? && args.asset == pool[pos.value]
  {
    hide Inv, Exec, Log, Apply, Ready, Simulate, ViewOf, EndingOf, Position;
    BlindDraw(c, s, steps, q);
    ExecKeepsInv(c, s, steps);
    SettledAssetIs(c, Exec(c, s, steps), args);
  }

  /** A run from `s` that ends in `s'` with request `q` at the head and its value on record. */
  ghost predicate Reaches(c: Config, s: State, steps: seq<Step>, s': State, q: u64, value: Digest) {
    && Inv(c, s) && q in s.requests && s' == Exec(c, s, steps)
    && s'.vault.nextSettleSeq == q && q in s'.requests && s'.requests[q].value == value
  }

  /** `q` sees the same of both states. */
  ghost predicate SameSight(s: State, t: State, q: u64) {
    && s.vault.nextSettleSeq == t.vault.nextSettleSeq <= q
    && (forall p: u64 :: s.vault.nextSettleSeq <= p < q ==> p in s.requests && p in t.requests)
    && ViewOf(s, q) == ViewOf(t, q)
  }

  /**
   Two futures, one draw: whatever two runs do besides, if the requests ahead of `q` end alike in both and
   `q` reveals the same value, then both settle `q` with the same asset.
   */
  lemma SameEndingsSameAsset(c: Config, s: State, t: State, stepsA: seq<Step>, stepsB: seq<Step>, s': State, t': State,
                             q: u64, value: Digest, a: SettleArgs, b: SettleArgs)
    requires Reaches(c, s, stepsA, s', q, value) && Reaches(c, t, stepsB, t', q, value)
    requires SameSight(s, t, q) && Endings(Log(c, s, stepsA)) == Endings(Log(c, t, stepsB))
    requires Apply(c, s', DoSettle(a)).Ok? && Apply(c, t', DoSettle(b)).Ok?
    ensures a.asset == b.asset
  {
    hide Inv, Exec, Log, Apply, Ready, Simulate, ViewOf, EndingOf, Position;
    BlindDraw(c, s, stepsA, q);
    BlindDraw(c, t, stepsB, q);
    ExecKeepsInv(c, s, stepsA);
    ExecKeepsInv(c, t, stepsB);
    SettledAssetIs(c, s', a);
    SettledAssetIs(c, t', b);
  }

  // ----- later deposits are never drawn

  /** A request draws only from what it sees: the pool, the queue up to its number, and earlier hand-ins. */
  lemma {:induction false} DrawsOnlyWhatIsSeen(c: Config, v: View, head: u64, endings: seq<Ending>, i: u32)
    requires i in Simulate(c, v, head, endings)
    ensures i in v.slots || i in Indices(v.queue) || exists k :: 0 <= k < |v.backs| && i in v.backs[k]
    decreases |v.backs|
  {
    hide Position;
    var e := Eligible(v.queue, head);
    IndicesConcat(v.queue[..e], v.queue[e..]);
    assert v.queue == v.queue[..e] + v.queue[e..];
    if v.backs != [] && endings != [] && head != U64_MAX {
      var pool := Merged(v, head);
      var rest := View(AfterHead(c, pool, head, endings[0], v.backs[0]), v.queue[e..], v.backs[1..]);
      DrawsOnlyWhatIsSeen(c, rest, head + 1, endings[1..], i);
      if i in rest.slots {
        AfterHeadContents(c, pool, head, endings[0], v.backs[0], i);
      } else if i !in Indices(rest.queue) {
        var k :| 0 <= k < |rest.backs| && i in rest.backs[k];
        assert i in v.backs[k + 1];
      }
    }
  }

  lemma AfterHeadContents(c: Config, pool: seq<u32>, head: u64, ending: Ending, back: seq<u32>, i: u32)
    requires i in AfterHead(c, pool, head, ending, back)
    ensures i in pool || i in back
  {
    hide Position;
  }

  lemma {:induction false} HandInIsHeld(requests: map<u64, Request>, lo: u64, hi: u64, p: u64)
    requires lo <= p < hi && forall q: u64 :: lo <= q < hi ==> q in requests
    ensures HandIn(requests[p]) <= HeldFrom(requests, lo, hi)
    decreases hi - lo
  {
    hide HandIn;
    if lo < p {
      HandInIsHeld(requests, lo + 1, hi, p);
    }
  }

  lemma BackIsHandIn(r: Request, i: u32)
    ensures i in Back(r) <==> i in HandIn(r)
  {
  }

  lemma PartsOfContents(pool: PoolState, n: nat, i: u32)
    requires n <= |pool.queue| && (i in pool.slots || i in Indices(pool.queue[..n]))
    ensures i in Contents(pool)
  {
    IndicesConcat(pool.queue[..n], pool.queue[n..]);
    assert pool.queue == pool.queue[..n] + pool.queue[n..];
    hide Indices;
  }

  /** Everything a pending request sees is inside the vault. */
  lemma SeenIsInside(c: Config, s: State, q: u64, i: u32)
    requires FifoOk(s.vault, s.requests) && q in s.requests
    requires var v := ViewOf(s, q);
             i in v.slots || i in Indices(v.queue) || exists k :: 0 <= k < |v.backs| && i in v.backs[k]
    ensures i in Inside(s.vault, s.pool, s.requests)
  {
    hide HeldFrom, Eligible, Contents, Indices;
    var v := ViewOf(s, q);
    if i in v.slots || i in Indices(v.queue) {
      PartsOfContents(s.pool, Eligible(s.pool.queue, q), i);
    } else {
      var k :| 0 <= k < |v.backs| && i in v.backs[k];
      var p := s.vault.nextSettleSeq + k;
      HandInIsHeld(s.requests, s.vault.nextSettleSeq, s.vault.nextSeq, p);
      BackIsHandIn(s.requests[p], i);
    }
  }

  /**
   An asset that is outside at any moment while a request is pending, so that it can only be deposited after the request
   was made, is never the asset this request settles with, however the run goes on.
   */
  lemma LaterDepositsNeverDrawn(c: Config, s: State, steps: seq<Step>, q: u64, args: SettleArgs, i: u32)
    requires Inv(c, s) && FifoOk(s.vault, s.requests) && q in s.requests && i in Runs.OutsideSet(c, s)
    requires Exec(c, s, steps).vault.nextSettleSeq == q && Apply(c, Exec(c, s, steps), DoSettle(args)).Ok?
    ensures args.asset != i
  {
    hide Inv, Exec, Log, Apply, Ready, Simulate, ViewOf, Position, Inside;
    BlindDraw(c, s, steps, q);
    var s', v := Exec(c, s, steps), ViewOf(s, q);
    ExecKeepsInv(c, s, steps);
    SettledAssetIs(c, s', args);
    if args.asset == i {
      DrawsOnlyWhatIsSeen(c, v, s.vault.nextSettleSeq, Endings(Log(c, s, steps)), i);
      SeenIsInside(c, s, q, i);
    }
  }
}
