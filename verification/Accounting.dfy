/** Where every index of the collection is: in the pool account, held as a hand-in, or outside. */
module Accounting {
  import opened Base
  import opened Pool
  import opened Vault

  /** The pending requests are exactly those from the queue head up to the next sequence number. */
  ghost predicate FifoOk(v: Vault, requests: map<u64, Request>) {
    && v.nextSettleSeq <= v.nextSeq
    && (forall q: u64 :: q in requests <==> v.nextSettleSeq <= q < v.nextSeq)
    && (forall q: u64 :: q in requests ==> requests[q].seqNo == q)
  }

  function HandIn(r: Request): multiset<u32> {
    if r.kind == Reroll then multiset{r.handedIn} else multiset{}
  }

  /** The hand-ins of the requests from `lo` up to `hi`. */
  ghost function HeldFrom(requests: map<u64, Request>, lo: u64, hi: u64): multiset<u32>
    requires lo <= hi && forall q: u64 :: lo <= q < hi ==> q in requests
    decreases hi - lo
  {
    if lo == hi then multiset{} else HandIn(requests[lo]) + HeldFrom(requests, lo + 1, hi)
  }

  lemma {:induction false} HeldFrame(a: map<u64, Request>, b: map<u64, Request>, lo: u64, hi: u64)
    requires lo <= hi && forall q: u64 :: lo <= q < hi ==> q in a && q in b && HandIn(a[q]) == HandIn(b[q])
    ensures HeldFrom(a, lo, hi) == HeldFrom(b, lo, hi)
    decreases hi - lo
  {
    if lo < hi {
      HeldFrame(a, b, lo + 1, hi);
    }
  }

  lemma {:induction false} HeldAppend(requests: map<u64, Request>, lo: u64, hi: u64)
    requires lo <= hi < U64_MAX && forall q: u64 :: lo <= q <= hi ==> q in requests
    ensures HeldFrom(requests, lo, hi + 1) == HeldFrom(requests, lo, hi) + HandIn(requests[hi])
    decreases hi - lo
  {
    if lo < hi {
      HeldAppend(requests, lo + 1, hi);
    }
  }

  /** The hand-ins of all pending requests. */
  ghost function Held(v: Vault, requests: map<u64, Request>): multiset<u32>
    requires FifoOk(v, requests)
  {
    HeldFrom(requests, v.nextSettleSeq, v.nextSeq)
  }

  /** Everything the vault holds: the pool account and the hand-ins. */
  ghost function Inside(v: Vault, pool: PoolState, requests: map<u64, Request>): multiset<u32>
    requires FifoOk(v, requests)
  {
    Contents(pool) + Held(v, requests)
  }

  /** A new request at the end of the queue adds its hand-in. */
  lemma HeldAfterRequest(v: Vault, requests: map<u64, Request>, v': Vault, r: Request)
    requires FifoOk(v, requests) && v.nextSeq < U64_MAX && r.seqNo == v.nextSeq
    requires v'.nextSettleSeq == v.nextSettleSeq && v'.nextSeq == v.nextSeq + 1
    ensures FifoOk(v', requests[v.nextSeq := r])
    ensures Held(v', requests[v.nextSeq := r]) == Held(v, requests) + HandIn(r)
  {
    hide HeldFrom, HandIn;
    var more := requests[v.nextSeq := r];
    HeldAppend(more, v.nextSettleSeq, v.nextSeq);
    HeldFrame(requests, more, v.nextSettleSeq, v.nextSeq);
  }

  /** Closing the head takes its hand-in out. */
  lemma HeldAfterClose(v: Vault, requests: map<u64, Request>, v': Vault)
    requires FifoOk(v, requests) && v.nextSettleSeq in requests
    requires v'.nextSettleSeq == v.nextSettleSeq + 1 && v'.nextSeq == v.nextSeq
    ensures FifoOk(v', requests - {v.nextSettleSeq})
    ensures Held(v, requests) == HandIn(requests[v.nextSettleSeq]) + Held(v', requests - {v.nextSettleSeq})
  {
    var fewer := requests - {v.nextSettleSeq};
    HeldFrame(requests, fewer, v.nextSettleSeq + 1, v.nextSeq);
  }

  /** Changing a request without touching its kind or hand-in keeps the hand-ins. */
  lemma HeldAfterUpdate(v: Vault, requests: map<u64, Request>, q: u64, r: Request)
    requires FifoOk(v, requests) && q in requests && r.seqNo == q && HandIn(r) == HandIn(requests[q])
    ensures FifoOk(v, requests[q := r])
    ensures Held(v, requests[q := r]) == Held(v, requests)
  {
    hide HeldFrom, HandIn;
    HeldFrame(requests, requests[q := r], v.nextSettleSeq, v.nextSeq);
  }

  // ----- the effect of a draw

  /** The pool a request draws from: the entries it may draw have all been merged. */
  function Ready(pool: PoolState, seqNo: u64): PoolState {
    Advance(pool, Eligible(pool.queue, seqNo))
  }

  lemma MergeForDraw(pool: PoolState, seqNo: u64)
    requires Wf(pool) && QueueInRange(pool)
    ensures var (p, r) := Merge(pool, seqNo, MAX_MERGE_PER_IX);
            && r.Ok?
            && ((FrontTag(p).Some? ==> FrontTag(p).value > seqNo) <==> Eligible(pool.queue, seqNo) <= MAX_MERGE_PER_IX)
            && (Eligible(pool.queue, seqNo) <= MAX_MERGE_PER_IX ==> p == Ready(pool, seqNo))
  {
    MergeMoves(pool, seqNo, MAX_MERGE_PER_IX);
    EligibleIsAllSmallTags(pool.queue, seqNo);
    var n := Min(MAX_MERGE_PER_IX, Eligible(pool.queue, seqNo));
    var p := Advance(pool, n);
    if n < |pool.queue| {
      assert p.queue[0] == pool.queue[n];
    }
  }

  /** The pool after `picked` at `pos` left it and the hand-in, if any, came back. */
  function AfterDraw(ready: PoolState, pos: nat, request: Request): PoolState
    requires pos < |ready.slots|
  {
    ready.(slots := SwapOut(ready.slots, pos) + if request.kind == Reroll then [request.handedIn] else [])
  }

  /** When a draw succeeds, it drew position `Position(...)` of the ready pool. */
  lemma DrawShape(c: Config, pool: PoolState, request: Request)
    requires Wf(pool) && QueueInRange(pool) && (request.kind == Reroll ==> request.handedIn < pool.cap)
    requires Draw(c, pool, request).Ok?
    ensures Eligible(pool.queue, request.seqNo) <= MAX_MERGE_PER_IX
    ensures var ready := Ready(pool, request.seqNo);
            && 0 < |ready.slots| <= U32_MAX && Position(c, request.value, request.seqNo, |ready.slots|).Some?
            && var pos := Position(c, request.value, request.seqNo, |ready.slots|).value;
               Draw(c, pool, request) == Ok((AfterDraw(ready, pos, request), ready.slots[pos]))
  {
    hide Position, Merge, Eligible;
    MergeForDraw(pool, request.seqNo);
    var ready := Ready(pool, request.seqNo);
    var pos := Position(c, request.value, request.seqNo, |ready.slots|).value;
    assert SwapOut(ready.slots, pos) + [] == SwapOut(ready.slots, pos);
  }

  /** A draw moves one index out and the hand-in in; nothing else changes places. */
  lemma DrawContents(pool: PoolState, seqNo: u64, pos: nat, request: Request)
    requires pos < |Ready(pool, seqNo).slots|
    ensures var ready := Ready(pool, seqNo);
            Contents(AfterDraw(ready, pos, request)) + multiset{ready.slots[pos]} == Contents(pool) + HandIn(request)
    ensures Ready(pool, seqNo).slots[pos] in Contents(pool)
  {
    hide Eligible;
    var ready := Ready(pool, seqNo);
    AdvanceContents(pool, Eligible(pool.queue, seqNo));
    SwapOutContents(ready.slots, pos);
    var back := if request.kind == Reroll then [request.handedIn] else [];
    assert multiset(SwapOut(ready.slots, pos) + back) == multiset(SwapOut(ready.slots, pos)) + HandIn(request);
  }

  lemma DrawWf(pool: PoolState, seqNo: u64, pos: nat, request: Request)
    requires Wf(pool) && QueueInRange(pool) && pos < |Ready(pool, seqNo).slots|
    requires request.kind == Reroll ==> request.handedIn < pool.cap
    ensures Wf(AfterDraw(Ready(pool, seqNo), pos, request)) && QueueInRange(AfterDraw(Ready(pool, seqNo), pos, request))
  {
    hide Eligible, Indices;
    AdvanceWf(pool, Eligible(pool.queue, seqNo));
    var ready := Ready(pool, seqNo);
    var left := ready.(slots := SwapOut(ready.slots, pos));
    assert Wf(left);
    if request.kind == Reroll {
      assert AfterDraw(ready, pos, request).slots == left.slots + [request.handedIn];
    } else {
      assert AfterDraw(ready, pos, request).slots == left.slots;
    }
  }

  /** `after` is what a draw for `request` leaves of `pool` once `picked` is out. */
  ghost predicate Drawn(pool: PoolState, request: Request, after: PoolState, picked: u32) {
    && Wf(after) && QueueInRange(after) && after.cap == pool.cap && after.minted == pool.minted
    && Contents(after) + multiset{picked} == Contents(pool) + HandIn(request)
    && picked in Contents(pool)
    && after.queue == pool.queue[Eligible(pool.queue, request.seqNo)..]
    && |after.slots| == |pool.slots| + Eligible(pool.queue, request.seqNo) - 1 + |HandIn(request)|
  }

  lemma DrawIsDrawn(c: Config, pool: PoolState, request: Request)
    requires Wf(pool) && QueueInRange(pool) && (request.kind == Reroll ==> request.handedIn < pool.cap)
    requires Draw(c, pool, request).Ok?
    ensures var (after, picked) := Draw(c, pool, request).value; Drawn(pool, request, after, picked)
  {
    hide Draw, Position, Contents, Wf, QueueInRange, Eligible;
    DrawShape(c, pool, request);
    var pos := Position(c, request.value, request.seqNo, |Ready(pool, request.seqNo).slots|).value;
    DrawContents(pool, request.seqNo, pos, request);
    DrawWf(pool, request.seqNo, pos, request);
  }

  // ----- sizes

  lemma {:induction false} SetInsideMultiset(s: set<u32>, m: multiset<u32>)
    requires forall i :: i in s ==> i in m
    ensures |s| <= |m|
  {
    if s != {} {
      var x :| x in s;
      var s', m' := s - {x}, m - multiset{x};
      SetInsideMultiset(s', m');
    }
  }

  /** All indices of the collection. */
  ghost function All(n: u32): (s: set<u32>)
    ensures forall i: u32 :: i in s <==> i < n
  {
    if n == 0 then {} else All(n - 1) + {n - 1}
  }

  lemma {:induction false} AllSize(n: u32)
    ensures |All(n)| == n
  {
    if n > 0 {
      AllSize(n - 1);
    }
  }

  lemma {:induction false} SingletonsSize(m: multiset<u32>, s: set<u32>)
    requires forall i: u32 :: i in s <==> i in m
    requires forall i: u32 :: i in m ==> m[i] == 1
    ensures |s| == |m|
  {
    if s == {} {
      assert m == multiset{};
    } else {
      var x :| x in s;
      SingletonsSize(m - multiset{x}, s - {x});
    }
  }
}
