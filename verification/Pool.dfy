/**
 What the pool account means: the drawable indices in order, the FIFO of returned indices with
 their tags, and the set of indices ever minted. `PoolView` proves that the byte buffer implements
 these operations.
 */
module Pool {
  import opened Base

  datatype Entry = Entry(index: u32, tag: u64)

  datatype PoolState = PoolState(cap: u32, slots: seq<u32>, queue: seq<Entry>, minted: set<u32>)

  /** The largest capacity for which no ring index can leave 32 bits. */
  const MAX_CAPACITY: u32 := 0x8000_0000

  ghost predicate SortedTags(queue: seq<Entry>) {
    forall j, k :: 0 <= j <= k < |queue| ==> queue[j].tag <= queue[k].tag
  }

  ghost predicate Wf(p: PoolState) {
    && p.cap <= MAX_CAPACITY
    && |p.slots| + |p.queue| <= p.cap
    && (forall k :: 0 <= k < |p.slots| ==> p.slots[k] < p.cap)
    && SortedTags(p.queue)
    && (forall i :: i in p.minted ==> i < p.cap)
  }

  /** Every index in the queue names an asset of the collection. The pool account itself does not check this. */
  ghost predicate QueueInRange(p: PoolState) {
    forall k :: 0 <= k < |p.queue| ==> p.queue[k].index < p.cap
  }

  function Total(p: PoolState): Result<u32> {
    var t := |p.slots| + |p.queue|;
    if t <= U32_MAX then Ok(t) else Err(MathOverflow)
  }

  function Push(p: PoolState, index: u32): Result<PoolState> {
    var total :- Total(p);
    var _ :- Need(total < p.cap, AssetAccountingBroken);
    var _ :- Need(index < p.cap, IndexOutOfRange);
    Ok(p.(slots := p.slots + [index]))
  }

  /** The sequence without position `i`, whose place the last element takes. */
  function SwapOut<T>(s: seq<T>, i: nat): (r: seq<T>)
    requires i < |s|
    ensures |r| == |s| - 1
    ensures forall k :: 0 <= k < |r| ==> r[k] == if k == i then s[|s| - 1] else s[k]
  {
    s[i := s[|s| - 1]][..|s| - 1]
  }

  function SwapRemove(p: PoolState, i: u32): Result<(PoolState, u32)> {
    if i < |p.slots| then Ok((p.(slots := SwapOut(p.slots, i)), p.slots[i])) else Err(NoAssetAvailable)
  }

  function IncomingPush(p: PoolState, index: u32, tag: u64): Result<PoolState> {
    var total :- Total(p);
    var _ :- Need(total < p.cap, AssetAccountingBroken);
    var _ :- Need(p.queue != [] ==> p.queue[|p.queue| - 1].tag <= tag, AssetAccountingBroken);
    Ok(p.(queue := p.queue + [Entry(index, tag)]))
  }

  function FrontTag(p: PoolState): Option<u64> {
    if p.queue == [] then None else Some(p.queue[0].tag)
  }

  /**
   Moves up to `max` entries with `tag <= maxTag`, oldest first. The pool is returned on an error too:
   the entry that could not be pushed has already left the queue.
   */
  function Merge(p: PoolState, maxTag: u64, max: u32): (r: (PoolState, Result<u32>))
    ensures r.1.Ok? ==> r.1.value <= max
    decreases max, |p.queue|
  {
    if max == 0 || p.queue == [] || p.queue[0].tag > maxTag then
      (p, Ok(0))
    else
      var popped := p.(queue := p.queue[1..]);
      match Push(popped, p.queue[0].index)
      case Err(e) => (popped, Err(e))
      case Ok(p1) =>
        var (p2, moved) := Merge(p1, maxTag, max - 1);
        (p2, if moved.Err? then moved else Ok(moved.value + 1))
  }

  function MarkMinted(p: PoolState, index: u32): Result<PoolState> {
    var _ :- Need(index < p.cap, IndexOutOfRange);
    var _ :- Need(index !in p.minted, AlreadyMinted);
    Ok(p.(minted := p.minted + {index}))
  }

  // ----- what merging does

  function Indices(queue: seq<Entry>): (r: seq<u32>)
    ensures |r| == |queue|
  {
    seq(|queue|, k requires 0 <= k < |queue| => queue[k].index)
  }

  /** How many entries at the front of the queue carry a tag of at most `t`. */
  function Eligible(queue: seq<Entry>, t: u64): (n: nat)
    ensures n <= |queue|
  {
    if queue == [] || queue[0].tag > t then 0 else 1 + Eligible(queue[1..], t)
  }

  /** Sorted tags make the front entries all the entries with a small tag. */
  lemma {:induction false} EligibleIsAllSmallTags(queue: seq<Entry>, t: u64)
    requires SortedTags(queue)
    ensures forall k :: 0 <= k < |queue| ==> (queue[k].tag <= t <==> k < Eligible(queue, t))
  {
    if queue != [] && queue[0].tag <= t {
      EligibleIsAllSmallTags(queue[1..], t);
      forall k | 0 <= k < |queue|
        ensures queue[k].tag <= t <==> k < Eligible(queue, t)
      {
        if k > 0 {
          assert queue[k] == queue[1..][k - 1];
        }
      }
    }
  }

  /** `p` after its `n` oldest queue entries have joined the pool, in order. */
  function Advance(p: PoolState, n: nat): PoolState
    requires n <= |p.queue|
  {
    p.(slots := p.slots + Indices(p.queue[..n]), queue := p.queue[n..])
  }

  lemma AdvanceStep(p: PoolState, n: nat)
    requires 0 < n <= |p.queue|
    ensures Advance(p.(slots := p.slots + [p.queue[0].index], queue := p.queue[1..]), n - 1) == Advance(p, n)
  {
    assert [p.queue[0].index] + Indices(p.queue[1..][..n - 1]) == Indices(p.queue[..n]);
    assert p.queue[1..][n - 1..] == p.queue[n..];
  }

  /** Merging moves exactly the oldest eligible entries, at most `max` of them, in order. */
  lemma {:induction false} MergeMoves(p: PoolState, maxTag: u64, max: u32)
    requires Wf(p) && QueueInRange(p)
    ensures Merge(p, maxTag, max)
            == (Advance(p, Min(max, Eligible(p.queue, maxTag))), Ok(Min(max, Eligible(p.queue, maxTag))))
    decreases max
  {
    var n := Min(max, Eligible(p.queue, maxTag));
    if n == 0 {
      assert Advance(p, 0) == p;
    } else {
      PopWf(p);
      var popped := p.(queue := p.queue[1..]);
      var p1 := popped.(slots := p.slots + [p.queue[0].index]);
      assert Push(popped, p.queue[0].index) == Ok(p1);
      assert Eligible(p.queue, maxTag) == 1 + Eligible(p1.queue, maxTag);
      hide Advance, Push;
      MergeMoves(p1, maxTag, max - 1);
      AdvanceStep(p, n);
    }
  }

  /**
   A merge meets a bad index only in a queue that holds one: the entries before it have been moved, and it has left the
   queue without reaching the pool.
   */
  lemma {:induction false} MergeStopsAtBadIndex(p: PoolState, maxTag: u64, max: u32, n: nat)
    requires Wf(p) && n < max && n < Eligible(p.queue, maxTag) && p.queue[n].index >= p.cap
    requires forall k :: 0 <= k < n ==> p.queue[k].index < p.cap
    ensures Merge(p, maxTag, max) == (Advance(p, n).(queue := p.queue[n + 1..]), Err(IndexOutOfRange))
    decreases n
  {
    PopWf(p);
    var popped := p.(queue := p.queue[1..]);
    if n == 0 {
      assert Advance(p, 0).slots == p.slots;
    } else {
      var p1 := popped.(slots := p.slots + [p.queue[0].index]);
      assert Push(popped, p.queue[0].index) == Ok(p1);
      assert forall k :: 0 <= k < n - 1 ==> p1.queue[k] == p.queue[k + 1];
      MergeStopsAtBadIndex(p1, maxTag, max - 1, n - 1);
      AdvanceStep(p, n);
      assert p1.queue[n..] == p.queue[n + 1..];
    }
  }

  /** What the pool refuses, and which error it gives: a full account first, then an index or a tag out of order. */
  lemma PoolRefuses(p: PoolState, index: u32, tag: u64)
    requires Wf(p)
    ensures var room := |p.slots| + |p.queue| < p.cap;
            && (Push(p, index) == if !room then Err(AssetAccountingBroken)
                                  else if index >= p.cap then Err(IndexOutOfRange)
                                  else Ok(PoolState(p.cap, p.slots + [index], p.queue, p.minted)))
            && (IncomingPush(p, index, tag).Ok? <==> room && forall k :: 0 <= k < |p.queue| ==> p.queue[k].tag <= tag)
            && (IncomingPush(p, index, tag).Err? ==> IncomingPush(p, index, tag) == Err(AssetAccountingBroken))
            && (MarkMinted(p, index) == if index >= p.cap then Err(IndexOutOfRange)
                                        else if index in p.minted then Err(AlreadyMinted)
                                        else Ok(PoolState(p.cap, p.slots, p.queue, p.minted + {index})))
            && (SwapRemove(p, index).Err? <==> index >= |p.slots|)
            && (SwapRemove(p, index).Err? ==> SwapRemove(p, index) == Err(NoAssetAvailable))
  {
  }

  lemma {:induction false} EligibleAppend(queue: seq<Entry>, e: Entry, t: u64)
    requires SortedTags(queue + [e])
    ensures Eligible(queue + [e], t) == if e.tag <= t then |queue| + 1 else Eligible(queue, t)
  {
    var longer := queue + [e];
    if queue != [] {
      assert longer[1..] == queue[1..] + [e];
      assert queue[0] == longer[0] && longer[|queue|] == e;
      EligibleAppend(queue[1..], e, t);
    }
  }

  lemma EligibleDrop(queue: seq<Entry>, n: nat, t: u64)
    requires SortedTags(queue) && n <= Eligible(queue, t)
    ensures Eligible(queue[n..], t) == Eligible(queue, t) - n
  {
    if n == 0 {
      assert queue[0..] == queue;
    } else {
      EligibleDrop(queue[1..], n - 1, t);
      assert queue[1..][n - 1..] == queue[n..];
    }
  }

  lemma EligibleMonotone(queue: seq<Entry>, t: u64, t': u64)
    requires t <= t'
    ensures Eligible(queue, t) <= Eligible(queue, t')
  {
  }

  // ----- every operation keeps the pool well formed

  lemma PushWf(p: PoolState, index: u32)
    requires Wf(p) && Push(p, index).Ok?
    ensures Wf(Push(p, index).value)
  {
  }

  lemma SwapRemoveWf(p: PoolState, i: u32)
    requires Wf(p) && i < |p.slots|
    ensures Wf(p.(slots := SwapOut(p.slots, i)))
  {
  }

  lemma IncomingPushWf(p: PoolState, index: u32, tag: u64)
    requires Wf(p) && IncomingPush(p, index, tag).Ok?
    ensures Wf(IncomingPush(p, index, tag).value)
  {
    var queue := p.queue + [Entry(index, tag)];
    forall j, k | 0 <= j <= k < |queue|
      ensures queue[j].tag <= queue[k].tag
    {
      if k == |p.queue| && j < k {
        assert p.queue[j].tag <= p.queue[|p.queue| - 1].tag;
      }
    }
  }

  lemma PopWf(p: PoolState)
    requires Wf(p) && p.queue != []
    ensures Wf(p.(queue := p.queue[1..]))
  {
    forall j, k | 0 <= j <= k < |p.queue| - 1
      ensures p.queue[1..][j].tag <= p.queue[1..][k].tag
    {
      assert p.queue[j + 1].tag <= p.queue[k + 1].tag;
    }
  }

  // ----- which indices the pool account holds

  /** The indices in the pool and in the queue, counted with multiplicity. */
  ghost function Contents(p: PoolState): multiset<u32> {
    multiset(p.slots) + multiset(Indices(p.queue))
  }

  lemma SwapOutContents<T>(s: seq<T>, i: nat)
    requires i < |s|
    ensures multiset(SwapOut(s, i)) == multiset(s) - multiset{s[i]}
    ensures s[i] in multiset(s)
  {
    var last := |s| - 1;
    assert s == s[..last] + [s[last]];
    if i == last {
      assert SwapOut(s, i) == s[..last];
    } else {
      assert SwapOut(s, i) == s[..last][i := s[last]];
    }
  }

  lemma IndicesConcat(a: seq<Entry>, b: seq<Entry>)
    ensures Indices(a + b) == Indices(a) + Indices(b)
  {
  }

  /** Merging changes the order, never the contents. */
  lemma AdvanceContents(p: PoolState, n: nat)
    requires n <= |p.queue|
    ensures Contents(Advance(p, n)) == Contents(p)
  {
    IndicesConcat(p.queue[..n], p.queue[n..]);
    assert p.queue == p.queue[..n] + p.queue[n..];
  }

  lemma AdvanceWf(p: PoolState, n: nat)
    requires Wf(p) && QueueInRange(p) && n <= |p.queue|
    ensures Wf(Advance(p, n)) && QueueInRange(Advance(p, n))
  {
    var q := Advance(p, n);
    forall k | 0 <= k < |q.slots|
      ensures q.slots[k] < q.cap
    {
      if k >= |p.slots| {
        assert q.slots[k] == p.queue[k - |p.slots|].index;
      }
    }
  }
}
