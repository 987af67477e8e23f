/** Choosing a pool position from a revealed random value, and why every position is equally likely. */
module Selection {
  import opened Base
  import opened Arithmetic
  import opened LittleEndian
  import Merkle

  const TWO_64: nat := 0x1_0000_0000_0000_0000

  function Ascii(s: string): (b: Bytes)
    ensures |b| == |s|
  {
    seq(|s|, i requires 0 <= i < |s| => s[i] as int % 256)
  }

  const SELECT_DOMAIN: Bytes := Ascii("hybrid_vault:select")
  const RESAMPLE_DOMAIN: Bytes := Ascii("hybrid_vault:resample")

  // ----- the per-request random block

  function SelectInput(value: Digest, vault: Digest, seqNo: u64): Bytes {
    SELECT_DOMAIN + value + vault + Encode(seqNo, 8)
  }

  function RequestRandomness(sha: Hash, value: Digest, vault: Digest, seqNo: u64): Digest {
    sha(SelectInput(value, vault, seqNo))
  }

  /** Different values, vaults or sequence numbers are never hashed from the same bytes. */
  lemma SelectInputInjective(value: Digest, vault: Digest, seqNo: u64, value': Digest, vault': Digest, seqNo': u64)
    requires SelectInput(value, vault, seqNo) == SelectInput(value', vault', seqNo')
    ensures value == value' && vault == vault' && seqNo == seqNo'
  {
    var a, b := SelectInput(value, vault, seqNo), SelectInput(value', vault', seqNo');
    var d := |SELECT_DOMAIN|;
    assert a[d..d + 32] == value && b[d..d + 32] == value';
    assert a[d + 32..d + 64] == vault && b[d + 32..d + 64] == vault';
    assert a[d + 64..] == Encode(seqNo, 8) && b[d + 64..] == Encode(seqNo', 8);
    WordSizes();
    EncodeInjective(seqNo, seqNo', 8);
  }

  /** The string hashed for the block of a request, written out. */
  function RequestString(value: Digest, vault: Digest, seqNo: u64): Bytes {
    Ascii("hybrid_vault:select") + value + vault + EightBytes(seqNo)
  }

  lemma BlockIsHashOfString(sha: Hash, value: Digest, vault: Digest, seqNo: u64)
    ensures RequestRandomness(sha, value, vault, seqNo) == sha(RequestString(value, vault, seqNo))
  {
    EncodedBytes(seqNo);
  }

  /** Two requests share a block only when they agree in value, vault and number, or their strings collide. */
  lemma SharedBlockBinds(sha: Hash, value: Digest, vault: Digest, seqNo: u64, value': Digest, vault': Digest,
                         seqNo': u64)
    requires RequestRandomness(sha, value, vault, seqNo) == RequestRandomness(sha, value', vault', seqNo')
    ensures (value, vault, seqNo) == (value', vault', seqNo')
            || Merkle.Collides(sha, {RequestString(value, vault, seqNo)}, {RequestString(value', vault', seqNo')})
  {
    var a, b := RequestString(value, vault, seqNo), RequestString(value', vault', seqNo');
    EncodedBytes(seqNo);
    EncodedBytes(seqNo');
    if a == b {
      SelectInputInjective(value, vault, seqNo, value', vault', seqNo');
    } else {
      Merkle.CollidesIn(sha, a, b, {a}, {b});
    }
  }

  // ----- rejection sampling

  /** The largest accepted word. */
  function Zone(n: u32): u64
    requires n > 0
  {
    U64_MAX - Remainder(Remainder(U64_MAX, n) + 1, n)
  }

  /** The first accepted word, or the length when every word is rejected. */
  function FirstAccepted(words: seq<u64>, n: u32): (i: nat)
    requires n > 0
    ensures i <= |words|
    ensures i < |words| ==> words[i] <= Zone(n)
    ensures forall j :: 0 <= j < i ==> words[j] > Zone(n)
  {
    if words == [] || words[0] <= Zone(n) then 0 else 1 + FirstAccepted(words[1..], n)
  }

  /** The four words of a block. */
  function WordsOf(block: Digest): (words: seq<u64>)
    ensures |words| == 4
  {
    [U64At(block, 0), U64At(block, 8), U64At(block, 16), U64At(block, 24)]
  }

  /** The result of one block: a position below `n`, or nothing when all four words are rejected. */
  function FromBlock(words: seq<u64>, n: u32): Option<u32>
    requires n > 0
  {
    var i := FirstAccepted(words, n);
    if i < |words| then Some(Remainder(words[i], n)) else None
  }

  function Resample(sha: Hash, block: Digest): Digest {
    sha(RESAMPLE_DOMAIN + block)
  }

  /** `budget` is how many times the transaction can afford to hash a new block. */
  function Uniform(sha: Hash, block: Digest, n: u32, budget: nat): (r: Option<u32>)
    requires n > 0
    ensures r.Some? ==> r.value < n
    decreases budget
  {
    var r := FromBlock(WordsOf(block), n);
    if r.Some? || budget == 0 then r else Uniform(sha, Resample(sha, block), n, budget - 1)
  }

  /** A larger budget never changes an answer. */
  lemma {:induction false} BudgetOnlyAddsAnswers(sha: Hash, block: Digest, n: u32, budget: nat, more: nat)
    requires n > 0 && budget <= more && Uniform(sha, block, n, budget).Some?
    ensures Uniform(sha, block, n, more) == Uniform(sha, block, n, budget)
    decreases budget
  {
    hide FromBlock, WordsOf, Resample;
    if FromBlock(WordsOf(block), n).None? {
      BudgetOnlyAddsAnswers(sha, Resample(sha, block), n, budget - 1, more - 1);
    }
  }

  /** The block after `t` rehashes. */
  function Chain(sha: Hash, block: Digest, t: nat): Digest
    decreases t
  {
    if t == 0 then block else Chain(sha, Resample(sha, block), t - 1)
  }

  /** The unbounded loop ends at the block after `t` rehashes, the first one with an accepted word, with result `k`. */
  ghost predicate EndsAt(sha: Hash, block: Digest, n: u32, t: nat, k: u32)
    requires n > 0
  {
    && FromBlock(WordsOf(Chain(sha, block, t)), n) == Some(k)
    && forall e: nat :: e < t ==> FromBlock(WordsOf(Chain(sha, block, e)), n).None?
  }

  /** The budget only cuts the loop off: an answer within the budget is the answer of the unbounded loop. */
  lemma {:induction false} UniformIsLoopResult(sha: Hash, block: Digest, n: u32, budget: nat, k: u32)
    requires n > 0
    ensures Uniform(sha, block, n, budget) == Some(k) <==> exists t: nat :: t <= budget && EndsAt(sha, block, n, t, k)
    decreases budget
  {
    hide FromBlock, WordsOf, Resample, EndsAt;
    if FromBlock(WordsOf(block), n).Some? {
      EndsNow(sha, block, n);
      assert EndsAt(sha, block, n, 0, k) <==> FromBlock(WordsOf(block), n) == Some(k);
    } else {
      var next := Resample(sha, block);
      forall t: nat
        ensures EndsAt(sha, block, n, t, k) <==> t > 0 && EndsAt(sha, next, n, t - 1, k)
      {
        EndsLater(sha, block, n, t, k);
      }
      if budget > 0 {
        UniformIsLoopResult(sha, next, n, budget - 1, k);
        if t: nat :| t <= budget - 1 && EndsAt(sha, next, n, t, k) {
          assert EndsAt(sha, block, n, t + 1, k);
        }
      }
    }
  }

  lemma EndsNow(sha: Hash, block: Digest, n: u32)
    requires n > 0 && FromBlock(WordsOf(block), n).Some?
    ensures forall t: nat, k: u32 :: EndsAt(sha, block, n, t, k) <==> t == 0 && FromBlock(WordsOf(block), n) == Some(k)
  {
    hide FromBlock, WordsOf, Resample;
    assert Chain(sha, block, 0) == block;
  }

  lemma EndsLater(sha: Hash, block: Digest, n: u32, t: nat, k: u32)
    requires n > 0 && FromBlock(WordsOf(block), n).None?
    ensures EndsAt(sha, block, n, t, k) <==> t > 0 && EndsAt(sha, Resample(sha, block), n, t - 1, k)
  {
    hide FromBlock, WordsOf, Resample;
    var next := Resample(sha, block);
    assert Chain(sha, block, 0) == block;
    if t > 0 && EndsAt(sha, next, n, t - 1, k) {
      forall e: nat | e < t
        ensures FromBlock(WordsOf(Chain(sha, block, e)), n).None?
      {
        if e > 0 {
          assert Chain(sha, block, e) == Chain(sha, next, e - 1);
        }
      }
    }
    if EndsAt(sha, block, n, t, k) && t > 0 {
      forall e: nat | e < t - 1
        ensures FromBlock(WordsOf(Chain(sha, next, e)), n).None?
      {
        assert Chain(sha, block, e + 1) == Chain(sha, next, e);
      }
    }
  }

  // ----- the answer in terms of words and quotients

  /** Each block of the chain hashes the one before it under the domain of resampling. */
  lemma {:induction false} ChainHashes(sha: Hash, block: Digest, t: nat)
    ensures Chain(sha, block, 0) == block
    ensures Chain(sha, block, t + 1) == sha(Ascii("hybrid_vault:resample") + Chain(sha, block, t))
    decreases t
  {
    if t > 0 {
      ChainHashes(sha, Resample(sha, block), t - 1);
    }
  }

  /** The end of the numbers that split evenly into `n` classes: words from here on are rejected. */
  function Bound(n: u32): nat
    requires n > 0
  {
    TWO_64 / n * n
  }

  /** Word `j` of block `t` is the first word below the bound, block after block and word after word. */
  ghost predicate FirstBelow(sha: Hash, block: Digest, bound: nat, t: nat, j: nat) {
    && j < 4 && U64At(Chain(sha, block, t), 8 * j) < bound
    && (forall i: nat :: i < j ==> U64At(Chain(sha, block, t), 8 * i) >= bound)
    && forall e: nat, i: nat :: e < t && i < 4 ==> U64At(Chain(sha, block, e), 8 * i) >= bound
  }

  lemma BoundIsZone(n: u32)
    requires n > 0
    ensures Bound(n) == Zone(n) + 1
  {
    hide Zone;
    ZoneIsLargestMultiple(n);
  }

  lemma BlockAnswers(block: Digest, n: u32, k: u32)
    requires n > 0
    ensures FromBlock(WordsOf(block), n) == Some(k)
            <==> exists j: nat :: j < 4 && U64At(block, 8 * j) < Bound(n) && k == U64At(block, 8 * j) % n
                                  && forall i: nat :: i < j ==> U64At(block, 8 * i) >= Bound(n)
    ensures FromBlock(WordsOf(block), n).None? <==> forall i: nat :: i < 4 ==> U64At(block, 8 * i) >= Bound(n)
  {
    hide U64At, Remainder, Zone, FirstAccepted, Bound;
    BoundIsZone(n);
    var words := WordsOf(block);
    forall i: nat | i < 4
      ensures words[i] == U64At(block, 8 * i) && Remainder(words[i], n) == words[i] % n
    {
      RemainderIsMod(words[i], n);
    }
    var f := FirstAccepted(words, n);
    if j: nat :| j < 4 && U64At(block, 8 * j) < Bound(n) && forall i: nat :: i < j ==> U64At(block, 8 * i) >= Bound(n) {
      FirstAcceptedIs(words, n, j);
    }
  }

  /**
   The answer is the remainder of the first word below the largest multiple of `n`, in the order of the blocks and of
   the words in a block, provided that its block is reached within the budget.
   */
  lemma UniformIsFirstWordBelow(sha: Hash, r: Digest, n: u32, budget: nat, k: u32)
    requires n > 0
    ensures Uniform(sha, r, n, budget) == Some(k)
            <==> exists t: nat, j: nat :: t <= budget && FirstBelow(sha, r, TWO_64 / n * n, t, j)
                                          && k == U64At(Chain(sha, r, t), 8 * j) % n
  {
    hide U64At, FromBlock, WordsOf, Chain, Zone;
    UniformIsLoopResult(sha, r, n, budget, k);
    forall t: nat
      ensures EndsAt(sha, r, n, t, k)
              <==> exists j: nat :: FirstBelow(sha, r, Bound(n), t, j) && k == U64At(Chain(sha, r, t), 8 * j) % n
    {
      EndsAtWord(sha, r, n, t, k);
    }
  }

  lemma EndsAtWord(sha: Hash, r: Digest, n: u32, t: nat, k: u32)
    requires n > 0
    ensures EndsAt(sha, r, n, t, k)
            <==> exists j: nat :: FirstBelow(sha, r, Bound(n), t, j) && k == U64At(Chain(sha, r, t), 8 * j) % n
  {
    hide U64At, FromBlock, WordsOf, Chain, Zone;
    forall e: nat
      ensures FromBlock(WordsOf(Chain(sha, r, e)), n).None?
              <==> forall i: nat :: i < 4 ==> U64At(Chain(sha, r, e), 8 * i) >= Bound(n)
    {
      BlockAnswers(Chain(sha, r, e), n, k);
    }
    var block := Chain(sha, r, t);
    BlockAnswers(block, n, k);
    if FromBlock(WordsOf(block), n) == Some(k) && EndsAt(sha, r, n, t, k) {
      var j: nat :| j < 4 && U64At(block, 8 * j) < Bound(n) && k == U64At(block, 8 * j) % n
                    && forall i: nat :: i < j ==> U64At(block, 8 * i) >= Bound(n);
      assert FirstBelow(sha, r, Bound(n), t, j);
    }
  }

  /** The sampling loop: blocks in order, the words of each block in order. */
  method UniformBelow(sha: Hash, r: Digest, n: u32, budget: nat) returns (k: Option<u32>)
    requires n > 0
    ensures k == Uniform(sha, r, n, budget)
    ensures k.Some? ==> exists t: nat, j: nat :: t <= budget && FirstBelow(sha, r, TWO_64 / n * n, t, j)
                                                 && k.value == U64At(Chain(sha, r, t), 8 * j) % n
  {
    if Uniform(sha, r, n, budget).Some? {
      UniformIsFirstWordBelow(sha, r, n, budget, Uniform(sha, r, n, budget).value);
    }
    hide FirstBelow, Chain;
    hide Zone, U64At, Resample, Remainder;
    var zone: u64 := Zone(n);
    var block := r;
    var left := budget;
    while true
      invariant Uniform(sha, r, n, budget) == Uniform(sha, block, n, left)
      decreases left
    {
      var words := WordsOf(block);
      for j := 0 to 4
        invariant forall i :: 0 <= i < j ==> words[i] > zone
      {
        var x := U64At(block, 8 * j);
        assert x == words[j];
        if x <= zone {
          assert FirstAccepted(words, n) == j;
          RemainderIsMod(x, n);
          return Some(x % n);
        }
      }
      if left == 0 {
        return None;
      }
      block := Resample(sha, block);
      left := left - 1;
    }
  }

  // ----- exact equality of counts

  /** The accepted words are exactly the numbers below the largest multiple of `n` that is at most 2^64. */
  lemma ZoneIsLargestMultiple(n: u32)
    requires n > 0
    ensures Zone(n) + 1 == TWO_64 / n * n
    ensures Zone(n) + 1 <= TWO_64 < Zone(n) + 1 + n
  {
    hide Remainder;
    var q, m := U64_MAX / n, U64_MAX % n;
    RemainderIsMod(U64_MAX, n);
    RemainderIsMod(m + 1, n);
    assert U64_MAX == q * n + m;
    if m + 1 == n {
      ModUnique(m + 1, 1, n, 0);
      assert TWO_64 == (q + 1) * n + 0;
      ModUnique(TWO_64, q + 1, n, 0);
    } else {
      ModUnique(m + 1, 0, n, m + 1);
      assert TWO_64 == q * n + (m + 1);
      ModUnique(TWO_64, q, n, m + 1);
    }
  }

  /** The numbers below `bound` with residue `k`. */
  ghost function Residues(bound: nat, n: nat, k: nat): set<nat>
    requires n > 0
  {
    set x: nat | x < bound && x % n == k
  }

  lemma ResidueStep(q: nat, bound: nat, n: nat, k: nat)
    requires k < n && bound == q * n
    ensures |Residues(bound + n, n, k)| == |Residues(bound, n, k)| + 1
  {
    forall y: nat | bound <= y < bound + n
      ensures y % n == y - bound
    {
      ModUnique(y, q, n, y - bound);
    }
    assert Residues(bound + n, n, k) == Residues(bound, n, k) + {bound + k};
  }

  lemma {:induction false} ResidueCount(q: nat, bound: nat, n: nat, k: nat)
    requires k < n && bound == q * n
    ensures |Residues(bound, n, k)| == q
  {
    if q == 0 {
      assert Residues(bound, n, k) == {};
    } else {
      Distribute(q, 1, n);
      ResidueCount(q - 1, bound - n, n, k);
      ResidueStep(q - 1, bound - n, n, k);
    }
  }

  /** Every result below `n` comes from the same number of accepted words, 2^64 / n. */
  lemma AcceptedWordsPerResult(n: u32, k: u32)
    requires k < n
    ensures |set x: nat | x <= Zone(n) && x % n == k| == TWO_64 / n
  {
    ZoneIsLargestMultiple(n);
    ResidueCount(TWO_64 / n, Zone(n) + 1, n, k);
    assert (set x: nat | x <= Zone(n) && x % n == k) == Residues(Zone(n) + 1, n, k);
  }

  // ----- blocks

  /** `words` with its first accepted word moved from residue `k` to residue `k'`. */
  function Retarget(words: seq<u64>, n: u32, k: u32, k': u32): seq<u64>
    requires k < n && k' < n && FromBlock(words, n) == Some(k)
  {
    var i := FirstAccepted(words, n);
    RetargetWord(words[i], n, k, k');
    words[i := words[i] - k + k']
  }

  lemma RetargetWord(x: u64, n: u32, k: u32, k': u32)
    requires k < n && k' < n && x <= Zone(n) && Remainder(x, n) == k
    ensures 0 <= x - k + k' <= Zone(n) && Remainder(x - k + k', n) == k'
  {
    hide Remainder, Zone;
    RemainderIsMod(x, n);
    var q := x / n;
    assert x == q * n + k;
    ModUnique(x - k + k', q, n, k');
    ZoneIsLargestMultiple(n);
    RoomAbove(q, TWO_64 / n, n, k);
    RemainderIsMod(x - k + k', n);
  }

  lemma FirstAcceptedIs(words: seq<u64>, n: u32, i: nat)
    requires n > 0 && i < |words| && words[i] <= Zone(n)
    requires forall j :: 0 <= j < i ==> words[j] > Zone(n)
    ensures FirstAccepted(words, n) == i
  {
  }

  lemma RetargetLands(words: seq<u64>, n: u32, k: u32, k': u32)
    requires k < n && k' < n && FromBlock(words, n) == Some(k)
    ensures var r := Retarget(words, n, k, k');
            && |r| == |words| && FromBlock(r, n) == Some(k') && Retarget(r, n, k', k) == words
  {
    hide Remainder, Zone;
    var i := FirstAccepted(words, n);
    RetargetWord(words[i], n, k, k');
    FirstAcceptedIs(Retarget(words, n, k, k'), n, i);
  }

  /** All the four-word blocks that give result `k`. */
  ghost function Hits(n: u32, k: u32): set<seq<u64>>
    requires n > 0
  {
    set a: u64, b: u64, c: u64, d: u64 |
      0 <= a <= U64_MAX && 0 <= b <= U64_MAX && 0 <= c <= U64_MAX && 0 <= d <= U64_MAX
      && FromBlock([a, b, c, d], n) == Some(k) :: [a, b, c, d]
  }

  lemma InHits(words: seq<u64>, n: u32, k: u32)
    requires n > 0
    ensures words in Hits(n, k) <==> |words| == 4 && FromBlock(words, n) == Some(k)
  {
    if |words| == 4 {
      assert words == [words[0], words[1], words[2], words[3]];
    }
  }

  /** A map that can be undone does not shrink a set. */
  lemma {:induction false} InjectionSize<A, B>(s: set<A>, t: set<B>, f: A -> B, g: B -> A)
    requires forall x :: x in s ==> f(x) in t && g(f(x)) == x
    ensures |s| <= |t|
  {
    if s != {} {
      var x :| x in s;
      forall y | y in s - {x}
        ensures f(y) in t - {f(x)} && g(f(y)) == y
      {
        assert g(f(x)) == x;
      }
      InjectionSize(s - {x}, t - {f(x)}, f, g);
    }
  }

  lemma HitsAtMost(n: u32, k: u32, k': u32)
    requires k < n && k' < n
    ensures |Hits(n, k)| <= |Hits(n, k')|
  {
    var f := (w: seq<u64>) => if FromBlock(w, n) == Some(k) then Retarget(w, n, k, k') else w;
    var g := (w: seq<u64>) => if FromBlock(w, n) == Some(k') then Retarget(w, n, k', k) else w;
    forall w | w in Hits(n, k)
      ensures f(w) in Hits(n, k') && g(f(w)) == w
    {
      InHits(w, n, k);
      RetargetLands(w, n, k, k');
      InHits(f(w), n, k');
    }
    InjectionSize(Hits(n, k), Hits(n, k'), f, g);
  }

  /** Exact uniformity: every result below `n` comes from the same number of blocks. */
  lemma ExactlyUniform(n: u32, k: u32, k': u32)
    requires k < n && k' < n
    ensures |Hits(n, k)| == |Hits(n, k')|
  {
    HitsAtMost(n, k, k');
    HitsAtMost(n, k', k);
  }

  /** The blocks that pick `asset` out of the pool. */
  ghost function Picks(slots: seq<u32>, asset: u32): set<seq<u64>>
    requires 0 < |slots| <= U32_MAX
  {
    set a: u64, b: u64, c: u64, d: u64 |
      0 <= a <= U64_MAX && 0 <= b <= U64_MAX && 0 <= c <= U64_MAX && 0 <= d <= U64_MAX
      && FromBlock([a, b, c, d], |slots|).Some? && slots[FromBlock([a, b, c, d], |slots|).value] == asset
      :: [a, b, c, d]
  }

  /** When no index is in the pool twice, every index in the pool is picked by the same number of blocks. */
  lemma EveryAssetEquallyLikely(slots: seq<u32>, i: nat, j: nat)
    requires i < |slots| <= U32_MAX && j < |slots|
    requires forall x, y :: 0 <= x < y < |slots| ==> slots[x] != slots[y]
    ensures |Picks(slots, slots[i])| == |Picks(slots, slots[j])|
  {
    PicksAreHits(slots, i);
    PicksAreHits(slots, j);
    ExactlyUniform(|slots|, i, j);
  }

  lemma PicksAreHits(slots: seq<u32>, i: nat)
    requires i < |slots| <= U32_MAX
    requires forall x, y :: 0 <= x < y < |slots| ==> slots[x] != slots[y]
    ensures Picks(slots, slots[i]) == Hits(|slots|, i)
  {
    forall a: u64, b: u64, c: u64, d: u64
      ensures (FromBlock([a, b, c, d], |slots|).Some? && slots[FromBlock([a, b, c, d], |slots|).value] == slots[i])
              <==> FromBlock([a, b, c, d], |slots|) == Some(i)
    {
      var r := FromBlock([a, b, c, d], |slots|);
      if r.Some? && r.value != i {
        assert slots[r.value] != slots[i];
      }
    }
  }

  /** Blocks and their four words determine each other, so counting words counts blocks. */
  lemma BlocksAreWords(a: Digest, b: Digest)
    requires WordsOf(a) == WordsOf(b)
    ensures a == b
  {
    forall j | 0 <= j < 4
      ensures forall k :: 8 * j <= k < 8 * j + 8 ==> a[k] == b[k]
    {
      assert WordsOf(a)[j] == U64At(a, 8 * j) && WordsOf(b)[j] == U64At(b, 8 * j);
      WordInjective(a, b, 8 * j, 8);
    }
    forall k | 0 <= k < 32
      ensures a[k] == b[k]
    {
      assert 8 * (k / 8) <= k < 8 * (k / 8) + 8;
    }
  }

  lemma EveryWordBlockExists(words: seq<u64>)
    requires |words| == 4
    ensures exists block: Digest :: WordsOf(block) == words
  {
    WordsOfBlock(words);
  }

  /** The block made of four words. */
  function BlockOf(words: seq<u64>): (block: Digest)
    requires |words| == 4
  {
    Encode(words[0], 8) + Encode(words[1], 8) + Encode(words[2], 8) + Encode(words[3], 8)
  }

  lemma WordsOfBlock(words: seq<u64>)
    requires |words| == 4
    ensures WordsOf(BlockOf(words)) == words
  {
    hide Encode, Word;
    WordSizes();
    var block := BlockOf(words);
    RoundTrip(block, 0, words[0], 8);
    RoundTrip(block, 8, words[1], 8);
    RoundTrip(block, 16, words[2], 8);
    RoundTrip(block, 24, words[3], 8);
  }

  lemma {:induction false} WordInjective(a: Bytes, b: Bytes, o: nat, k: nat)
    requires o + k <= |a| && o + k <= |b| && Word(a, o, k) == Word(b, o, k)
    ensures forall j :: o <= j < o + k ==> a[j] == b[j]
    decreases k
  {
    if k > 0 {
      assert a[o] == Word(a, o, k) % 256 == Word(b, o, k) % 256 == b[o];
      WordInjective(a, b, o + 1, k - 1);
    }
  }
}
