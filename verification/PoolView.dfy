/** The pool account as the program works on it: one byte buffer, changed in place. */
module PoolBuffer {
  import opened Base
  import opened LittleEndian
  import opened Pool
  import opened PoolLayout

  // ----- each operation on the bytes, seen as an operation on their meaning

  /** `c` means `p` and carries the same discriminator, vault address and capacity bytes as `b`. */
  ghost predicate Becomes(b: Bytes, c: Bytes, p: PoolState)
    requires Counted(b)
  {
    Counted(c) && Meaning(c) == p && Agree(b, c, 0, 44) && (CleanTail(b) ==> CleanTail(c))
  }

  lemma StillRepresents(b: Bytes, c: Bytes, p: PoolState)
    requires Represents(b) && Becomes(b, c, p) && Wf(p)
    ensures Represents(c)
  {
  }

  lemma QueueTagAt(b: Bytes, k: nat)
    requires Counted(b) && k < QueueLen(b)
    ensures Meaning(b).queue[k].index == U32At(b, RingOffset(Cap(b), RingPos(b, k)))
    ensures Meaning(b).queue[k].tag == U64At(b, RingOffset(Cap(b), RingPos(b, k)) + 4)
  {
  }

  lemma PushBytes(b: Bytes, m: Bytes, c: Bytes, index: u32)
    requires Counted(b) && Len(b) + QueueLen(b) < Cap(b) && index < Cap(b)
    requires m == Splice(b, SlotOffset(Len(b)), Encode(index + 1, 4))
    requires c == Splice(m, 44, Encode(Len(b) + 1, 4))
    ensures Becomes(b, c, Meaning(b).(slots := Meaning(b).slots + [index]))
  {
    hide SlotAt, MintedOf, CleanTail, U32At, EntryAt, Encode, Splice, QueueOf;
    WriteSlot(b, m, Len(b), index);
    WriteLen(m, c, Len(b) + 1);
    assert SlotsOf(c) == SlotsOf(b) + [index];
  }

  lemma SwapRemoveBytes(b: Bytes, m: Bytes, c: Bytes, i: u32)
    requires Counted(b) && i < Len(b) && SlotAt(b, Len(b) - 1) < Cap(b)
    requires m == Splice(b, SlotOffset(i), Encode(SlotAt(b, Len(b) - 1) + 1, 4))
    requires c == Splice(m, 44, Encode(Len(b) - 1, 4))
    ensures Becomes(b, c, Meaning(b).(slots := SwapOut(Meaning(b).slots, i)))
  {
    hide SlotAt, MintedOf, CleanTail, U32At, EntryAt, Encode, Splice, QueueOf;
    WriteSlot(b, m, i, SlotAt(b, Len(b) - 1));
    WriteLen(m, c, Len(b) - 1);
    assert SlotsOf(c) == SwapOut(SlotsOf(b), i);
  }

  lemma IncomingPushBytes(b: Bytes, m: Bytes, m': Bytes, c: Bytes, e: Entry)
    requires Counted(b) && Len(b) + QueueLen(b) < Cap(b)
    requires m == Splice(b, RingOffset(Cap(b), RingPos(b, QueueLen(b))), Encode(e.index, 4))
    requires m' == Splice(m, RingOffset(Cap(b), RingPos(b, QueueLen(b))) + 4, Encode(e.tag, 8))
    requires c == Splice(m', 52, Encode(QueueLen(b) + 1, 4))
    ensures Becomes(b, c, Meaning(b).(queue := Meaning(b).queue + [e]))
  {
    hide SlotAt, MintedOf, CleanTail, U32At, EntryAt, Encode, Splice, SlotsOf;
    var n := QueueLen(b);
    var r := RingPos(b, n);
    WriteEntry(b, m, m', r, e);
    WriteQueueLen(m', c, n + 1);
    forall k | 0 <= k < n
      ensures EntryAt(c, RingPos(c, k)) == EntryAt(b, RingPos(b, k))
    {
      assert RingPos(b, k) != r;
    }
    assert QueueOf(c) == QueueOf(b) + [e];
  }

  lemma PopBytes(b: Bytes, m: Bytes, c: Bytes)
    requires Counted(b) && QueueLen(b) > 0
    requires m == Splice(b, 48, Encode(RingPos(b, 1), 4))
    requires c == Splice(m, 52, Encode(QueueLen(b) - 1, 4))
    ensures Becomes(b, c, Meaning(b).(queue := Meaning(b).queue[1..]))
  {
    hide SlotAt, MintedOf, CleanTail, U32At, EntryAt, Encode, Splice, SlotsOf;
    var n := QueueLen(b);
    WriteHead(b, m, RingPos(b, 1));
    WriteQueueLen(m, c, n - 1);
    forall k | 0 <= k < n - 1
      ensures EntryAt(c, RingPos(c, k)) == EntryAt(b, RingPos(b, k + 1))
    {
      assert RingPos(c, k) == RingPos(b, k + 1);
    }
    assert QueueOf(c) == QueueOf(b)[1..];
  }

  lemma MarkBytes(b: Bytes, c: Bytes, i: u32)
    requires Counted(b) && i < Cap(b)
    requires c == b[BitmapOffset(Cap(b)) + i / 8 := SetBit(b[BitmapOffset(Cap(b)) + i / 8], i % 8)]
    ensures Becomes(b, c, Meaning(b).(minted := Meaning(b).minted + {i}))
  {
    hide SlotAt, MintedOf, CleanTail, U32At, EntryAt, SlotsOf, QueueOf, SetBit;
    WriteBit(b, c, i);
  }

  /** A zeroed buffer of the right size, once its header is written, holds every index and nothing else. */
  function FreshPool(capacity: u32): PoolState {
    PoolState(capacity, seq(capacity, i requires 0 <= i < capacity => i), [], {})
  }

  lemma {:induction false} ZeroWord(b: Bytes, o: nat, k: nat)
    requires o + k <= |b| && forall j :: o <= j < o + k ==> b[j] == 0
    ensures Word(b, o, k) == 0
    decreases k
  {
    if k > 0 {
      ZeroWord(b, o + 1, k - 1);
    }
  }

  lemma FreshBytes(b: Bytes, capacity: u32)
    requires capacity <= MAX_CAPACITY && |b| == Size(capacity)
    requires HasDiscriminator(b) && U32At(b, 40) == U32At(b, 44) == capacity && U32At(b, 48) == U32At(b, 52) == 0
    requires forall k :: HEADER <= k < |b| ==> b[k] == 0
    ensures Represents(b) && Meaning(b) == FreshPool(capacity)
  {
    forall i: u32 | 0 <= i < capacity
      ensures SlotAt(b, i) == i
    {
      ZeroWord(b, SlotOffset(i), 4);
    }
    forall i: nat | i / 8 < (capacity + 7) / 8
      ensures !BitAt(b, i)
    {
      ZeroHasNoDigits(8, i % 8);
    }
    assert SlotsOf(b) == FreshPool(capacity).slots;
    assert MintedOf(b) == {};
  }

  // ----- population count

  /** The bits set among the first `n` bits of the bitmap. */
  ghost function BitsBelow(b: Bytes, n: nat): set<nat>
    requires Sized(b) && n <= 8 * ((Cap(b) + 7) / 8)
  {
    set i: nat | i < n && BitAt(b, i)
  }

  lemma BitsBelowStep(b: Bytes, j: nat, k: nat)
    requires Sized(b) && j < (Cap(b) + 7) / 8 && k < 8
    ensures |BitsBelow(b, 8 * j + k + 1)| == |BitsBelow(b, 8 * j + k)| + if TestBit(b[BitmapOffset(Cap(b)) + j], k)
            then 1 else 0
  {
    hide TestBit, U32At;
    var n := 8 * j + k;
    assert n / 8 == j && n % 8 == k;
    assert BitAt(b, n) == TestBit(b[BitmapOffset(Cap(b)) + j], k);
    BitsBelowOne(b, n);
  }

  lemma BitsBelowOne(b: Bytes, n: nat)
    requires Sized(b) && n < 8 * ((Cap(b) + 7) / 8)
    ensures |BitsBelow(b, n + 1)| == |BitsBelow(b, n)| + if BitAt(b, n) then 1 else 0
  {
    hide BitAt, Sized;
    if BitAt(b, n) {
      assert BitsBelow(b, n + 1) == BitsBelow(b, n) + {n};
    } else {
      assert BitsBelow(b, n + 1) == BitsBelow(b, n);
    }
  }

  lemma {:induction false} BitsBelowByte(b: Bytes, j: nat, k: nat)
    requires Sized(b) && j < (Cap(b) + 7) / 8 && k <= 8
    ensures |BitsBelow(b, 8 * j + k)| == |BitsBelow(b, 8 * j)| + Trues(Digits(b[BitmapOffset(Cap(b)) + j], 8)[..k])
  {
    hide BitAt, BitsBelow, U32At, Digits;
    if k > 0 {
      BitsBelowByte(b, j, k - 1);
      BitsBelowStep(b, j, k - 1);
      var a := Digits(b[BitmapOffset(Cap(b)) + j], 8);
      assert a[..k][..k - 1] == a[..k - 1];
    }
  }

  lemma NoBitsBelowZero(b: Bytes)
    requires Sized(b)
    ensures |BitsBelow(b, 0)| == 0
  {
    assert BitsBelow(b, 0) == {};
  }

  lemma AllBitsAreMinted(b: Bytes)
    requires Represents(b)
    ensures |BitsBelow(b, 8 * ((Cap(b) + 7) / 8))| == |MintedOf(b)|
  {
    assert forall i: nat :: i in BitsBelow(b, 8 * ((Cap(b) + 7) / 8)) <==> i in MintedOf(b);
    SameElementsSameSize(BitsBelow(b, 8 * ((Cap(b) + 7) / 8)), MintedOf(b));
  }

  lemma {:induction false} SameElementsSameSize(s: set<nat>, t: set<u32>)
    requires forall i: nat :: i in s <==> i in t
    ensures |s| == |t|
  {
    if s == {} {
      assert t == {};
    } else {
      var x :| x in s;
      SameElementsSameSize(s - {x}, t - {x});
    }
  }

  // ----- the buffer operations

  method WriteU32(d: array<u8>, o: nat, v: u32)
    requires o + 4 <= d.Length
    modifies d
    ensures d[..] == Splice(old(d[..]), o, Encode(v, 4))
  {
    var w := Encode(v, 4);
    forall k | 0 <= k < 4 {
      d[o + k] := w[k];
    }
  }

  method WriteU64(d: array<u8>, o: nat, v: u64)
    requires o + 8 <= d.Length
    modifies d
    ensures d[..] == Splice(old(d[..]), o, Encode(v, 8))
  {
    var w := Encode(v, 8);
    forall k | 0 <= k < 8 {
      d[o + k] := w[k];
    }
  }

  /**
   Initialises a buffer. Only the size and the first eight bytes are checked; the result is a full
   pool exactly when the caller hands over zeroed bytes past the header.
   */
  method Init(d: array<u8>, vault: Digest, capacity: u32) returns (r: Status)
    modifies d
    ensures r.Ok? <==> d.Length == Size(capacity) && forall k :: 0 <= k < 8 ==> old(d[k]) == 0
    ensures r.Err? ==> r == Err(InvalidPoolAccount) && d[..] == old(d[..])
    ensures r.Ok? ==> forall k :: 0 <= k < 32 ==> d[8 + k] == vault[k]
    ensures r.Ok? ==> forall k :: 56 <= k < d.Length ==> d[k] == old(d[k])
    ensures r.Ok? && capacity <= MAX_CAPACITY && (forall k :: HEADER <= k < d.Length ==> old(d[k]) == 0)
            ==> Represents(d[..]) && Meaning(d[..]) == FreshPool(capacity)
  {
    hide U32At, Encode;
    if d.Length != Size(capacity) || exists k :: 0 <= k < 8 && d[k] != 0 {
      return Err(InvalidPoolAccount);
    }
    forall k | 0 <= k < 8 {
      d[k] := DISCRIMINATOR[k];
    }
    forall k | 0 <= k < 32 {
      d[8 + k] := vault[k];
    }
    ghost var b := d[..];
    WriteU32(d, 40, capacity);
    SpliceU32(b, 40, capacity);
    ghost var b0 := d[..];
    WriteU32(d, 44, capacity);
    ghost var b1 := d[..];
    WriteU32(d, 48, 0);
    ghost var b2 := d[..];
    WriteU32(d, 52, 0);
    HeaderWords(b0, b1, b2, d[..], capacity);
    if capacity <= MAX_CAPACITY && (forall k :: HEADER <= k < d.Length ==> old(d[k]) == 0) {
      FreshBytes(d[..], capacity);
    }
    r := Ok(());
  }

  lemma HeaderWords(b0: Bytes, b1: Bytes, b2: Bytes, b3: Bytes, capacity: u32)
    requires HEADER <= |b0| == |b1| == |b2| && U32At(b0, 40) == capacity
    requires b1 == Splice(b0, 44, Encode(capacity, 4)) && b2 == Splice(b1, 48, Encode(0, 4))
             && b3 == Splice(b2, 52, Encode(0, 4))
    ensures U32At(b3, 40) == U32At(b3, 44) == capacity && U32At(b3, 48) == U32At(b3, 52) == 0
  {
    AgreeU32(b0, b3, 40);
    SpliceU32(b0, 44, capacity);
    AgreeU32(b1, b3, 44);
    SpliceU32(b1, 48, 0);
    AgreeU32(b2, b3, 48);
    SpliceU32(b2, 52, 0);
  }

  class PoolView {
    const d: array<u8>
    const cap: u32

    constructor (d: array<u8>, cap: u32)
      ensures this.d == d && this.cap == cap
    {
      this.d := d;
      this.cap := cap;
    }

    ghost predicate Valid()
      reads d
    {
      Represents(d[..]) && cap == Cap(d[..])
    }

    /** What the buffer currently means. */
    ghost function State(): PoolState
      reads d
      requires Valid()
    {
      Meaning(d[..])
    }

    /** Accepts exactly the buffers of this vault with the right discriminator and size. */
    static method Load(d: array<u8>, vault: Digest) returns (r: Result<PoolView>)
      ensures r.Ok? <==> Sized(d[..]) && HasDiscriminator(d[..]) && d[8..40] == vault
      ensures r.Err?
              ==> r.error == if HEADER <= d.Length && HasDiscriminator(d[..]) && d[8..40] != vault then PoolMismatch
                else InvalidPoolAccount
      ensures r.Ok? ==> fresh(r.value) && r.value.d == d && r.value.cap == Cap(d[..])
    {
      if d.Length < HEADER || !HasDiscriminator(d[..]) {
        return Err(InvalidPoolAccount);
      }
      if d[8..40] != vault {
        return Err(PoolMismatch);
      }
      var cap := U32At(d[..], 40);
      if d.Length != Size(cap) {
        return Err(InvalidPoolAccount);
      }
      var v := new PoolView(d, cap);
      r := Ok(v);
    }

    method PoolLen() returns (n: u32)
      requires Valid()
      ensures n == |State().slots|
    {
      n := U32At(d[..], 44);
    }

    method IncomingLen() returns (n: u32)
      requires Valid()
      ensures n == |State().queue|
    {
      n := U32At(d[..], 52);
    }

    method Total() returns (r: Result<u32>)
      requires Valid()
      ensures r == Pool.Total(State()) && r.Ok?
    {
      var a := PoolLen();
      var b := IncomingLen();
      r := Ok(a + b);
    }

    method PoolGet(i: u32) returns (index: u32)
      requires Valid() && i < |State().slots|
      ensures index == State().slots[i]
    {
      var word := U32At(d[..], SlotOffset(i));
      index := if word == 0 then i else word - 1;
    }

    method PoolPush(index: u32) returns (r: Status)
      requires Valid()
      modifies d
      ensures Valid() && Agree(old(d[..]), d[..], 0, 44)
      ensures match Push(old(State()), index)
              case Ok(p) => r == Ok(()) && State() == p
              case Err(e) => r == Err(e) && d[..] == old(d[..])
    {
      hide SlotAt, EntryAt, MintedOf, CleanTail, HasDiscriminator, U32At, U64At, TestBit, Encode, Splice;
      var total := Total();
      if total.value >= cap {
        return Err(AssetAccountingBroken);
      }
      if index >= cap {
        return Err(IndexOutOfRange);
      }
      var len := PoolLen();
      ghost var b := d[..];
      PushWf(Meaning(b), index);
      WriteU32(d, SlotOffset(len), index + 1);
      ghost var m := d[..];
      WriteU32(d, 44, len + 1);
      PushBytes(b, m, d[..], index);
      StillRepresents(b, d[..], Push(Meaning(b), index).value);
      r := Ok(());
    }

    method PoolSwapRemove(i: u32) returns (r: Result<u32>)
      requires Valid()
      modifies d
      ensures Valid() && Agree(old(d[..]), d[..], 0, 44)
      ensures match SwapRemove(old(State()), i)
              case Ok((p, picked)) => r == Ok(picked) && State() == p
              case Err(e) => r == Err(e) && d[..] == old(d[..])
    {
      hide SlotAt, EntryAt, MintedOf, CleanTail, HasDiscriminator, U32At, U64At, TestBit, Encode, Splice;
      var len := PoolLen();
      if i >= len {
        return Err(NoAssetAvailable);
      }
      var picked := PoolGet(i);
      var last := PoolGet(len - 1);
      ghost var b := d[..];
      assert last == Meaning(b).slots[len - 1] == SlotAt(b, len - 1);
      SwapRemoveWf(Meaning(b), i);
      WriteU32(d, SlotOffset(i), last + 1);
      ghost var m := d[..];
      WriteU32(d, 44, len - 1);
      SwapRemoveBytes(b, m, d[..], i);
      StillRepresents(b, d[..], Meaning(b).(slots := SwapOut(Meaning(b).slots, i)));
      r := Ok(picked);
    }

    /** The tag of the newest entry, if any. */
    method IncomingBackTag() returns (t: Option<u64>)
      requires Valid()
      ensures t == if State().queue == [] then None else Some(State().queue[|State().queue| - 1].tag)
    {
      hide SlotAt, SlotsOf, MintedOf, CleanTail, HasDiscriminator, Word, SortedTags, BitAt;
      var len := IncomingLen();
      if len == 0 {
        return None;
      }
      var head := U32At(d[..], 48);
      var sum: u32 := head + len - 1;
      WrapIsModulo(head, len - 1, cap);
      QueueTagAt(d[..], len - 1);
      t := Some(U64At(d[..], RingOffset(cap, sum % cap) + 4));
    }

    method IncomingPush(index: u32, tag: u64) returns (r: Status)
      requires Valid()
      modifies d
      ensures Valid() && Agree(old(d[..]), d[..], 0, 44)
      ensures match Pool.IncomingPush(old(State()), index, tag)
              case Ok(p) => r == Ok(()) && State() == p
              case Err(e) => r == Err(e) && d[..] == old(d[..])
    {
      hide SlotAt, SlotsOf, MintedOf, CleanTail, HasDiscriminator, Word, Encode, Splice, SortedTags, BitAt;
      var total := Total();
      if total.value >= cap {
        return Err(AssetAccountingBroken);
      }
      var back := IncomingBackTag();
      if back.Some? && tag < back.value {
        return Err(AssetAccountingBroken);
      }
      var len := IncomingLen();
      var head := U32At(d[..], 48);
      ghost var b := d[..];
      var sum: u32 := head + len;
      var slot: u32 := sum % cap;
      WrapIsModulo(head, len, cap);
      var o := RingOffset(cap, slot);
      IncomingPushWf(Meaning(b), index, tag);
      WriteU32(d, o, index);
      ghost var m := d[..];
      WriteU64(d, o + 4, tag);
      ghost var m' := d[..];
      WriteU32(d, 52, len + 1);
      IncomingPushBytes(b, m, m', d[..], Entry(index, tag));
      StillRepresents(b, d[..], Pool.IncomingPush(Meaning(b), index, tag).value);
      r := Ok(());
    }

    method IncomingFrontTag() returns (t: Option<u64>)
      requires Valid()
      ensures t == FrontTag(State())
    {
      var len := IncomingLen();
      if len == 0 {
        t := None;
      } else {
        var head := U32At(d[..], 48);
        t := Some(U64At(d[..], RingOffset(cap, head) + 4));
      }
    }

    /** Takes the oldest entry off the ring. */
    method PopIncoming() returns (index: u32)
      requires Valid() && State().queue != []
      modifies d
      ensures Valid() && Agree(old(d[..]), d[..], 0, 44)
      ensures index == old(State()).queue[0].index
      ensures State() == old(State()).(queue := old(State()).queue[1..])
    {
      hide SlotAt, EntryAt, MintedOf, CleanTail, HasDiscriminator, U32At, U64At, TestBit, Encode, Splice;
      var head := U32At(d[..], 48);
      index := U32At(d[..], RingOffset(cap, head));
      var len := IncomingLen();
      ghost var b := d[..];
      QueueTagAt(b, 0);
      PopWf(Meaning(b));
      var next: u32 := head + 1;
      WrapIsModulo(head, 1, cap);
      WriteU32(d, 48, next % cap);
      ghost var m := d[..];
      WriteU32(d, 52, len - 1);
      PopBytes(b, m, d[..]);
      StillRepresents(b, d[..], Meaning(b).(queue := Meaning(b).queue[1..]));
    }

    method Merge(maxTag: u64, max: u32) returns (r: Result<u32>)
      requires Valid()
      modifies d
      ensures Valid() && Agree(old(d[..]), d[..], 0, 44)
      ensures (State(), r) == Pool.Merge(old(State()), maxTag, max)
    {
      hide Represents, Meaning, SortedTags;
      var moved: u32 := 0;
      ghost var whole := Pool.Merge(State(), maxTag, max);
      while moved < max
        invariant Valid() && Agree(old(d[..]), d[..], 0, 44) && moved <= max
        invariant var rest := Pool.Merge(State(), maxTag, max - moved);
                  rest.0 == whole.0 && if whole.1.Ok? then rest.1.Ok? && moved + rest.1.value == whole.1.value
                    else rest.1 == whole.1
      {
        var t := IncomingFrontTag();
        if t.None? || t.value > maxTag {
          break;
        }
        var index := PopIncoming();
        var pushed := PoolPush(index);
        if pushed.Err? {
          return Err(pushed.error);
        }
        moved := moved + 1;
      }
      r := Ok(moved);
    }

    method IsMinted(index: u32) returns (minted: bool)
      requires Valid()
      ensures minted <==> index in State().minted
    {
      minted := index < cap && TestBit(d[BitmapOffset(cap) + index / 8], index % 8);
    }

    method MarkMinted(index: u32) returns (r: Status)
      requires Valid()
      modifies d
      ensures Valid() && Agree(old(d[..]), d[..], 0, 44)
      ensures match Pool.MarkMinted(old(State()), index)
              case Ok(p) => r == Ok(()) && State() == p
              case Err(e) => r == Err(e) && d[..] == old(d[..])
    {
      hide SlotAt, EntryAt, MintedOf, CleanTail, HasDiscriminator, U32At, U64At, TestBit, Encode, Splice;
      if index >= cap {
        return Err(IndexOutOfRange);
      }
      var minted := IsMinted(index);
      if minted {
        return Err(AlreadyMinted);
      }
      var o := BitmapOffset(cap) + index / 8;
      ghost var b := d[..];
      d[o] := SetBit(d[o], index % 8);
      assert d[..] == b[o := SetBit(b[o], index % 8)];
      MarkBytes(b, d[..], index);
      StillRepresents(b, d[..], Meaning(b).(minted := Meaning(b).minted + {index}));
      r := Ok(());
    }

    method MintedPopcount() returns (n: nat)
      requires Valid()
      ensures n == |State().minted|
    {
      hide Wf, SlotsOf, QueueOf, Digits, Trues, BitAt, BitsBelow, MintedOf;
      n := 0;
      var bytes := (cap + 7) / 8;
      NoBitsBelowZero(d[..]);
      for j := 0 to bytes
        invariant n == |BitsBelow(d[..], 8 * j)|
      {
        BitsBelowByte(d[..], j, 8);
        assert Digits(d[BitmapOffset(cap) + j], 8)[..8] == Digits(d[BitmapOffset(cap) + j], 8);
        n := n + CountOnes(d[BitmapOffset(cap) + j]);
      }
      AllBitsAreMinted(d[..]);
    }
  }
}
