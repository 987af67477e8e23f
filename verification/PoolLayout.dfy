/** The byte layout of the pool account, and what the bytes mean as a `PoolState`. */
module PoolLayout {
  import opened Base
  import opened Arithmetic
  import opened LittleEndian
  import opened Pool

  /** The ASCII bytes of "hvpool02". */
  const DISCRIMINATOR: Bytes := [0x68, 0x76, 0x70, 0x6f, 0x6f, 0x6c, 0x30, 0x32]
  const HEADER: nat := 64
  const ENTRY: nat := 12

  function Size(cap: nat): nat {
    HEADER + 16 * cap + (cap + 7) / 8
  }

  // ----- single bits of a byte

  /** The `k` low binary digits of `x`, least significant first. */
  function Digits(x: nat, k: nat): (a: seq<bool>)
    ensures |a| == k
  {
    if k == 0 then [] else [x % 2 == 1] + Digits(x / 2, k - 1)
  }

  function Number(a: seq<bool>): (x: nat)
    ensures x < Pow2(|a|)
  {
    if a == [] then 0 else (if a[0] then 1 else 0) + 2 * Number(a[1..])
  }

  lemma {:induction false} DigitsOfNumber(a: seq<bool>)
    ensures Digits(Number(a), |a|) == a
  {
    if a != [] {
      DigitsOfNumber(a[1..]);
    }
  }

  /** `b & (1 << k) != 0` */
  predicate TestBit(b: u8, k: nat)
    requires k < 8
  {
    Digits(b, 8)[k]
  }

  /** `b | (1 << k)` */
  function SetBit(b: u8, k: nat): u8
    requires k < 8
  {
    assert Pow2(4) == 16;
    Number(Digits(b, 8)[k := true])
  }

  lemma SetBitBits(b: u8, k: nat, j: nat)
    requires k < 8 && j < 8
    ensures TestBit(SetBit(b, k), j) <==> j == k || TestBit(b, j)
  {
    DigitsOfNumber(Digits(b, 8)[k := true]);
  }

  lemma {:induction false} ZeroHasNoDigits(n: nat, k: nat)
    requires k < n
    ensures !Digits(0, n)[k]
  {
    if k > 0 {
      ZeroHasNoDigits(n - 1, k - 1);
    }
  }

  /** The number of bits set in a byte. */
  function CountOnes(b: u8): nat {
    Trues(Digits(b, 8))
  }

  function Trues(a: seq<bool>): nat {
    if a == [] then 0 else Trues(a[..|a| - 1]) + if a[|a| - 1] then 1 else 0
  }

  // ----- header fields and regions

  function Cap(b: Bytes): u32
    requires HEADER <= |b|
  {
    U32At(b, 40)
  }

  function Len(b: Bytes): u32
    requires HEADER <= |b|
  {
    U32At(b, 44)
  }

  function Head(b: Bytes): u32
    requires HEADER <= |b|
  {
    U32At(b, 48)
  }

  function QueueLen(b: Bytes): u32
    requires HEADER <= |b|
  {
    U32At(b, 52)
  }

  predicate HasDiscriminator(b: Bytes) {
    8 <= |b| && forall k :: 0 <= k < 8 ==> b[k] == DISCRIMINATOR[k]
  }

  predicate Sized(b: Bytes) {
    HEADER <= |b| && |b| == Size(Cap(b))
  }

  function SlotOffset(i: nat): nat {
    HEADER + 4 * i
  }

  function RingOffset(cap: nat, r: nat): nat {
    HEADER + 4 * cap + ENTRY * r
  }

  function BitmapOffset(cap: nat): nat {
    HEADER + 16 * cap
  }

  /** Slot word 0 stands for the slot's own position. */
  function SlotAt(b: Bytes, i: u32): u32
    requires Sized(b) && i < Cap(b)
  {
    var word := U32At(b, SlotOffset(i));
    if word == 0 then i else word - 1
  }

  function EntryAt(b: Bytes, r: u32): Entry
    requires Sized(b) && r < Cap(b)
  {
    Entry(U32At(b, RingOffset(Cap(b), r)), U64At(b, RingOffset(Cap(b), r) + 4))
  }

  /** Position `k` steps after `head` on a ring of `cap` places. */
  function Wrap(head: nat, k: nat, cap: nat): (r: nat)
    requires head < cap && k <= cap
    ensures r < cap
  {
    if head + k < cap then head + k else head + k - cap
  }

  lemma WrapIsModulo(head: nat, k: nat, cap: nat)
    requires head < cap && k <= cap
    ensures Wrap(head, k, cap) == (head + k) % cap
  {
  }

  /** Position of the `k`-th oldest entry in the ring. */
  function RingPos(b: Bytes, k: nat): u32
    requires Sized(b) && Head(b) < Cap(b) && k <= Cap(b)
  {
    Wrap(Head(b), k, Cap(b))
  }

  predicate BitAt(b: Bytes, i: nat)
    requires Sized(b) && i / 8 < (Cap(b) + 7) / 8
  {
    TestBit(b[BitmapOffset(Cap(b)) + i / 8], i % 8)
  }

  // ----- the meaning of the bytes

  predicate Counted(b: Bytes) {
    && Sized(b)
    && Cap(b) <= MAX_CAPACITY
    && Len(b) + QueueLen(b) <= Cap(b)
    && (0 < Cap(b) ==> Head(b) < Cap(b))
  }

  function SlotsOf(b: Bytes): (s: seq<u32>)
    requires Counted(b)
    ensures |s| == Len(b)
  {
    seq(Len(b), i requires 0 <= i < Len(b) => SlotAt(b, i))
  }

  function QueueOf(b: Bytes): (q: seq<Entry>)
    requires Counted(b)
    ensures |q| == QueueLen(b)
  {
    seq(QueueLen(b), k requires 0 <= k < QueueLen(b) => EntryAt(b, RingPos(b, k)))
  }

  function MintedOf(b: Bytes): set<u32>
    requires Sized(b)
  {
    set i: u32 | 0 <= i < Cap(b) && BitAt(b, i)
  }

  function Meaning(b: Bytes): PoolState
    requires Counted(b)
  {
    PoolState(Cap(b), SlotsOf(b), QueueOf(b), MintedOf(b))
  }

  /** The bitmap bits past the last index are clear. */
  ghost predicate CleanTail(b: Bytes)
    requires Sized(b)
  {
    forall i: nat :: Cap(b) <= i < 8 * ((Cap(b) + 7) / 8) ==> !BitAt(b, i)
  }

  /** The representation invariant. Slot words past the pool length are unconstrained: they may be stale. */
  ghost predicate Represents(b: Bytes) {
    && Counted(b)
    && HasDiscriminator(b)
    && Wf(Meaning(b))
    && CleanTail(b)
  }

  // ----- framing

  lemma SlotsFrame(b: Bytes, c: Bytes)
    requires Counted(b) && Counted(c) && Cap(b) == Cap(c) && Len(b) == Len(c)
    requires Agree(b, c, HEADER, SlotOffset(Len(b)))
    ensures SlotsOf(b) == SlotsOf(c)
  {
    forall i | 0 <= i < Len(b)
      ensures SlotAt(b, i) == SlotAt(c, i)
    {
      AgreeU32(b, c, SlotOffset(i));
    }
  }

  lemma EntryFrame(b: Bytes, c: Bytes, r: u32)
    requires Sized(b) && Sized(c) && Cap(b) == Cap(c) && r < Cap(b)
    requires Agree(b, c, RingOffset(Cap(b), r), RingOffset(Cap(b), r + 1))
    ensures EntryAt(b, r) == EntryAt(c, r)
  {
    hide Word;
    AgreeU32(b, c, RingOffset(Cap(b), r));
    AgreeU64(b, c, RingOffset(Cap(b), r) + 4);
  }

  lemma QueueFrame(b: Bytes, c: Bytes)
    requires Counted(b) && Counted(c) && Cap(b) == Cap(c)
    requires QueueLen(b) == QueueLen(c) && Head(b) == Head(c)
    requires Agree(b, c, RingOffset(Cap(b), 0), BitmapOffset(Cap(b)))
    ensures QueueOf(b) == QueueOf(c)
  {
    forall k | 0 <= k < QueueLen(b)
      ensures EntryAt(b, RingPos(b, k)) == EntryAt(c, RingPos(c, k))
    {
      EntryFrame(b, c, RingPos(b, k));
    }
  }

  lemma MintedFrame(b: Bytes, c: Bytes)
    requires Sized(b) && Sized(c) && Cap(b) == Cap(c)
    requires Agree(b, c, BitmapOffset(Cap(b)), |b|)
    ensures MintedOf(b) == MintedOf(c)
    ensures CleanTail(b) ==> CleanTail(c)
  {
    hide TestBit, U32At;
    forall i: nat | i / 8 < (Cap(b) + 7) / 8
      ensures BitAt(b, i) == BitAt(c, i)
    {
    }
  }

  lemma HeaderFrame(b: Bytes, c: Bytes)
    requires Sized(b) && Agree(b, c, 0, 56)
    ensures Sized(c) && Cap(c) == Cap(b) && Len(c) == Len(b) && Head(c) == Head(b) && QueueLen(c) == QueueLen(b)
  {
    AgreeU32(b, c, 40);
    AgreeU32(b, c, 44);
    AgreeU32(b, c, 48);
    AgreeU32(b, c, 52);
  }

  // ----- what each write does to the meaning

  /** What every write below keeps: the size, the capacity and the bytes before offset `o`. */
  ghost predicate Kept(b: Bytes, c: Bytes, o: nat)
    requires Counted(b)
  {
    Counted(c) && Cap(c) == Cap(b) && Agree(b, c, 0, o)
  }

  /** Overwriting the slot word of position `i`, which may lie one past the pool length. */
  lemma WriteSlot(b: Bytes, c: Bytes, i: u32, index: u32)
    requires Counted(b) && i < Cap(b) && index < U32_MAX
    requires c == Splice(b, SlotOffset(i), Encode(index + 1, 4))
    ensures Kept(b, c, 56)
    ensures SlotAt(c, i) == index
    ensures forall j :: 0 <= j < Cap(b) && j != i ==> SlotAt(c, j) == SlotAt(b, j)
    ensures Len(c) == Len(b) && Head(c) == Head(b) && QueueLen(c) == QueueLen(b)
    ensures QueueOf(c) == QueueOf(b) && MintedOf(c) == MintedOf(b) && (CleanTail(b) ==> CleanTail(c))
  {
    hide Word, Encode, BitAt, EntryAt;
    HeaderFrame(b, c);
    SpliceU32(b, SlotOffset(i), index + 1);
    QueueFrame(b, c);
    MintedFrame(b, c);
    forall j | 0 <= j < Cap(b) && j != i
      ensures SlotAt(c, j) == SlotAt(b, j)
    {
      AgreeU32(b, c, SlotOffset(j));
    }
  }

  /** Changing the pool length keeps every slot word. */
  lemma WriteLen(b: Bytes, c: Bytes, n: u32)
    requires Counted(b) && n + QueueLen(b) <= Cap(b)
    requires c == Splice(b, 44, Encode(n, 4))
    ensures Kept(b, c, 44)
    ensures Len(c) == n && Head(c) == Head(b) && QueueLen(c) == QueueLen(b)
    ensures forall j :: 0 <= j < Cap(b) ==> SlotAt(c, j) == SlotAt(b, j)
    ensures QueueOf(c) == QueueOf(b) && MintedOf(c) == MintedOf(b) && (CleanTail(b) ==> CleanTail(c))
  {
    hide Word, Encode, BitAt, EntryAt;
    SpliceU32(b, 44, n);
    AgreeU32(b, c, 40);
    AgreeU32(b, c, 48);
    AgreeU32(b, c, 52);
    QueueFrame(b, c);
    MintedFrame(b, c);
    forall j | 0 <= j < Cap(b)
      ensures SlotAt(c, j) == SlotAt(b, j)
    {
      AgreeU32(b, c, SlotOffset(j));
    }
  }

  /** Changing the queue length keeps every ring entry. */
  lemma WriteQueueLen(b: Bytes, c: Bytes, n: u32)
    requires Counted(b) && Len(b) + n <= Cap(b)
    requires c == Splice(b, 52, Encode(n, 4))
    ensures Kept(b, c, 52)
    ensures QueueLen(c) == n && Head(c) == Head(b) && Len(c) == Len(b)
    ensures forall r :: 0 <= r < Cap(b) ==> EntryAt(c, r) == EntryAt(b, r)
    ensures SlotsOf(c) == SlotsOf(b) && MintedOf(c) == MintedOf(b) && (CleanTail(b) ==> CleanTail(c))
  {
    hide Word, Encode, BitAt, SlotAt;
    SpliceU32(b, 52, n);
    AgreeU32(b, c, 40);
    AgreeU32(b, c, 44);
    AgreeU32(b, c, 48);
    SlotsFrame(b, c);
    MintedFrame(b, c);
    forall r | 0 <= r < Cap(b)
      ensures EntryAt(c, r) == EntryAt(b, r)
    {
      EntryFrame(b, c, r);
    }
  }

  /** Changing the ring head keeps every ring entry. */
  lemma WriteHead(b: Bytes, c: Bytes, h: u32)
    requires Counted(b) && h < Cap(b)
    requires c == Splice(b, 48, Encode(h, 4))
    ensures Kept(b, c, 48)
    ensures Head(c) == h && QueueLen(c) == QueueLen(b) && Len(c) == Len(b)
    ensures forall r :: 0 <= r < Cap(b) ==> EntryAt(c, r) == EntryAt(b, r)
    ensures SlotsOf(c) == SlotsOf(b) && MintedOf(c) == MintedOf(b) && (CleanTail(b) ==> CleanTail(c))
  {
    hide Word, Encode, BitAt, SlotAt;
    SpliceU32(b, 48, h);
    AgreeU32(b, c, 40);
    AgreeU32(b, c, 44);
    AgreeU32(b, c, 52);
    SlotsFrame(b, c);
    MintedFrame(b, c);
    forall r | 0 <= r < Cap(b)
      ensures EntryAt(c, r) == EntryAt(b, r)
    {
      EntryFrame(b, c, r);
    }
  }

  /** Overwriting one ring entry, by way of `m`, keeps the others, the pool and the bitmap. */
  lemma WriteEntry(b: Bytes, m: Bytes, c: Bytes, r: u32, e: Entry)
    requires Counted(b) && r < Cap(b)
    requires m == Splice(b, RingOffset(Cap(b), r), Encode(e.index, 4))
    requires c == Splice(m, RingOffset(Cap(b), r) + 4, Encode(e.tag, 8))
    ensures Kept(b, c, 56)
    ensures EntryAt(c, r) == e
    ensures Head(c) == Head(b) && QueueLen(c) == QueueLen(b) && Len(c) == Len(b)
    ensures forall r' :: 0 <= r' < Cap(b) && r' != r ==> EntryAt(c, r') == EntryAt(b, r')
    ensures SlotsOf(c) == SlotsOf(b) && MintedOf(c) == MintedOf(b) && (CleanTail(b) ==> CleanTail(c))
  {
    hide Word, Encode, BitAt, SlotAt;
    var o := RingOffset(Cap(b), r);
    HeaderFrame(b, c);
    SpliceU32(b, o, e.index);
    AgreeU32(m, c, o);
    SpliceU64(m, o + 4, e.tag);
    SlotsFrame(b, c);
    MintedFrame(b, c);
    forall r' | 0 <= r' < Cap(b) && r' != r
      ensures EntryAt(c, r') == EntryAt(b, r')
    {
      EntryFrame(b, c, r');
    }
  }

  lemma WriteBitBits(b: Bytes, c: Bytes, i: u32)
    requires Sized(b) && Sized(c) && Cap(b) == Cap(c) && i < Cap(b)
    requires c == b[BitmapOffset(Cap(b)) + i / 8 := SetBit(b[BitmapOffset(Cap(b)) + i / 8], i % 8)]
    ensures forall j: nat :: j / 8 < (Cap(b) + 7) / 8 ==> (BitAt(c, j) <==> j == i || BitAt(b, j))
  {
    hide TestBit, SetBit, U32At;
    var o := BitmapOffset(Cap(b)) + i / 8;
    forall j: nat | j / 8 < (Cap(b) + 7) / 8
      ensures BitAt(c, j) <==> j == i || BitAt(b, j)
    {
      if j / 8 == i / 8 {
        SetBitBits(b[o], i % 8, j % 8);
      }
    }
  }

  /** Setting one bitmap bit adds exactly that index to the minted set. */
  lemma WriteBit(b: Bytes, c: Bytes, i: u32)
    requires Counted(b) && i < Cap(b)
    requires c == b[BitmapOffset(Cap(b)) + i / 8 := SetBit(b[BitmapOffset(Cap(b)) + i / 8], i % 8)]
    ensures Kept(b, c, 56)
    ensures SlotsOf(c) == SlotsOf(b) && QueueOf(c) == QueueOf(b)
    ensures MintedOf(c) == MintedOf(b) + {i} && (CleanTail(b) ==> CleanTail(c))
  {
    hide TestBit, SetBit, SlotAt, EntryAt, Word, BitAt;
    HeaderFrame(b, c);
    SlotsFrame(b, c);
    QueueFrame(b, c);
    WriteBitBits(b, c, i);
  }

  // ----- the layout in literal offsets

  lemma {:induction false} DigitIsQuotient(x: nat, n: nat, k: nat)
    requires k < n
    ensures Digits(x, n)[k] <==> x / Pow2(k) % 2 == 1
    decreases k
  {
    if k == 0 {
      assert Pow2(0) == 1;
    } else {
      DigitIsQuotient(x / 2, n - 1, k - 1);
      Halve(x, Pow2(k - 1));
    }
  }

  /** The bytes of the ring entry at place `r` of an account with `cap` slots. */
  function RingEntry(b: Bytes, cap: nat, r: nat): Entry
    requires 64 + 16 * cap <= |b| && r < cap
  {
    Entry(U32At(b, 64 + 4 * cap + 12 * r), U64At(b, 68 + 4 * cap + 12 * r))
  }

  /**
   The account, byte by byte: lengths and ring head at 40 to 56, four bytes a slot from 64 on, twelve bytes a ring entry
   after the slots, one bit an index after the ring, and not a byte more.
   */
  lemma BytesMean(b: Bytes)
    requires Counted(b)
    ensures var p, cap := Meaning(b), U32At(b, 40) as nat;
            && p.cap == cap && |b| == 64 + 16 * cap + (cap + 7) / 8
            && |p.slots| == U32At(b, 44) && |p.queue| == U32At(b, 52)
            && (forall i: nat :: i < |p.slots| ==>
                  p.slots[i] == if U32At(b, 64 + 4 * i) == 0 then i else U32At(b, 64 + 4 * i) - 1)
            && (forall k: nat :: k < |p.queue| ==> p.queue[k] == RingEntry(b, cap, (U32At(b, 48) + k) % cap))
            && (forall i: u32 :: i in p.minted <==> i < cap && b[64 + 16 * cap + i / 8] / Pow2(i % 8) % 2 == 1)
  {
    hide U32At, U64At, Digits, Pow2;
    forall k: nat | k < QueueLen(b)
      ensures QueueOf(b)[k] == RingEntry(b, Cap(b), (Head(b) + k) % Cap(b))
    {
      WrapIsModulo(Head(b), k, Cap(b));
    }
    forall i: u32 | i < Cap(b)
      ensures BitAt(b, i) <==> b[64 + 16 * Cap(b) + i / 8] / Pow2(i % 8) % 2 == 1
    {
      DigitIsQuotient(b[64 + 16 * Cap(b) + i / 8], 8, i % 8);
    }
  }

  /** The account carries the mark `hvpool02`. */
  lemma MarkIsWritten(b: Bytes)
    ensures HasDiscriminator(b) <==> |b| >= 8 && forall k :: 0 <= k < 8 ==> b[k] == "hvpool02"[k] as int
  {
  }
}
