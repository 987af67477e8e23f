/** Little-endian words in byte strings, and overwriting part of a byte string. */
module LittleEndian {
  import opened Base

  /** The `k` low bytes of `v`, least significant first. */
  function Encode(v: nat, k: nat): (r: Bytes)
    ensures |r| == k
  {
    if k == 0 then [] else [v % 256] + Encode(v / 256, k - 1)
  }

  /** The number in the `k` bytes of `b` from offset `o`. */
  function Word(b: Bytes, o: nat, k: nat): nat
    requires o + k <= |b|
    decreases k, |b|
  {
    if k == 0 then 0 else b[o] + 256 * Word(b, o + 1, k - 1)
  }

  function Pow256(k: nat): nat {
    if k == 0 then 1 else 256 * Pow256(k - 1)
  }

  lemma WordSizes()
    ensures Pow256(2) == 0x1_0000
    ensures Pow256(4) == 0x1_0000_0000
    ensures Pow256(8) == 0x1_0000_0000_0000_0000
  {
    assert Pow256(1) == 256;
    assert Pow256(3) == 256 * Pow256(2);
    assert Pow256(5) == 256 * Pow256(4);
    assert Pow256(7) == 256 * Pow256(6);
  }

  lemma {:induction false} WordBound(b: Bytes, o: nat, k: nat)
    requires o + k <= |b|
    ensures Word(b, o, k) < Pow256(k)
    decreases k
  {
    if k > 0 {
      WordBound(b, o + 1, k - 1);
    }
  }

  /** Two byte strings carry the same bytes from `lo` up to `hi`. */
  ghost predicate Agree(b: Bytes, c: Bytes, lo: int, hi: int) {
    |b| == |c| && forall k :: 0 <= k < |b| && lo <= k < hi ==> b[k] == c[k]
  }

  lemma {:induction false} WordFrame(b: Bytes, c: Bytes, o: nat, k: nat)
    requires o + k <= |b| && Agree(b, c, o, o + k)
    ensures Word(b, o, k) == Word(c, o, k)
    decreases k
  {
    if k > 0 {
      WordFrame(b, c, o + 1, k - 1);
    }
  }

  /** Reading back an encoded number, wherever in a byte string it was put. */
  lemma {:induction false} RoundTrip(b: Bytes, o: nat, v: nat, k: nat)
    requires v < Pow256(k) && o + k <= |b|
    requires forall j :: 0 <= j < k ==> b[o + j] == Encode(v, k)[j]
    ensures Word(b, o, k) == v
    decreases k
  {
    if k > 0 {
      var rest := Encode(v / 256, k - 1);
      forall j | 0 <= j < k - 1
        ensures b[o + 1 + j] == rest[j]
      {
        assert b[o + (j + 1)] == Encode(v, k)[j + 1];
      }
      assert b[o + 0] == Encode(v, k)[0];
      RoundTrip(b, o + 1, v / 256, k - 1);
    }
  }

  lemma EncodeInjective(v: nat, w: nat, k: nat)
    requires v < Pow256(k) && w < Pow256(k)
    requires Encode(v, k) == Encode(w, k)
    ensures v == w
  {
    RoundTrip(Encode(v, k), 0, v, k);
    RoundTrip(Encode(w, k), 0, w, k);
  }

  function U32At(b: Bytes, o: nat): (v: u32)
    requires o + 4 <= |b|
  {
    WordSizes();
    WordBound(b, o, 4);
    Word(b, o, 4)
  }

  function U64At(b: Bytes, o: nat): (v: u64)
    requires o + 8 <= |b|
  {
    WordSizes();
    WordBound(b, o, 8);
    Word(b, o, 8)
  }

  /** `b` with the bytes `w` written at offset `o`. */
  function Splice(b: Bytes, o: nat, w: Bytes): (r: Bytes)
    requires o + |w| <= |b|
    ensures |r| == |b|
  {
    seq(|b|, k requires 0 <= k < |b| => if o <= k < o + |w| then w[k - o] else b[k])
  }

  lemma SpliceU32(b: Bytes, o: nat, v: u32)
    requires o + 4 <= |b|
    ensures U32At(Splice(b, o, Encode(v, 4)), o) == v
  {
    WordSizes();
    RoundTrip(Splice(b, o, Encode(v, 4)), o, v, 4);
  }

  lemma SpliceU64(b: Bytes, o: nat, v: u64)
    requires o + 8 <= |b|
    ensures U64At(Splice(b, o, Encode(v, 8)), o) == v
  {
    WordSizes();
    RoundTrip(Splice(b, o, Encode(v, 8)), o, v, 8);
  }

  lemma AgreeU32(b: Bytes, c: Bytes, o: nat)
    requires o + 4 <= |b| && Agree(b, c, o, o + 4)
    ensures U32At(b, o) == U32At(c, o)
  {
    WordFrame(b, c, o, 4);
  }

  lemma AgreeU64(b: Bytes, c: Bytes, o: nat)
    requires o + 8 <= |b| && Agree(b, c, o, o + 8)
    ensures U64At(b, o) == U64At(c, o)
  {
    WordFrame(b, c, o, 8);
  }

  // ----- the same words, byte by byte

  function TwoBytes(v: nat): Bytes {
    [v % 0x100, v / 0x100 % 0x100]
  }

  function FourBytes(v: nat): Bytes {
    [v % 0x100, v / 0x100 % 0x100, v / 0x1_0000 % 0x100, v / 0x100_0000 % 0x100]
  }

  function EightBytes(v: nat): Bytes {
    FourBytes(v) + FourBytes(v / 0x1_0000_0000)
  }

  /** An encoded number is its base-256 digits, the least significant first. */
  lemma EncodedBytes(v: nat)
    ensures Encode(v, 2) == TwoBytes(v) && Encode(v, 4) == FourBytes(v) && Encode(v, 8) == EightBytes(v)
  {
    EncodedFour(v);
    EncodedFour(v / 0x1_0000_0000);
    EncodeSplits(v);
  }

  lemma EncodedFour(v: nat)
    ensures Encode(v, 2) == TwoBytes(v) && Encode(v, 4) == FourBytes(v)
  {
    var a, b, c := v / 0x100, v / 0x1_0000, v / 0x100_0000;
    assert a / 0x100 == b && b / 0x100 == c;
    assert Encode(c, 1) == [c % 0x100];
    assert Encode(b, 2) == [b % 0x100] + Encode(c, 1);
    assert Encode(a, 3) == [a % 0x100] + Encode(b, 2);
  }

  lemma EncodeSplits(v: nat)
    ensures Encode(v, 8) == Encode(v, 4) + Encode(v / 0x1_0000_0000, 4)
  {
    var a, b, c, d := v / 0x100, v / 0x1_0000, v / 0x100_0000, v / 0x1_0000_0000;
    assert a / 0x100 == b && b / 0x100 == c && c / 0x100 == d;
    assert Encode(c, 5) == [c % 0x100] + Encode(d, 4);
    assert Encode(b, 6) == [b % 0x100] + Encode(c, 5);
    assert Encode(a, 7) == [a % 0x100] + Encode(b, 6);
    assert Encode(v, 4) == [v % 0x100, a % 0x100, b % 0x100, c % 0x100] by {
      EncodedFour(v);
    }
  }

  /** The value of a word is that of its bytes, the least significant first. */
  lemma WordOfBytes(b: Bytes, o: nat)
    requires o + 4 <= |b|
    ensures U32At(b, o)
            == b[o] as nat + 0x100 * b[o + 1] as nat + 0x1_0000 * b[o + 2] as nat + 0x100_0000 * b[o + 3] as nat
    ensures o + 8 <= |b| ==> U64At(b, o) == U32At(b, o) + 0x1_0000_0000 * U32At(b, o + 4)
  {
    FourOf(b, o, 0);
    if o + 8 <= |b| {
      FourOf(b, o, 4);
      FourOf(b, o + 4, 0);
    }
  }

  lemma FourOf(b: Bytes, o: nat, k: nat)
    requires o + 4 + k <= |b|
    ensures Word(b, o, 4 + k)
            == b[o] as nat + 0x100 * b[o + 1] as nat + 0x1_0000 * b[o + 2] as nat + 0x100_0000 * b[o + 3] as nat
               + 0x1_0000_0000 * Word(b, o + 4, k)
  {
    assert Word(b, o + 3, k + 1) == b[o + 3] as nat + 0x100 * Word(b, o + 4, k);
    assert Word(b, o + 2, k + 2) == b[o + 2] as nat + 0x100 * Word(b, o + 3, k + 1);
    assert Word(b, o + 1, k + 3) == b[o + 1] as nat + 0x100 * Word(b, o + 2, k + 2);
  }
}
