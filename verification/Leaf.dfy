/** The committed art of one asset, and the check a lazy mint makes before it creates the asset. */
module Leaf {
  import opened Base
  import opened Arithmetic
  import opened LittleEndian
  import opened Merkle
  import Selection

  type u16 = x: int | 0 <= x < 0x1_0000
  type Traits = t: seq<u16> | |t| == 8 witness seq(8, _ => 0)

  const LEAF_DOMAIN: Bytes := Selection.Ascii("mintmark-leaf-v2")
  const MAX_URI_LEN: nat := 200
  const MAX_MERKLE_DEPTH: nat := 17

  datatype LeafPreimage = LeafPreimage(traits: Traits, salt: Digest, image: Digest, json: Digest, uri: Bytes)

  /** The fixed parts of every leaf of one collection. */
  datatype Commitment = Commitment(root: Digest, schema: Digest, launchConfig: Digest, size: u32)

  // ----- the hashed byte strings

  function TraitBytes(traits: seq<u16>): (b: Bytes)
    ensures |b| == 2 * |traits|
  {
    if traits == [] then [] else TraitBytes(traits[..|traits| - 1]) + Encode(traits[|traits| - 1], 2)
  }

  function TraitsInput(schema: Digest, traits: Traits): Bytes {
    schema + TraitBytes(traits)
  }

  /** Fills the trait buffer two bytes at a time. */
  method TraitsHash(sha: Hash, schema: Digest, traits: Traits) returns (h: Digest)
    ensures h == sha(TraitsInput(schema, traits))
  {
    var b := new u8[16](_ => 0);
    for i := 0 to 8
      invariant b[..2 * i] == TraitBytes(traits[..i])
    {
      var w := Encode(traits[i], 2);
      b[2 * i] := w[0];
      b[2 * i + 1] := w[1];
      assert b[..2 * (i + 1)] == b[..2 * i] + w;
      assert traits[..i + 1][..i] == traits[..i];
    }
    assert traits[..8] == traits && b[..16] == b[..];
    h := sha(schema + b[..]);
  }

  function ArtInput(leaf: LeafPreimage): Bytes {
    leaf.salt + leaf.image + leaf.json + leaf.uri
  }

  function LeafInput(launchConfig: Digest, index: u32, traitsHash: Digest, artHash: Digest): Bytes {
    [0] + LEAF_DOMAIN + launchConfig + Encode(index, 4) + traitsHash + artHash
  }

  function LeafHash(sha: Hash, schema: Digest, launchConfig: Digest, index: u32, leaf: LeafPreimage): Digest {
    sha(LeafInput(launchConfig, index, sha(TraitsInput(schema, leaf.traits)), sha(ArtInput(leaf))))
  }

  /** Every byte string hashed to obtain one leaf hash. */
  function LeafInputs(sha: Hash, schema: Digest, launchConfig: Digest, index: u32, leaf: LeafPreimage): set<Bytes> {
    {TraitsInput(schema, leaf.traits), ArtInput(leaf),
     LeafInput(launchConfig, index, sha(TraitsInput(schema, leaf.traits)), sha(ArtInput(leaf)))}
  }

  // ----- the encodings lose nothing

  lemma {:induction false} TraitBytesInjective(a: seq<u16>, b: seq<u16>)
    requires |a| == |b| && TraitBytes(a) == TraitBytes(b)
    ensures a == b
  {
    if a != [] {
      var n := |a| - 1;
      assert TraitBytes(a)[..2 * n] == TraitBytes(a[..n]) && TraitBytes(b)[..2 * n] == TraitBytes(b[..n]);
      assert TraitBytes(a)[2 * n..] == Encode(a[n], 2) && TraitBytes(b)[2 * n..] == Encode(b[n], 2);
      TraitBytesInjective(a[..n], b[..n]);
      WordSizes();
      EncodeInjective(a[n], b[n], 2);
      assert a == a[..n] + [a[n]] && b == b[..n] + [b[n]];
    }
  }

  lemma TraitsInputInjective(schema: Digest, a: Traits, b: Traits)
    requires TraitsInput(schema, a) == TraitsInput(schema, b)
    ensures a == b
  {
    assert TraitsInput(schema, a)[32..] == TraitBytes(a) && TraitsInput(schema, b)[32..] == TraitBytes(b);
    TraitBytesInjective(a, b);
  }

  lemma ArtInputInjective(a: LeafPreimage, b: LeafPreimage)
    requires ArtInput(a) == ArtInput(b)
    ensures a.salt == b.salt && a.image == b.image && a.json == b.json && a.uri == b.uri
  {
    var x, y := ArtInput(a), ArtInput(b);
    assert x[..32] == a.salt && y[..32] == b.salt;
    assert x[32..64] == a.image && y[32..64] == b.image;
    assert x[64..96] == a.json && y[64..96] == b.json;
    assert x[96..] == a.uri && y[96..] == b.uri;
  }

  lemma LeafInputInjective(launchConfig: Digest, index: u32, t: Digest, a: Digest, t': Digest, a': Digest)
    requires LeafInput(launchConfig, index, t, a) == LeafInput(launchConfig, index, t', a')
    ensures t == t' && a == a'
  {
    var x, y := LeafInput(launchConfig, index, t, a), LeafInput(launchConfig, index, t', a');
    var o := 1 + |LEAF_DOMAIN| + 36;
    assert x[o..o + 32] == t && y[o..o + 32] == t';
    assert x[o + 32..] == a && y[o + 32..] == a';
  }

  /** A leaf string and a node string never coincide: their first bytes differ. */
  lemma LeafIsNoNode(launchConfig: Digest, index: u32, t: Digest, a: Digest, left: Digest, right: Digest)
    ensures LeafInput(launchConfig, index, t, a) != NodeInput(left, right)
  {
    assert LeafInput(launchConfig, index, t, a)[0] == 0 && NodeInput(left, right)[0] == 1;
  }

  /** Equal leaf hashes at one index come from equal preimages, or exhibit a collision. */
  lemma LeafHashBinds(sha: Hash, schema: Digest, launchConfig: Digest, index: u32, a: LeafPreimage, b: LeafPreimage)
    requires LeafHash(sha, schema, launchConfig, index, a) == LeafHash(sha, schema, launchConfig, index, b)
    ensures a == b
            || Collides(sha, LeafInputs(sha, schema, launchConfig, index, a),
                        LeafInputs(sha, schema, launchConfig, index, b))
  {
    var ta, tb := TraitsInput(schema, a.traits), TraitsInput(schema, b.traits);
    var ra, rb := ArtInput(a), ArtInput(b);
    var xs, ys := LeafInputs(sha, schema, launchConfig, index, a), LeafInputs(sha, schema, launchConfig, index, b);
    var la, lb := LeafInput(launchConfig, index, sha(ta), sha(ra)), LeafInput(launchConfig, index, sha(tb), sha(rb));
    if la != lb {
      CollidesIn(sha, la, lb, xs, ys);
    } else {
      LeafInputInjective(launchConfig, index, sha(ta), sha(ra), sha(tb), sha(rb));
      if ta != tb {
        CollidesIn(sha, ta, tb, xs, ys);
      } else if ra != rb {
        CollidesIn(sha, ra, rb, xs, ys);
      } else {
        TraitsInputInjective(schema, a.traits, b.traits);
        ArtInputInjective(a, b);
      }
    }
  }

  // ----- the mint-time check

  predicate HasPrefix(uri: Bytes, prefix: Bytes) {
    |prefix| < |uri| && uri[..|prefix|] == prefix
  }

  predicate IsContentAddressed(uri: Bytes) {
    HasPrefix(uri, Selection.Ascii("ipfs://")) || HasPrefix(uri, Selection.Ascii("ar://"))
  }

  function CheckLeaf(sha: Hash, c: Commitment, index: u32, leaf: LeafPreimage, proof: seq<Digest>): Status {
    var _ :- Need(index < c.size, IndexOutOfRange);
    var _ :- Need(|leaf.uri| <= MAX_URI_LEN, MetadataTooLong);
    var _ :- Need(IsContentAddressed(leaf.uri), UriNotContentAddressed);
    var _ :- Need(|proof| <= MAX_MERKLE_DEPTH, InvalidMerkleProof);
    Need(Verifies(sha, LeafHash(sha, c.schema, c.launchConfig, index, leaf), index, c.size, proof, c.root),
         InvalidMerkleProof)
  }

  /** The check as it runs: hash the preimage, then walk the proof. */
  method CheckLeafProof(sha: Hash, c: Commitment, index: u32, leaf: LeafPreimage, proof: seq<Digest>)
    returns (r: Status)
    ensures r == CheckLeaf(sha, c, index, leaf, proof)
  {
    var _ :- Need(index < c.size, IndexOutOfRange);
    var _ :- Need(|leaf.uri| <= MAX_URI_LEN, MetadataTooLong);
    var _ :- Need(IsContentAddressed(leaf.uri), UriNotContentAddressed);
    var _ :- Need(|proof| <= MAX_MERKLE_DEPTH, InvalidMerkleProof);
    var t := TraitsHash(sha, c.schema, leaf.traits);
    var art := sha(ArtInput(leaf));
    var h := sha(LeafInput(c.launchConfig, index, t, art));
    var ok := Verify(sha, h, index, c.size, proof, c.root);
    r := Need(ok, InvalidMerkleProof);
  }

  /** The leaf hashes of a whole collection. */
  function LeafHashes(sha: Hash, c: Commitment, art: seq<LeafPreimage>): (leaves: seq<Digest>)
    requires |art| <= U32_MAX
    ensures |leaves| == |art|
  {
    seq(|art|, i requires 0 <= i < |art| => LeafHash(sha, c.schema, c.launchConfig, i, art[i]))
  }

  /** `c` is what a creator commits to for the collection `art`. */
  ghost predicate Commits(sha: Hash, c: Commitment, art: seq<LeafPreimage>) {
    0 < |art| <= U32_MAX && c.size == |art| && c.root == Root(sha, LeafHashes(sha, c, art))
  }

  /** Every byte string hashed while the commitment was made. */
  ghost function CommitInputs(sha: Hash, c: Commitment, art: seq<LeafPreimage>): set<Bytes>
    requires Commits(sha, c, art)
  {
    TreeInputs(sha, LeafHashes(sha, c, art))
    + set i, x | 0 <= i < |art| && x in LeafInputs(sha, c.schema, c.launchConfig, i, art[i]) :: x
  }

  /** Every byte string hashed while a leaf is checked. */
  ghost function CheckInputs(sha: Hash, c: Commitment, index: u32, leaf: LeafPreimage, proof: seq<Digest>): set<Bytes> {
    LeafInputs(sha, c.schema, c.launchConfig, index, leaf)
    + PathInputs(sha, LeafHash(sha, c.schema, c.launchConfig, index, leaf), index, proof)
  }

  /** Only the committed art can be minted at an index: anything else accepted there exhibits a hash collision. */
  lemma LeafBinding(sha: Hash, c: Commitment, art: seq<LeafPreimage>, index: u32, leaf: LeafPreimage,
                    proof: seq<Digest>)
    requires Commits(sha, c, art) && CheckLeaf(sha, c, index, leaf, proof).Ok?
    ensures index < |art|
    ensures (leaf == art[index] && proof == ProofOf(sha, LeafHashes(sha, c, art), index))
            || Collides(sha, CheckInputs(sha, c, index, leaf, proof), CommitInputs(sha, c, art))
  {
    hide Root, ProofOf, TreeInputs, PathInputs, LeafInputs, LeafHash, IsContentAddressed, Depth, Fold, Collides;
    var leaves := LeafHashes(sha, c, art);
    var h := LeafHash(sha, c.schema, c.launchConfig, index, leaf);
    var xs, ys := CheckInputs(sha, c, index, leaf, proof), CommitInputs(sha, c, art);
    Sound(sha, leaves, h, index, proof);
    if h == leaves[index] && proof == ProofOf(sha, leaves, index) {
      LeafHashBinds(sha, c.schema, c.launchConfig, index, leaf, art[index]);
      if leaf != art[index] {
        CollidesMonotone(sha, LeafInputs(sha, c.schema, c.launchConfig, index, leaf),
                         LeafInputs(sha, c.schema, c.launchConfig, index, art[index]), xs, ys);
      }
    } else {
      CollidesMonotone(sha, PathInputs(sha, h, index, proof), TreeInputs(sha, leaves), xs, ys);
    }
  }

  /**
   The committed art, with the built proof, is accepted exactly when its URI is acceptable and the tree is not too deep.
   */
  lemma CommittedLeafAccepted(sha: Hash, c: Commitment, art: seq<LeafPreimage>, index: u32)
    requires Commits(sha, c, art) && index < |art|
    ensures var proof := ProofOf(sha, LeafHashes(sha, c, art), index);
            CheckLeaf(sha, c, index, art[index], proof).Ok?
            <==> |art[index].uri| <= MAX_URI_LEN && IsContentAddressed(art[index].uri) && |art| <= 131_072
  {
    hide Root, ProofOf, LeafHash, IsContentAddressed, Depth, Fold;
    Complete(sha, LeafHashes(sha, c, art), index);
    DepthIsLeast(|art|);
    assert Pow2(8) == 256 && Pow2(16) == 65_536 && Pow2(17) == 131_072 by {
      assert Pow2(4) == 16;
      assert Pow2(12) == 4096;
    }
    Pow2Monotone(Depth(|art|), 17);
    Pow2Monotone(17, Depth(|art|));
  }

  // ----- the same check, in literal bytes

  /** The eight trait values, two bytes each, least significant first. */
  function EightTraits(t: Traits): Bytes {
    TwoBytes(t[0]) + TwoBytes(t[1]) + TwoBytes(t[2]) + TwoBytes(t[3])
    + TwoBytes(t[4]) + TwoBytes(t[5]) + TwoBytes(t[6]) + TwoBytes(t[7])
  }

  /** The leaf hash as the commitment format defines it. */
  function WrittenLeaf(sha: Hash, schema: Digest, launchConfig: Digest, index: u32, leaf: LeafPreimage): Digest {
    sha([0] + Selection.Ascii("mintmark-leaf-v2") + launchConfig + FourBytes(index)
        + sha(schema + EightTraits(leaf.traits)) + sha(leaf.salt + leaf.image + leaf.json + leaf.uri))
  }

  lemma {:induction false} TraitBytesOf(traits: seq<u16>, n: nat)
    requires n <= |traits|
    ensures n == 0 ==> TraitBytes(traits[..n]) == []
    ensures n > 0 ==> TraitBytes(traits[..n]) == TraitBytes(traits[..n - 1]) + TwoBytes(traits[n - 1])
  {
    if n > 0 {
      assert traits[..n][..n - 1] == traits[..n - 1];
      EncodedBytes(traits[n - 1]);
    }
  }

  lemma TraitBytesAreEight(t: Traits)
    ensures TraitBytes(t) == EightTraits(t)
  {
    TraitBytesOf(t, 0);
    TraitBytesOf(t, 1);
    TraitBytesOf(t, 2);
    TraitBytesOf(t, 3);
    TraitBytesOf(t, 4);
    TraitBytesOf(t, 5);
    TraitBytesOf(t, 6);
    TraitBytesOf(t, 7);
    TraitBytesOf(t, 8);
    assert t[..8] == t;
  }

  lemma LeafHashIsWritten(sha: Hash, schema: Digest, launchConfig: Digest, index: u32, leaf: LeafPreimage)
    ensures LeafHash(sha, schema, launchConfig, index, leaf) == WrittenLeaf(sha, schema, launchConfig, index, leaf)
  {
    hide TraitBytes, EightTraits, Encode;
    TraitBytesAreEight(leaf.traits);
    EncodedBytes(index);
  }

  /** A URI is acceptable when it starts with `ipfs://` or `ar://` and does not end there. */
  lemma UriRule(uri: Bytes)
    ensures IsContentAddressed(uri)
            <==> || (|uri| >= 8 && uri[..7] == [0x69, 0x70, 0x66, 0x73, 0x3a, 0x2f, 0x2f])
                 || (|uri| >= 6 && uri[..5] == [0x61, 0x72, 0x3a, 0x2f, 0x2f])
  {
    var ipfs, ar := Selection.Ascii("ipfs://"), Selection.Ascii("ar://");
    assert ipfs == [0x69, 0x70, 0x66, 0x73, 0x3a, 0x2f, 0x2f] && ar == [0x61, 0x72, 0x3a, 0x2f, 0x2f];
  }

  /** What the check refuses, in which order, and what it accepts: a walk from the written leaf to the root. */
  lemma CheckLeafExactly(sha: Hash, c: Commitment, index: u32, leaf: LeafPreimage, proof: seq<Digest>)
    ensures CheckLeaf(sha, c, index, leaf, proof)
            == if index >= c.size then Err(IndexOutOfRange)
               else if |leaf.uri| > 200 then Err(MetadataTooLong)
               else if !IsContentAddressed(leaf.uri) then Err(UriNotContentAddressed)
               else if && |proof| <= 17 && c.size <= Pow2(|proof|) && (proof != [] ==> Pow2(|proof| - 1) < c.size)
                       && LeadsTo(sha, WrittenLeaf(sha, c.schema, c.launchConfig, index, leaf), index, proof, c.root)
                 then Ok(())
               else Err(InvalidMerkleProof)
  {
    hide LeafHash, WrittenLeaf, Verifies, IsContentAddressed, LeadsTo;
    LeafHashIsWritten(sha, c.schema, c.launchConfig, index, leaf);
    VerifiesExactly(sha, LeafHash(sha, c.schema, c.launchConfig, index, leaf), index, c.size, proof, c.root);
  }
}
