/**
  The gateway's encryption pipeline: which modes it seals, the identity bytes it
  binds into every chunk, and the seal/open pair keyed on the recorded AAD
  version.  The AEAD, the key wrap and the digest are parameters with their laws.
 */
module Sealing {
  import opened Wrappers
  import opened ErasureCoding
  import opened ErasureRead

  type Key = Bytes
  type Wrapped = Bytes

  /** What a v1 ciphertext is bound to. */
  datatype Identity = Identity(tenant: Bytes, bucket: Bytes, keyHash: Bytes, version: PieceID)

  const PIPE: Byte := 124

  function ChunkAAD(id: Identity): Bytes {
    id.tenant + [PIPE] + id.bucket + [PIPE] + id.keyHash + [PIPE] + id.version.name
  }

  /** Key hashes and version IDs are hex SHA-256 digests. */
  const HEX_DIGEST := 64

  predicate Minted(id: Identity) { |id.keyHash| == HEX_DIGEST && |id.version.name| == HEX_DIGEST }

  /** What the identity bytes tell apart: key hash, version, and tenant and bucket run together. */
  predicate SameBinding(a: Identity, b: Identity) {
    && a.keyHash == b.keyHash && a.version == b.version
    && a.tenant + [PIPE] + a.bucket == b.tenant + [PIPE] + b.bucket
  }

  lemma SplitAtEnd(a: Bytes, x: Bytes, b: Bytes, y: Bytes)
    requires |x| == |y| && a + [PIPE] + x == b + [PIPE] + y
    ensures a == b && x == y
  {
    var s, t := a + [PIPE] + x, b + [PIPE] + y;
    assert |a| == |b|;
    assert s[..|a|] == a && t[..|b|] == b && s[|a| + 1..] == x && t[|b| + 1..] == y;
  }

  lemma SplitAtPipe(a: Bytes, x: Bytes, b: Bytes, y: Bytes)
    requires PIPE !in a && PIPE !in b && a + [PIPE] + x == b + [PIPE] + y
    ensures a == b && x == y
  {
    var s, t := a + [PIPE] + x, b + [PIPE] + y;
    assert s[|a|] == PIPE && t[|b|] == PIPE;
    assert forall i :: 0 <= i < |a| ==> s[i] == a[i] && a[i] in a;
    assert forall i :: 0 <= i < |b| ==> t[i] == b[i] && b[i] in b;
    assert |a| == |b|;
    assert s[..|a|] == a && t[..|b|] == b && s[|a| + 1..] == x && t[|b| + 1..] == y;
  }

  /** Two identities share their bytes exactly when key hash, version and tenant|bucket agree. */
  lemma ChunkAADEqualIff(a: Identity, b: Identity)
    requires Minted(a) && Minted(b)
    ensures ChunkAAD(a) == ChunkAAD(b) <==> SameBinding(a, b)
  {
    if ChunkAAD(a) == ChunkAAD(b) {
      SplitAtEnd(a.tenant + [PIPE] + a.bucket + [PIPE] + a.keyHash, a.version.name,
                 b.tenant + [PIPE] + b.bucket + [PIPE] + b.keyHash, b.version.name);
      SplitAtEnd(a.tenant + [PIPE] + a.bucket, a.keyHash, b.tenant + [PIPE] + b.bucket, b.keyHash);
    }
  }

  /** With pipe-free tenants, whatever the buckets, the identity bytes are unambiguous. */
  lemma ChunkAADInjective(a: Identity, b: Identity)
    requires Minted(a) && Minted(b) && PIPE !in a.tenant && PIPE !in b.tenant
    ensures ChunkAAD(a) == ChunkAAD(b) <==> a == b
  {
    ChunkAADEqualIff(a, b);
    if ChunkAAD(a) == ChunkAAD(b) { SplitAtPipe(a.tenant, a.bucket, b.tenant, b.bucket); }
  }

  /**
    Tenant "1|2" with bucket "3" and tenant "1" with bucket "2|3" share their bytes for
    every key and version.  This is about the encoding only: newPieceID hashes tenant and
    bucket into the version, so two such objects with one version need a digest collision.
   */
  lemma PipesCollide(keyHash: Bytes, version: PieceID)
    ensures var a := Identity([49, PIPE, 50], [51], keyHash, version);
            var b := Identity([49], [50, PIPE, 51], keyHash, version);
            a != b && ChunkAAD(a) == ChunkAAD(b)
  {
    var a := Identity([49, PIPE, 50], [51], keyHash, version);
    var b := Identity([49], [50, PIPE, 51], keyHash, version);
    assert |a.tenant| != |b.tenant|;
    assert a.tenant + [PIPE] + a.bucket == [49, PIPE, 50, PIPE, 51] == b.tenant + [PIPE] + b.bucket;
  }

  // ---------------------------------------------------------------- the suite

  /** AEAD, key wrap and digest, with the randomness they draw as an argument. */
  datatype Suite = Suite(
    seal: (Key, Option<Bytes>, nat, Bytes) -> Bytes,
    open: (Key, Option<Bytes>, Bytes) -> Option<Bytes>,
    wrap: Key -> Wrapped,
    unwrap: Wrapped -> Option<Key>,
    hash: Bytes -> Hash)

  ghost predicate Opens(x: Suite) {
    forall k: Key, a, n: nat, p :: x.open(k, a, x.seal(k, a, n, p)) == Some(p)
  }

  ghost predicate Binds(x: Suite) {
    forall k: Key, a, n: nat, p, k': Key, a' :: (k', a') != (k, a) ==> x.open(k', a', x.seal(k, a, n, p)) == None
  }

  ghost predicate Wraps(x: Suite) {
    forall k: Key :: x.unwrap(x.wrap(k)) == Some(k)
  }

  ghost predicate Lawful(x: Suite) {
    Opens(x) && Binds(x) && Wraps(x) && CollisionFree(x.hash)
  }

  // ---------------------------------------------------------------- the pipeline

  datatype Mode = Plain | Managed | PublicDistribution | ClientSide

  predicate IsGatewayEncrypted(mode: Mode) { mode == Managed || mode == PublicDistribution }

  datatype AADVersion = Legacy | V1

  datatype Encryption = Encryption(mode: Mode, wrapped: Wrapped, aad: AADVersion)

  const NoEncryption := Encryption(Plain, [], Legacy)

  /** The AAD both directions use: the identity for v1, none for legacy and convergent objects. */
  function ChunkOption(enc: Encryption, id: Identity): Option<Bytes> {
    if enc.aad == V1 then Some(ChunkAAD(id)) else None
  }

  /** Fresh key material for one seal. */
  datatype Draw = Draw(dek: Key, nonce: nat)

  /** encryptForStorage: always v1. */
  function SealForStorage(x: Suite, mode: Mode, id: Identity, plaintext: Bytes, draw: Draw): (Bytes, Encryption) {
    var enc := Encryption(mode, x.wrap(draw.dek), V1);
    (x.seal(draw.dek, ChunkOption(enc, id), draw.nonce, plaintext), enc)
  }

  /** decryptFromStorage. */
  function OpenFromStorage(x: Suite, enc: Encryption, id: Identity, ciphertext: Bytes): Option<Bytes> {
    match x.unwrap(enc.wrapped)
    case None => None
    case Some(dek) => x.open(dek, ChunkOption(enc, id), ciphertext)
  }

  /** What the read path makes of stored bytes: gateway modes are opened, the rest is served as stored. */
  function Unsealed(x: Suite, enc: Encryption, id: Identity, bytes: Bytes): Option<Bytes> {
    if IsGatewayEncrypted(enc.mode) then OpenFromStorage(x, enc, id, bytes) else Some(bytes)
  }

  /** Sealed bytes open under the identity they were sealed for ... */
  lemma SealRoundTrip(x: Suite, mode: Mode, id: Identity, plaintext: Bytes, draw: Draw)
    requires Lawful(x)
    ensures var (sealed, enc) := SealForStorage(x, mode, id, plaintext, draw);
            OpenFromStorage(x, enc, id, sealed) == Some(plaintext)
  {
    var enc := SealForStorage(x, mode, id, plaintext, draw).1;
    assert x.unwrap(x.wrap(draw.dek)) == Some(draw.dek);
    assert x.open(draw.dek, ChunkOption(enc, id), x.seal(draw.dek, ChunkOption(enc, id), draw.nonce, plaintext))
        == Some(plaintext);
  }

  /** ... and under no identity with other bytes, which is why a v1 object cannot be copied verbatim. */
  lemma SealBindsIdentity(x: Suite, mode: Mode, id: Identity, other: Identity, plaintext: Bytes, draw: Draw)
    requires Lawful(x) && Minted(id) && Minted(other)
    ensures var (sealed, enc) := SealForStorage(x, mode, id, plaintext, draw);
            OpenFromStorage(x, enc, other, sealed) == if SameBinding(id, other) then Some(plaintext) else None
  {
    var enc := SealForStorage(x, mode, id, plaintext, draw).1;
    SealRoundTrip(x, mode, id, plaintext, draw);
    ChunkAADEqualIff(id, other);
    assert x.unwrap(x.wrap(draw.dek)) == Some(draw.dek);
    if !SameBinding(id, other) {
      assert (draw.dek, ChunkOption(enc, other)) != (draw.dek, ChunkOption(enc, id));
      assert x.open(draw.dek, ChunkOption(enc, other), x.seal(draw.dek, ChunkOption(enc, id), draw.nonce, plaintext))
          == None;
    }
  }

  // ---------------------------------------------------------------- the laws are satisfiable

  /** A self-delimiting rendering of a byte string. */
  function Frame(b: Bytes): Bytes { Zeros(|b|) + [1] + b }

  lemma FrameIsPrefixFree(b: Bytes, x: Bytes, b': Bytes, y: Bytes)
    requires Frame(b) + x == Frame(b') + y
    ensures b == b' && x == y
  {
    var s, t, n, n' := Frame(b) + x, Frame(b') + y, |b|, |b'|;
    assert s[n] == 1 && forall i :: 0 <= i < n ==> s[i] == 0;
    assert t[n'] == 1 && forall i :: 0 <= i < n' ==> t[i] == 0;
    assert n == n';
    assert s[n + 1..2 * n + 1] == b && t[n + 1..2 * n + 1] == b' && s[2 * n + 1..] == x && t[2 * n + 1..] == y;
  }

  function Binding(a: Option<Bytes>): Bytes { match a case None => [0] case Some(b) => [1] + Frame(b) }

  /** Key and AAD, put in front of the plaintext. */
  function Tag(k: Key, a: Option<Bytes>): Bytes { Frame(k) + Binding(a) }

  function TransparentSuite(): Suite {
    Suite((k, a, n, p) => Tag(k, a) + p,
          (k, a, c) => if Tag(k, a) <= c then Some(c[|Tag(k, a)|..]) else None,
          k => k, w => Some(w), b => b)
  }

  lemma Regroup(x: Bytes, y: Bytes, z: Bytes)
    ensures x + y + z == x + (y + z)
  {}

  lemma Cancel(x: Bytes, y: Bytes, z: Bytes)
    requires x + y == x + z
    ensures y == z
  {
    assert (x + y)[|x|..] == y && (x + z)[|x|..] == z;
  }

  lemma PrefixSplits(x: Bytes, s: Bytes)
    requires x <= s
    ensures s == x + s[|x|..]
  {}

  lemma BindingIsPrefixFree(a: Option<Bytes>, p: Bytes, a': Option<Bytes>, p': Bytes)
    requires Binding(a) + p == Binding(a') + p'
    ensures a == a'
  {
    assert (Binding(a) + p)[0] == (Binding(a') + p')[0];
    if a.Some? && a'.Some? {
      Regroup([1], Frame(a.value), p);
      Regroup([1], Frame(a'.value), p');
      Cancel([1], Frame(a.value) + p, Frame(a'.value) + p');
      FrameIsPrefixFree(a.value, p, a'.value, p');
    }
  }

  lemma TagsDiffer(k: Key, a: Option<Bytes>, k': Key, a': Option<Bytes>, p: Bytes)
    requires Tag(k', a') <= Tag(k, a) + p
    ensures (k', a') == (k, a)
  {
    var p' := (Tag(k, a) + p)[|Tag(k', a')|..];
    PrefixSplits(Tag(k', a'), Tag(k, a) + p);
    Regroup(Frame(k), Binding(a), p);
    Regroup(Frame(k'), Binding(a'), p');
    FrameIsPrefixFree(k, Binding(a) + p, k', Binding(a') + p');
    BindingIsPrefixFree(a, p, a', p');
  }

  lemma TransparentIsLawful()
    ensures Lawful(TransparentSuite())
  {
    var x := TransparentSuite();
    forall k: Key, a, n: nat, p, k': Key, a' | (k', a') != (k, a)
      ensures x.open(k', a', x.seal(k, a, n, p)) == None
    {
      if Tag(k', a') <= Tag(k, a) + p { TagsDiffer(k, a, k', a', p); }
    }
  }
}
