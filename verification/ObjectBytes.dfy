/**
  What a GET returns: the bytes behind a manifest, for every stored shape
  (single piece, erasure coded, multipart) and every encryption envelope.
 */
module ObjectBytes {
  import opened Wrappers
  import opened ErasureCoding
  import opened ErasureRead
  import opened Sealing

  datatype Layout =
    | Single(piece: Piece)
    | Erasure(profile: Profile, shards: seq<Piece>)
    | Multipart(parts: seq<Piece>)

  datatype Manifest = Manifest(id: Identity, enc: Encryption, contentHash: Option<Hash>, layout: Layout, size: nat)

  type Pieces = map<PieceID, Bytes>

  /** The stored versions, each under its full identity. */
  type Manifests = map<Identity, Manifest>

  /** What a request without a version ID asks for. */
  datatype Name = Name(tenant: Bytes, bucket: Bytes, keyHash: Bytes)

  function NameOf(id: Identity): Name { Name(id.tenant, id.bucket, id.keyHash) }

  function Named(name: Name, version: PieceID): Identity {
    Identity(name.tenant, name.bucket, name.keyHash, version)
  }

  /** The current version of each name, which every Manifests.Put moves to the version it writes. */
  type Latest = map<Name, Identity>

  /** The parts of the gateway configuration the byte path depends on. */
  datatype Config = Config(suite: Suite, codec: Codec, multipartLimit: nat, bufferLimit: nat)

  ghost predicate Sound(g: Config) { Sealing.Lawful(g.suite) }

  function IDs(m: Manifest): set<PieceID> {
    match m.layout
    case Single(piece) => {piece.id}
    case Erasure(_, shards) => set piece | piece in shards :: piece.id
    case Multipart(parts) => set piece | piece in parts :: piece.id
  }

  /** One piece, checked against its claim. */
  function Checked(g: Config, stored: Pieces, piece: Piece): Option<Bytes> {
    if piece.id in stored && !Mismatch(g.suite.hash, stored[piece.id], piece.claim) then Some(stored[piece.id])
    else None
  }

  function AsBackend(stored: Pieces): Backend { map id | id in stored :: Got(stored[id]) }

  /** The parts, each checked and unsealed on its own, laid end to end. */
  function Assembled(g: Config, stored: Pieces, m: Manifest, parts: seq<Piece>): Option<Bytes> {
    if parts == [] then Some([])
    else
      var before := Assembled(g, stored, m, parts[..|parts| - 1]);
      var last := Checked(g, stored, parts[|parts| - 1]);
      if before.None? || last.None? then None
      else
        match Unsealed(g.suite, m.enc, m.id, last.value)
        case None => None
        case Some(part) => Some(before.value + part)
  }

  ghost function Get(g: Config, stored: Pieces, m: Manifest): Option<Bytes> {
    match m.layout
    case Single(piece) =>
      (match Checked(g, stored, piece)
       case None => None
       case Some(bytes) => Unsealed(g.suite, m.enc, m.id, bytes))
    case Erasure(profile, shards) =>
      (match Read(g.codec, profile, g.suite.hash, AsBackend(stored), shards)
       case None => None
       case Some(bytes) => Unsealed(g.suite, m.enc, m.id, bytes))
    case Multipart(parts) =>
      var whole := if m.size > g.multipartLimit then None else Assembled(g, stored, m, parts);
      if whole.Some? && (m.size == 0 || |whole.value| == m.size) then whole else None
  }

  /** A GET without a version ID.  A current version without a manifest here is a delete marker. */
  ghost function GetByName(g: Config, stored: Pieces, manifests: Manifests, latest: Latest, name: Name): Option<Bytes> {
    if name in latest && latest[name] in manifests then Get(g, stored, manifests[latest[name]]) else None
  }

  /** A manifest the gateway writes: only gateway modes carry the v1 binding. */
  predicate WellFormed(m: Manifest) { m.enc.aad == V1 ==> IsGatewayEncrypted(m.enc.mode) }

  // ---------------------------------------------------------------- framing

  ghost predicate Agree(a: Pieces, b: Pieces, ids: set<PieceID>) {
    forall id :: id in ids ==> (id in a <==> id in b) && (id in a ==> a[id] == b[id])
  }

  lemma {:induction false} AssembledFrame(g: Config, a: Pieces, b: Pieces, m: Manifest, parts: seq<Piece>)
    requires forall piece :: piece in parts ==>
      (piece.id in a <==> piece.id in b) && (piece.id in a ==> a[piece.id] == b[piece.id])
    ensures Assembled(g, a, m, parts) == Assembled(g, b, m, parts)
  {
    if parts != [] {
      AssembledFrame(g, a, b, m, parts[..|parts| - 1]);
      assert parts[|parts| - 1] in parts;
    }
  }

  lemma {:induction false} LossesFrame(hash: Bytes -> Hash, a: Backend, b: Backend, pieces: seq<Piece>, s: nat)
    requires forall piece :: piece in pieces ==> FetchPiece(a, piece.id) == FetchPiece(b, piece.id)
    ensures Losses(hash, a, pieces, s) == Losses(hash, b, pieces, s)
  {
    if pieces != [] {
      LossesFrame(hash, a, b, pieces[..|pieces| - 1], s);
      assert pieces[|pieces| - 1] in pieces;
    }
  }

  lemma ReadFrame(c: Codec, p: Profile, hash: Bytes -> Hash, a: Backend, b: Backend, pieces: seq<Piece>)
    requires forall piece :: piece in pieces ==> FetchPiece(a, piece.id) == FetchPiece(b, piece.id)
    ensures Read(c, p, hash, a, pieces) == Read(c, p, hash, b, pieces)
  {
    forall s: nat
      ensures Losses(hash, a, pieces, s) == Losses(hash, b, pieces, s)
    {
      LossesFrame(hash, a, b, pieces, s);
    }
    assert Recoverable(p.m, hash, a, pieces) == Recoverable(p.m, hash, b, pieces);
    assert ShardsFor(hash, a, pieces) == ShardsFor(hash, b, pieces);
  }

  /** A GET depends only on the manifest's own pieces. */
  lemma GetFrame(g: Config, a: Pieces, b: Pieces, m: Manifest)
    requires Agree(a, b, IDs(m))
    ensures Get(g, a, m) == Get(g, b, m)
  {
    match m.layout
    case Single(piece) =>
      assert piece.id in IDs(m);
    case Erasure(profile, shards) =>
      forall piece | piece in shards
        ensures FetchPiece(AsBackend(a), piece.id) == FetchPiece(AsBackend(b), piece.id)
      {
        assert piece.id in IDs(m);
      }
      ReadFrame(g.codec, profile, g.suite.hash, AsBackend(a), AsBackend(b), shards);
    case Multipart(parts) =>
      forall piece | piece in parts
        ensures (piece.id in a <==> piece.id in b) && (piece.id in a ==> a[piece.id] == b[piece.id])
      {
        assert piece.id in IDs(m);
      }
      AssembledFrame(g, a, b, m, parts);
  }

  // ---------------------------------------------------------------- storing one piece

  /** The manifest of a freshly sealed single-piece object. */
  function SealedManifest(g: Config, id: Identity, mode: Mode, plaintext: Bytes, size: nat, newID: PieceID, draw: Draw)
    : (Bytes, Manifest)
  {
    var (sealed, enc) := SealForStorage(g.suite, mode, id, plaintext, draw);
    (sealed, Manifest(id, enc, None, Single(Piece(newID, Digest(g.suite.hash(sealed)), 0, 0)), size))
  }

  /** Whatever is sealed and stored is read back. */
  lemma SealedIsRead(g: Config, stored: Pieces, id: Identity, mode: Mode, plaintext: Bytes, size: nat, newID: PieceID,
                     draw: Draw)
    requires Sound(g) && (mode == Managed || mode == PublicDistribution)
    ensures var (sealed, m) := SealedManifest(g, id, mode, plaintext, size, newID, draw);
            Get(g, stored[newID := sealed], m) == Some(plaintext) && WellFormed(m)
  {
    SealRoundTrip(g.suite, mode, id, plaintext, draw);
  }

  // ---------------------------------------------------------------- what a GET returns for each shape

  /** The piece is stored as claimed and opens to `content`. */
  predicate Holds(g: Config, stored: Pieces, m: Manifest, piece: Piece, content: Bytes) {
    && piece.id in stored && !Mismatch(g.suite.hash, stored[piece.id], piece.claim)
    && (if m.enc.mode == Managed || m.enc.mode == PublicDistribution
        then OpenFromStorage(g.suite, m.enc, m.id, stored[piece.id]) == Some(content) else stored[piece.id] == content)
  }

  /** A single piece is read exactly as what it holds. */
  lemma SingleReadIff(g: Config, stored: Pieces, m: Manifest, content: Bytes)
    requires m.layout.Single?
    ensures Get(g, stored, m) == Some(content) <==> Holds(g, stored, m, m.layout.piece, content)
  {}

  lemma {:induction false} PartsRead(g: Config, stored: Pieces, m: Manifest, parts: seq<Piece>, contents: seq<Bytes>)
    requires |contents| == |parts| && forall i :: 0 <= i < |parts| ==> Holds(g, stored, m, parts[i], contents[i])
    ensures Assembled(g, stored, m, parts) == Some(Flatten(contents))
  {
    if parts != [] {
      var n := |parts| - 1;
      PartsRead(g, stored, m, parts[..n], contents[..n]);
    }
  }

  /** A multipart object is its parts' contents, in order, if its size is within the limit and agrees. */
  lemma MultipartReads(g: Config, stored: Pieces, m: Manifest, contents: seq<Bytes>)
    requires m.layout.Multipart? && |contents| == |m.layout.parts|
    requires forall i :: 0 <= i < |contents| ==> Holds(g, stored, m, m.layout.parts[i], contents[i])
    ensures Get(g, stored, m)
         == if m.size <= g.multipartLimit && (m.size == 0 || |Flatten(contents)| == m.size)
            then Some(Flatten(contents)) else None
  {
    PartsRead(g, stored, m, m.layout.parts, contents);
  }

  /** It fails when a part is missing, corrupted or does not open. */
  lemma {:induction false} LostPartFails(g: Config, stored: Pieces, m: Manifest, parts: seq<Piece>, i: nat)
    requires i < |parts| && forall content :: !Holds(g, stored, m, parts[i], content)
    ensures Assembled(g, stored, m, parts) == None
  {
    var n := |parts| - 1;
    if i < n {
      LostPartFails(g, stored, m, parts[..n], i);
    } else {
      var last := Checked(g, stored, parts[n]);
      if last.Some? && Unsealed(g.suite, m.enc, m.id, last.value).Some? {
        assert Holds(g, stored, m, parts[n], Unsealed(g.suite, m.enc, m.id, last.value).value);
      }
    }
  }
}
