/**
  Server-side COPY: the route Copy picks for a source manifest, what each route
  stores, and the proof that the destination reads back as the source did.
 */
module CopyObject {
  import opened Wrappers
  import opened ErasureCoding
  import opened ErasureRead
  import opened Sealing
  import opened ObjectBytes

  /**
    Everything a copy request meets besides the source: the destination, the
    minted piece ID and key material, the destination bucket's effective mode
    (None when it cannot be resolved), whether a keyring is configured, whether
    the content index bumped the source's row, whether the backend copies pieces
    itself, and whether the backend write succeeds.
   */
  datatype Request = Request(dst: Name, newID: PieceID, draw: Draw, dstMode: Option<Mode>, keyring: bool,
                             bumped: bool, serverSide: bool, putOk: bool)

  datatype Route = Rebuild | Reencrypt | Refuse | EncryptDefault | Share | Duplicate

  function RouteOf(m: Manifest, q: Request): Route {
    if !m.layout.Single? then Rebuild
    else if m.enc.aad == V1 then Reencrypt
    else if m.enc.mode == Plain && q.dstMode.None? then Refuse
    else if m.enc.mode == Plain && IsGatewayEncrypted(q.dstMode.value) then EncryptDefault
    else if m.contentHash.Some? && q.bumped then Share
    else Duplicate
  }

  type Outcome = Option<(Pieces, Manifest)>

  /** Encrypt under the destination identity and store as one piece. */
  function StoreReencrypted(g: Config, q: Request, stored: Pieces, m: Manifest, plaintext: Bytes, mode: Mode): Outcome {
    var (sealed, made) := SealedManifest(g, Named(q.dst, q.newID), mode, plaintext, m.size, q.newID, q.draw);
    if q.keyring && q.putOk then Some((stored[q.newID := sealed], made)) else None
  }

  /** Store the bytes as they are, as one piece. */
  function StoreVerbatim(g: Config, q: Request, stored: Pieces, m: Manifest, content: Bytes, enc: Encryption,
                         claim: Claim): Outcome
  {
    var made := Manifest(Named(q.dst, q.newID), enc, None, Single(Piece(q.newID, claim, 0, 0)), m.size);
    if q.putOk then Some((stored[q.newID := content], made)) else None
  }

  /** Where the reconstructed bytes of an erasure-coded or multipart source go. */
  function StoreRebuilt(g: Config, q: Request, stored: Pieces, m: Manifest, content: Bytes): Outcome {
    if IsGatewayEncrypted(m.enc.mode) then StoreReencrypted(g, q, stored, m, content, m.enc.mode)
    else if m.enc.mode == Plain then
      match q.dstMode
      case None => None
      case Some(mode) =>
        if IsGatewayEncrypted(mode) then StoreReencrypted(g, q, stored, m, content, mode)
        else StoreVerbatim(g, q, stored, m, content, NoEncryption, Digest(g.suite.hash(content)))
    else StoreVerbatim(g, q, stored, m, content, m.enc, Digest(g.suite.hash(content)))
  }

  /** The single-piece routes; the source piece is read without checking its claim. */
  function CopySingle(g: Config, q: Request, stored: Pieces, m: Manifest): Outcome
    requires m.layout.Single?
  {
    var piece := m.layout.piece;
    var bytes := if piece.id in stored then stored[piece.id] else [];
    var buffered := piece.id in stored && m.size <= g.bufferLimit && |bytes| <= g.bufferLimit;
    match RouteOf(m, q)
    case Reencrypt =>
      (match OpenFromStorage(g.suite, m.enc, m.id, bytes)
       case None => None
       case Some(plaintext) =>
         if buffered then StoreReencrypted(g, q, stored, m, plaintext, m.enc.mode) else None)
    case EncryptDefault =>
      if buffered then StoreReencrypted(g, q, stored, m, bytes, q.dstMode.value) else None
    case Share =>
      Some((stored, Manifest(Named(q.dst, piece.id), m.enc, m.contentHash, Single(piece), m.size)))
    case Refuse => None
    case _ =>
      if piece.id !in stored then None
      else StoreVerbatim(g, q, stored, m, bytes, m.enc,
                         if q.serverSide then piece.claim else Digest(g.suite.hash(bytes)))
  }

  /** A copy up to, but not including, the manifest write. */
  ghost function CopyWrite(g: Config, q: Request, stored: Pieces, m: Manifest): Outcome {
    if m.layout.Single? then CopySingle(g, q, stored, m)
    else
      match Get(g, stored, m)
      case None => None
      case Some(content) => StoreRebuilt(g, q, stored, m, content)
  }

  // ---------------------------------------------------------------- meaning is preserved

  lemma StoreReencryptedReads(g: Config, q: Request, stored: Pieces, m: Manifest, plaintext: Bytes, mode: Mode)
    requires Sound(g) && IsGatewayEncrypted(mode)
    ensures var r := StoreReencrypted(g, q, stored, m, plaintext, mode);
            r.Some? ==> Get(g, r.value.0, r.value.1) == Some(plaintext) && WellFormed(r.value.1)
  {
    SealedIsRead(g, stored, Named(q.dst, q.newID), mode, plaintext, m.size, q.newID, q.draw);
  }

  lemma RebuiltReads(g: Config, q: Request, stored: Pieces, m: Manifest, content: Bytes)
    requires Sound(g) && WellFormed(m)
    ensures var r := StoreRebuilt(g, q, stored, m, content);
            r.Some? ==> Get(g, r.value.0, r.value.1) == Some(content) && WellFormed(r.value.1)
  {
    if IsGatewayEncrypted(m.enc.mode) {
      StoreReencryptedReads(g, q, stored, m, content, m.enc.mode);
    } else if m.enc.mode == Plain && q.dstMode.Some? && IsGatewayEncrypted(q.dstMode.value) {
      StoreReencryptedReads(g, q, stored, m, content, q.dstMode.value);
    }
  }

  lemma SingleReads(g: Config, q: Request, stored: Pieces, m: Manifest, content: Bytes)
    requires Sound(g) && WellFormed(m) && m.layout.Single? && Get(g, stored, m) == Some(content)
    ensures var r := CopySingle(g, q, stored, m);
            r.Some? ==> Get(g, r.value.0, r.value.1) == Some(content) && WellFormed(r.value.1)
  {
    match RouteOf(m, q)
    case Reencrypt =>
      StoreReencryptedReads(g, q, stored, m, content, m.enc.mode);
    case EncryptDefault =>
      StoreReencryptedReads(g, q, stored, m, content, q.dstMode.value);
    case _ =>
  }

  /** Every route of a copy, from every shape of source: the destination reads exactly as the source. */
  lemma CopyPreservesBytes(g: Config, q: Request, stored: Pieces, m: Manifest, content: Bytes)
    requires Sound(g) && WellFormed(m) && Get(g, stored, m) == Some(content)
    ensures var r := CopyWrite(g, q, stored, m);
            r.Some? ==> Get(g, r.value.0, r.value.1) == Some(content) && WellFormed(r.value.1)
  {
    if m.layout.Single? {
      SingleReads(g, q, stored, m, content);
    } else {
      RebuiltReads(g, q, stored, m, content);
    }
  }

  // ---------------------------------------------------------------- what the copy is

  /** A plaintext source goes to a bucket whose objects are sealed by default. */
  predicate Promotes(m: Manifest, q: Request) {
    m.enc.mode == Plain && (q.dstMode == Some(Managed) || q.dstMode == Some(PublicDistribution))
  }

  /** The copy is sealed under its own identity: a promoted one, and one that is bound to the source's or rebuilt. */
  predicate SealsAnew(m: Manifest, q: Request) {
    || Promotes(m, q)
    || ((m.enc.mode == Managed || m.enc.mode == PublicDistribution) && (m.enc.aad == V1 || !m.layout.Single?))
  }

  /** The copy names the source's piece: a deduplicated one, counted by the index, that can stay as it is. */
  predicate Shares(m: Manifest, q: Request) {
    && m.layout.Single? && m.enc.aad == Legacy && m.contentHash.Some? && q.bumped
    && (m.enc.mode == Plain ==> q.dstMode.Some? && !Promotes(m, q))
  }

  /**
    The encryption of a copy.  A plaintext source takes the destination's mode when that
    is one the gateway seals; every other source keeps its own.  What is sealed anew has
    a new key and the v1 binding; the rest keeps its binding.
   */
  lemma CopyEncryption(g: Config, q: Request, stored: Pieces, m: Manifest)
    requires WellFormed(m) && CopyWrite(g, q, stored, m).Some?
    ensures var made := CopyWrite(g, q, stored, m).value.1;
            && (m.enc.mode == Plain && q.dstMode == Some(Managed) ==> made.enc.mode == Managed && made.enc.aad == V1)
            && (m.enc.mode == Plain && q.dstMode == Some(PublicDistribution) ==>
                  made.enc.mode == PublicDistribution && made.enc.aad == V1)
            && (m.enc.mode != Plain || q.dstMode == Some(Plain) || q.dstMode == Some(ClientSide) ==>
                  made.enc.mode == m.enc.mode)
            && (SealsAnew(m, q) ==> made.enc.aad == V1 && made.enc.wrapped == g.suite.wrap(q.draw.dek))
            && (!SealsAnew(m, q) ==> made.enc.aad == m.enc.aad && (m.layout.Single? ==> made.enc == m.enc))
            && made.size == m.size && NameOf(made.id) == q.dst
  {}

  /** The bytes a copy stores: sealed for its own identity under its own key, or as the source's. */
  lemma CopyStores(g: Config, q: Request, stored: Pieces, m: Manifest, content: Bytes)
    requires Sound(g) && WellFormed(m) && Get(g, stored, m) == Some(content) && CopyWrite(g, q, stored, m).Some?
    requires !Shares(m, q)
    ensures var after := CopyWrite(g, q, stored, m).value.0;
            q.newID in after && after[q.newID] ==
              if SealsAnew(m, q)
              then g.suite.seal(q.draw.dek, Some(ChunkAAD(Named(q.dst, q.newID))), q.draw.nonce, content)
              else if m.layout.Single? then stored[m.layout.piece.id] else content
  {}

  // ---------------------------------------------------------------- when a copy is written

  /** What a copy needs besides a readable source. */
  predicate Admitted(g: Config, q: Request, stored: Pieces, m: Manifest) {
    || Shares(m, q)
    || (&& q.putOk && (m.enc.mode == Plain ==> q.dstMode.Some?) && (SealsAnew(m, q) ==> q.keyring)
        && (SealsAnew(m, q) && m.layout.Single? ==>
              && m.size <= g.bufferLimit
              && (m.layout.piece.id in stored ==> |stored[m.layout.piece.id]| <= g.bufferLimit)))
  }

  /** A copy of a readable source goes through exactly when it is admitted: opening the source
      never stands in the way. */
  lemma CopySucceedsIff(g: Config, q: Request, stored: Pieces, m: Manifest, content: Bytes)
    requires Sound(g) && WellFormed(m) && Get(g, stored, m) == Some(content)
    ensures CopyWrite(g, q, stored, m).Some? <==> Admitted(g, q, stored, m)
  {}

  /** What a write of one fresh piece leaves behind. */
  ghost predicate FreshPiece(q: Request, stored: Pieces, r: Outcome) {
    r.Some? ==>
      && r.value.1.layout.Single? && r.value.1.layout.piece.id == q.newID && r.value.1.contentHash == None
      && r.value.1.id == Named(q.dst, q.newID)
      && r.value.0.Keys == stored.Keys + {q.newID}
      && forall id :: id in stored && id != q.newID ==> r.value.0[id] == stored[id]
  }

  ghost predicate SharedPiece(q: Request, stored: Pieces, m: Manifest, r: Outcome)
    requires m.layout.Single?
  {
    r == Some((stored, Manifest(Named(q.dst, m.layout.piece.id), m.enc, m.contentHash, m.layout, m.size)))
  }

  lemma SingleShape(g: Config, q: Request, stored: Pieces, m: Manifest)
    requires m.layout.Single?
    ensures if Shares(m, q) then SharedPiece(q, stored, m, CopySingle(g, q, stored, m))
            else FreshPiece(q, stored, CopySingle(g, q, stored, m))
  {}

  lemma RebuiltShape(g: Config, q: Request, stored: Pieces, m: Manifest, content: Bytes)
    ensures FreshPiece(q, stored, StoreRebuilt(g, q, stored, m, content))
  {}

  /** A copy writes its own piece under its own identity, or shares a piece under that piece's. */
  lemma CopyShape(g: Config, q: Request, stored: Pieces, m: Manifest)
    ensures if Shares(m, q) then SharedPiece(q, stored, m, CopyWrite(g, q, stored, m))
            else FreshPiece(q, stored, CopyWrite(g, q, stored, m))
  {
    if m.layout.Single? {
      SingleShape(g, q, stored, m);
    } else if Get(g, stored, m).Some? {
      RebuiltShape(g, q, stored, m, Get(g, stored, m).value);
    }
  }

  /** A copy leaves every other object's bytes alone. */
  lemma CopyFrame(g: Config, q: Request, stored: Pieces, r: Outcome, other: Manifest)
    requires r.Some? && (FreshPiece(q, stored, r) || r.value.0 == stored) && q.newID !in IDs(other)
    ensures Get(g, r.value.0, other) == Get(g, stored, other)
  {
    GetFrame(g, r.value.0, stored, other);
  }

  /**
    Copying the ciphertext of a v1 object as it is leaves the destination readable only
    if it binds the same identity bytes; a destination with a version of its own never does.
   */
  lemma VerbatimV1Unreadable(g: Config, stored: Pieces, id: Identity, other: Identity, mode: Mode, plaintext: Bytes,
                             size: nat, a: PieceID, b: PieceID, draw: Draw)
    requires Sound(g) && IsGatewayEncrypted(mode) && Minted(id) && Minted(other)
    ensures var (sealed, m) := SealedManifest(g, id, mode, plaintext, size, a, draw);
            var copied := m.(id := other, layout := Single(m.layout.piece.(id := b)));
            Get(g, stored[b := sealed], copied) == if SameBinding(id, other) then Some(plaintext) else None
  {
    SealBindsIdentity(g.suite, mode, id, other, plaintext, draw);
  }

  /** The copy serves what a GET of its source would: a source read with its checks, or the source's own claim. */
  predicate ChecksSource(g: Config, q: Request, stored: Pieces, m: Manifest) {
    || !m.layout.Single? || Shares(m, q) || (!SealsAnew(m, q) && q.serverSide)
    || (m.layout.piece.id in stored && !Mismatch(g.suite.hash, stored[m.layout.piece.id], m.layout.piece.claim))
    || (!SealsAnew(m, q) && m.layout.piece.id in stored
        && Unsealed(g.suite, m.enc, m.id, stored[m.layout.piece.id]).None?)
  }

  /**
    The single-piece routes that move bytes read the source piece without its integrity
    check and give the copy a digest of its own.  So, over every route and every source,
    readable or not, a copy that is written reads as its source exactly when the source
    is erasure coded or multipart, its piece is shared or copied by the backend, the piece
    matches its claim, or a duplicated ciphertext opens for nobody.
   */
  lemma CopyAgreesIff(g: Config, q: Request, stored: Pieces, m: Manifest)
    requires Sound(g) && WellFormed(m) && CopyWrite(g, q, stored, m).Some?
    ensures var (after, made) := CopyWrite(g, q, stored, m).value;
            Get(g, after, made) == Get(g, stored, m) <==> ChecksSource(g, q, stored, m)
  {
    if !m.layout.Single? {
      RebuiltReads(g, q, stored, m, Get(g, stored, m).value);
    } else {
      SingleAgreesIff(g, q, stored, m);
    }
  }

  lemma SingleAgreesIff(g: Config, q: Request, stored: Pieces, m: Manifest)
    requires Sound(g) && WellFormed(m) && m.layout.Single? && CopySingle(g, q, stored, m).Some?
    ensures var (after, made) := CopySingle(g, q, stored, m).value;
            Get(g, after, made) == Get(g, stored, m) <==> ChecksSource(g, q, stored, m)
  {
    var piece := m.layout.piece;
    match RouteOf(m, q)
    case Reencrypt =>
      var plaintext := OpenFromStorage(g.suite, m.enc, m.id, stored[piece.id]).value;
      StoreReencryptedReads(g, q, stored, m, plaintext, m.enc.mode);
    case EncryptDefault =>
      StoreReencryptedReads(g, q, stored, m, stored[piece.id], q.dstMode.value);
    case _ =>
  }

  /** A corrupted plaintext piece, which GET refuses, is served from its copy, sealed by the bucket default or not. */
  lemma CorruptionIsServed(g: Config, q: Request, stored: Pieces, m: Manifest)
    requires Sound(g) && m.enc == NoEncryption && m.layout.Single? && m.layout.piece.id in stored
    requires Mismatch(g.suite.hash, stored[m.layout.piece.id], m.layout.piece.claim)
    requires Promotes(m, q) || (!Shares(m, q) && !q.serverSide)
    requires Admitted(g, q, stored, m)
    ensures Get(g, stored, m) == None && CopyWrite(g, q, stored, m).Some?
    ensures var (after, made) := CopyWrite(g, q, stored, m).value;
            Get(g, after, made) == Some(stored[m.layout.piece.id])
  {
    if Promotes(m, q) {
      StoreReencryptedReads(g, q, stored, m, stored[m.layout.piece.id], q.dstMode.value);
    }
  }

  /** Such a piece: one byte 8 under the digest of the byte 9, copied into a sealing or a plain bucket. */
  lemma CorruptedByteIsServed(g: Config, seal: bool)
    requires g == Config(TransparentSuite(), ParityCode(1, 1), 10, 10)
    ensures var m := Manifest(Identity([1], [2], [3], PieceID([4])), NoEncryption, None,
                              Single(Piece(PieceID([4]), Digest([9]), 0, 0)), 1);
            var q := Request(Name([1], [2], [5]), PieceID([6]), Draw([7], 0),
                             Some(if seal then Managed else Plain), true, false, false, true);
            var stored := map[PieceID([4]) := [8]];
            && Get(g, stored, m) == None && CopyWrite(g, q, stored, m).Some?
            && Get(g, CopyWrite(g, q, stored, m).value.0, CopyWrite(g, q, stored, m).value.1) == Some([8])
  {
    var m := Manifest(Identity([1], [2], [3], PieceID([4])), NoEncryption, None,
                      Single(Piece(PieceID([4]), Digest([9]), 0, 0)), 1);
    var q := Request(Name([1], [2], [5]), PieceID([6]), Draw([7], 0), Some(if seal then Managed else Plain), true,
                     false, false, true);
    var stored := map[PieceID([4]) := [8]];
    TransparentIsLawful();
    assert g.suite.hash([8]) == [8] && [8][0] != [9][0];
    CorruptionIsServed(g, q, stored, m);
  }

  // ---------------------------------------------------------------- the handler

  class Gateway {
    var pieces: Pieces
    var manifests: Manifests
    var latest: Latest
    const config: Config

    constructor (config: Config)
      ensures this.config == config && pieces == map[] && manifests == map[] && latest == map[]
    {
      this.config := config;
      pieces, manifests, latest := map[], map[], map[];
    }

    /** Fetch, check, unseal and append one part after another. */
    method ReadParts(m: Manifest, parts: seq<Piece>) returns (r: Option<Bytes>)
      ensures r == Assembled(config, pieces, m, parts)
    {
      var whole: Bytes := [];
      for j := 0 to |parts|
        invariant Assembled(config, pieces, m, parts[..j]) == Some(whole)
      {
        assert parts[..j + 1][..j] == parts[..j];
        var checked := Checked(config, pieces, parts[j]);
        var part := if checked.None? then None else Unsealed(config.suite, m.enc, m.id, checked.value);
        if part.None? {
          AssembledFails(config, pieces, m, parts, j + 1);
          return None;
        }
        whole := whole + part.value;
      }
      assert parts[..|parts|] == parts;
      r := Some(whole);
    }

    /** GET of a whole object. */
    method ReadObject(m: Manifest) returns (r: Option<Bytes>)
      ensures r == Get(config, pieces, m)
    {
      match m.layout
      case Single(piece) =>
        var checked := Checked(config, pieces, piece);
        r := if checked.None? then None else Unsealed(config.suite, m.enc, m.id, checked.value);
      case Erasure(profile, shards) =>
        var decoded := Reconstruct(config.codec, profile, config.suite.hash, AsBackend(pieces), shards);
        r := if decoded.Failed? then None else Unsealed(config.suite, m.enc, m.id, decoded.bytes);
      case Multipart(parts) =>
        if m.size > config.multipartLimit { return None; }
        var whole := ReadParts(m, parts);
        r := if whole.Some? && (m.size == 0 || |whole.value| == m.size) then whole else None;
    }

    /** GET without a version ID. */
    method ReadByName(name: Name) returns (r: Option<Bytes>)
      ensures r == GetByName(config, pieces, manifests, latest, name)
    {
      if name !in latest || latest[name] !in manifests { return None; }
      r := ReadObject(manifests[latest[name]]);
    }

    /**
      COPY.  The manifest write makes the copy its name's current version.  On a failed
      manifest write the fresh piece is deleted, if that succeeds; a shared piece stays.
     */
    method Copy(src: Identity, q: Request, manifestOk: bool, cleanupOk: bool) returns (ok: bool)
      modifies this
      ensures var plan := if src in old(manifests) then CopyWrite(config, q, old(pieces), old(manifests)[src])
        else None;
              && (ok <==> plan.Some? && manifestOk)
              && latest == (if ok then old(latest)[NameOf(plan.value.1.id) := plan.value.1.id] else old(latest))
              && manifests == (if ok then old(manifests)[plan.value.1.id := plan.value.1] else old(manifests))
              && pieces == (if plan.None? then old(pieces)
                            else if !ok && cleanupOk && !Shares(old(manifests)[src], q)
                            then plan.value.0 - {q.newID} else plan.value.0)
    {
      if src !in manifests { return false; }
      var m := manifests[src];
      var plan: Outcome := None;
      if m.layout.Single? {
        plan := CopySingle(config, q, pieces, m);
      } else {
        var content := ReadObject(m);
        if content.Some? { plan := StoreRebuilt(config, q, pieces, m, content.value); }
      }
      if plan.None? { return false; }
      pieces := plan.value.0;
      if !manifestOk {
        if cleanupOk && RouteOf(m, q) != Share { pieces := pieces - {q.newID}; }
        return false;
      }
      manifests := manifests[plan.value.1.id := plan.value.1];
      latest := latest[NameOf(plan.value.1.id) := plan.value.1.id];
      ok := true;
    }
  }

  lemma {:induction false} AssembledFails(g: Config, stored: Pieces, m: Manifest, parts: seq<Piece>, j: nat)
    requires j <= |parts| && Assembled(g, stored, m, parts[..j]) == None
    ensures Assembled(g, stored, m, parts) == None
  {
    if j == |parts| {
      assert parts[..j] == parts;
    } else {
      assert parts[..|parts| - 1][..j] == parts[..j];
      AssembledFails(g, stored, m, parts[..|parts| - 1], j);
    }
  }
}
