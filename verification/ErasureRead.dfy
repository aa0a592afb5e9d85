/**
  Reading an erasure-coded object: fetch every shard, check it against the hash
  its manifest claims, charge a lost or corrupted shard to its stripe's loss
  budget, then decode.
 */
module ErasureRead {
  import opened Wrappers
  import opened ErasureCoding

  datatype PieceID = PieceID(name: Bytes)

  /** A digest; the digest function is a parameter, assumed collision free. */
  type Hash = Bytes

  ghost predicate CollisionFree(hash: Bytes -> Hash) {
    forall a, b :: hash(a) == hash(b) ==> a == b
  }

  /** What the manifest says about a piece's bytes: a digest, or a string no verifier recognises. */
  datatype Claim = Digest(hash: Hash) | Unrecognized

  datatype Piece = Piece(id: PieceID, claim: Claim, stripe: nat, index: nat)

  /** What fetching a piece does: no backend or no such piece, a stream that breaks, or bytes. */
  datatype Fetch = Lost | Broken | Got(bytes: Bytes)

  type Backend = map<PieceID, Fetch>

  function FetchPiece(backend: Backend, id: PieceID): Fetch {
    if id in backend then backend[id] else Lost
  }

  predicate Mismatch(hash: Bytes -> Hash, bytes: Bytes, claim: Claim) {
    claim.Digest? && hash(bytes) != claim.hash
  }

  /** The shard counts as lost. */
  predicate Blank(hash: Bytes -> Hash, backend: Backend, piece: Piece) {
    match FetchPiece(backend, piece.id)
    case Lost => true
    case Broken => false
    case Got(bytes) => Mismatch(hash, bytes, piece.claim)
  }

  function ShardFor(hash: Bytes -> Hash, backend: Backend, piece: Piece): Shard {
    var f := FetchPiece(backend, piece.id);
    Shard(piece.stripe, piece.index, if f.Got? && !Mismatch(hash, f.bytes, piece.claim) then f.bytes else [])
  }

  function ShardsFor(hash: Bytes -> Hash, backend: Backend, pieces: seq<Piece>): seq<Shard> {
    seq(|pieces|, j requires 0 <= j < |pieces| => ShardFor(hash, backend, pieces[j]))
  }

  function Loss(hash: Bytes -> Hash, backend: Backend, piece: Piece, s: nat): nat {
    if piece.stripe == s && Blank(hash, backend, piece) then 1 else 0
  }

  function Losses(hash: Bytes -> Hash, backend: Backend, pieces: seq<Piece>, s: nat): nat {
    if pieces == [] then 0
    else Losses(hash, backend, pieces[..|pieces| - 1], s) + Loss(hash, backend, pieces[|pieces| - 1], s)
  }

  /** No stream broke, and no stripe lost more shards than it has parity. */
  ghost predicate Recoverable(m: nat, hash: Bytes -> Hash, backend: Backend, pieces: seq<Piece>) {
    && (forall piece :: piece in pieces ==> !FetchPiece(backend, piece.id).Broken?)
    && (forall s: nat :: Losses(hash, backend, pieces, s) <= m)
  }

  datatype ReadError = EmptyManifest | DataLoss | BackendGetFailed | ErasureDecodeFailed | DecoderPanicked

  datatype ReadResult = Ok(bytes: Bytes) | Failed(error: ReadError)

  // ---------------------------------------------------------------- the read

  lemma LossesNext(hash: Bytes -> Hash, backend: Backend, pieces: seq<Piece>, j: nat, s: nat)
    requires j < |pieces|
    ensures Losses(hash, backend, pieces[..j + 1], s)
         == Losses(hash, backend, pieces[..j], s) + Loss(hash, backend, pieces[j], s)
  {
    assert pieces[..j + 1][..j] == pieces[..j];
  }

  /** One piece more. */
  lemma GatherNext(hash: Bytes -> Hash, backend: Backend, pieces: seq<Piece>, j: nat)
    requires j < |pieces|
    ensures pieces[..j + 1] == pieces[..j] + [pieces[j]]
    ensures ShardsFor(hash, backend, pieces[..j + 1])
         == ShardsFor(hash, backend, pieces[..j]) + ShardsFor(hash, backend, [pieces[j]])
    ensures forall s: nat :: Losses(hash, backend, pieces[..j + 1], s)
                          == Losses(hash, backend, pieces[..j], s) + Loss(hash, backend, pieces[j], s)
  {
    assert pieces[..j + 1] == pieces[..j] + [pieces[j]];
    forall s: nat
      ensures Losses(hash, backend, pieces[..j + 1], s)
           == Losses(hash, backend, pieces[..j], s) + Loss(hash, backend, pieces[j], s)
    {
      LossesNext(hash, backend, pieces, j, s);
    }
  }

  lemma {:induction false} LossesGrow(hash: Bytes -> Hash, backend: Backend, pieces: seq<Piece>, j: nat, s: nat)
    requires j <= |pieces|
    ensures Losses(hash, backend, pieces[..j], s) <= Losses(hash, backend, pieces, s)
  {
    if j == |pieces| {
      assert pieces[..j] == pieces;
    } else {
      LossesGrow(hash, backend, pieces[..|pieces| - 1], j, s);
      assert pieces[..|pieces| - 1][..j] == pieces[..j];
    }
  }

  lemma {:induction false} NoStripeNoLoss(hash: Bytes -> Hash, backend: Backend, pieces: seq<Piece>, s: nat)
    requires forall piece :: piece in pieces ==> piece.stripe != s
    ensures Losses(hash, backend, pieces, s) == 0
  {
    if pieces != [] {
      NoStripeNoLoss(hash, backend, pieces[..|pieces| - 1], s);
    }
  }

  /** The j-th piece is where the read fails: up to it everything was recoverable. */
  ghost predicate FailsAt(m: nat, hash: Bytes -> Hash, backend: Backend, pieces: seq<Piece>, j: nat) {
    && j < |pieces| && Recoverable(m, hash, backend, pieces[..j])
    && !Recoverable(m, hash, backend, pieces[..j + 1])
  }

  lemma RecoverablePrefix(m: nat, hash: Bytes -> Hash, backend: Backend, pieces: seq<Piece>, j: nat)
    requires Recoverable(m, hash, backend, pieces) && j <= |pieces|
    ensures Recoverable(m, hash, backend, pieces[..j])
  {
    forall s: nat
      ensures Losses(hash, backend, pieces[..j], s) <= m
    {
      LossesGrow(hash, backend, pieces, j, s);
    }
  }

  lemma FailsOnce(m: nat, hash: Bytes -> Hash, backend: Backend, pieces: seq<Piece>, i: nat, j: nat)
    requires i < j && FailsAt(m, hash, backend, pieces, i)
    ensures !FailsAt(m, hash, backend, pieces, j)
  {
    if j < |pieces| && Recoverable(m, hash, backend, pieces[..j]) {
      assert pieces[..j][..i + 1] == pieces[..i + 1];
      RecoverablePrefix(m, hash, backend, pieces[..j], i + 1);
    }
  }

  /** The error of a read that fails at its j-th piece. */
  function ErrorAt(backend: Backend, pieces: seq<Piece>, j: nat): ReadError
    requires j < |pieces|
  {
    if FetchPiece(backend, pieces[j].id).Broken? then BackendGetFailed else DataLoss
  }

  /** A read of recorded pieces fails with the error of the first piece that cannot be made up for, and no other. */
  ghost predicate FailsWith(m: nat, hash: Bytes -> Hash, backend: Backend, pieces: seq<Piece>, e: ReadError) {
    exists j: nat :: FailsAt(m, hash, backend, pieces, j) && e == ErrorAt(backend, pieces, j)
  }

  lemma OneError(m: nat, hash: Bytes -> Hash, backend: Backend, pieces: seq<Piece>, e: ReadError, e': ReadError)
    requires FailsWith(m, hash, backend, pieces, e) && FailsWith(m, hash, backend, pieces, e')
    ensures e == e' && !Recoverable(m, hash, backend, pieces)
  {
    var i: nat :| FailsAt(m, hash, backend, pieces, i) && e == ErrorAt(backend, pieces, i);
    var j: nat :| FailsAt(m, hash, backend, pieces, j) && e' == ErrorAt(backend, pieces, j);
    if i < j { FailsOnce(m, hash, backend, pieces, i, j); }
    if j < i { FailsOnce(m, hash, backend, pieces, j, i); }
    if Recoverable(m, hash, backend, pieces) { RecoverablePrefix(m, hash, backend, pieces, i + 1); }
  }

  lemma OneErrorOnly(m: nat, hash: Bytes -> Hash, backend: Backend, pieces: seq<Piece>, e: ReadError)
    requires FailsWith(m, hash, backend, pieces, e)
    ensures !Recoverable(m, hash, backend, pieces)
    ensures forall e' :: FailsWith(m, hash, backend, pieces, e') ==> e' == e
  {
    OneError(m, hash, backend, pieces, e, e);
    forall e' | FailsWith(m, hash, backend, pieces, e')
      ensures e' == e
    {
      OneError(m, hash, backend, pieces, e, e');
    }
  }

  lemma RecoverableIsNoError(m: nat, hash: Bytes -> Hash, backend: Backend, pieces: seq<Piece>)
    requires Recoverable(m, hash, backend, pieces)
    ensures forall e :: !FailsWith(m, hash, backend, pieces, e)
  {
    forall e
      ensures !FailsWith(m, hash, backend, pieces, e)
    {
      if FailsWith(m, hash, backend, pieces, e) { OneError(m, hash, backend, pieces, e, e); }
    }
  }

  method StripesNamed(pieces: seq<Piece>) returns (n: nat)
    ensures forall piece :: piece in pieces ==> piece.stripe < n
    ensures n == 0 <==> pieces == []
  {
    n := 0;
    for j := 0 to |pieces|
      invariant forall piece :: piece in pieces[..j] ==> piece.stripe < n
      invariant n == 0 <==> j == 0
    {
      assert pieces[..j + 1] == pieces[..j] + [pieces[j]];
      if pieces[j].stripe + 1 > n { n := pieces[j].stripe + 1; }
    }
    assert pieces[..|pieces|] == pieces;
  }

  /** The loop's counters bound the losses of every stripe, named or not. */
  lemma WithinBudget(m: nat, hash: Bytes -> Hash, backend: Backend, pieces: seq<Piece>, n: nat, losses: seq<nat>)
    requires |losses| == n && forall piece :: piece in pieces ==> piece.stripe < n
    requires forall piece :: piece in pieces ==> !FetchPiece(backend, piece.id).Broken?
    requires forall s :: 0 <= s < n ==> losses[s] == Losses(hash, backend, pieces, s) <= m
    ensures Recoverable(m, hash, backend, pieces)
  {
    forall s: nat
      ensures Losses(hash, backend, pieces, s) <= m
    {
      if s >= n { NoStripeNoLoss(hash, backend, pieces, s); }
    }
  }

  /** The loop over the manifest's pieces: the shards to decode, or the first failure. */
  method GatherShards(m: nat, hash: Bytes -> Hash, backend: Backend, pieces: seq<Piece>, n: nat)
    returns (shards: seq<Shard>, error: Option<ReadError>)
    requires forall piece :: piece in pieces ==> piece.stripe < n
    ensures error.None? <==> Recoverable(m, hash, backend, pieces)
    ensures error.None? ==> shards == ShardsFor(hash, backend, pieces)
    ensures error.Some? ==> FailsWith(m, hash, backend, pieces, error.value)
    ensures error == Some(DataLoss) ==> exists s: nat :: Losses(hash, backend, pieces, s) > m
    ensures error == Some(BackendGetFailed) ==>
      exists piece :: piece in pieces && FetchPiece(backend, piece.id).Broken?
  {
    shards := [];
    var losses := new nat[n](s => 0);
    for j := 0 to |pieces|
      invariant shards == ShardsFor(hash, backend, pieces[..j])
      invariant forall piece :: piece in pieces[..j] ==> !FetchPiece(backend, piece.id).Broken?
      invariant forall s :: 0 <= s < n ==> losses[s] == Losses(hash, backend, pieces[..j], s) <= m
    {
      var piece := pieces[j];
      GatherNext(hash, backend, pieces, j);
      var f := FetchPiece(backend, piece.id);
      assert Recoverable(m, hash, backend, pieces[..j]) by {
        WithinBudget(m, hash, backend, pieces[..j], n, losses[..]);
      }
      if f.Broken? {
        assert FailsAt(m, hash, backend, pieces, j);
        return shards, Some(BackendGetFailed);
      }
      if f.Lost? || Mismatch(hash, f.bytes, piece.claim) {
        losses[piece.stripe] := losses[piece.stripe] + 1;
        shards := shards + [Shard(piece.stripe, piece.index, [])];
        if losses[piece.stripe] > m {
          LossesGrow(hash, backend, pieces, j + 1, piece.stripe);
          assert FailsAt(m, hash, backend, pieces, j);
          return shards, Some(DataLoss);
        }
      } else {
        shards := shards + [Shard(piece.stripe, piece.index, f.bytes)];
      }
    }
    assert pieces[..|pieces|] == pieces;
    WithinBudget(m, hash, backend, pieces, n, losses[..]);
    error := None;
  }

  /** The read.  It succeeds exactly when the object is recoverable and its shards decode. */
  method Reconstruct(c: Codec, p: Profile, hash: Bytes -> Hash, backend: Backend, pieces: seq<Piece>)
    returns (r: ReadResult)
    ensures r.Ok? <==>
      && pieces != [] && Recoverable(p.m, hash, backend, pieces)
      && Decode(c, p, ShardsFor(hash, backend, pieces)).Some?
    ensures r.Ok? ==> Decode(c, p, ShardsFor(hash, backend, pieces)) == Some(r.bytes)
    ensures r == Failed(DataLoss) ==> exists s: nat :: Losses(hash, backend, pieces, s) > p.m
    ensures r == Failed(BackendGetFailed) ==>
      exists piece :: piece in pieces && FetchPiece(backend, piece.id).Broken?
    ensures r == Failed(DataLoss) <==> FailsWith(p.m, hash, backend, pieces, DataLoss)
    ensures r == Failed(BackendGetFailed) <==> FailsWith(p.m, hash, backend, pieces, BackendGetFailed)
    ensures r == Failed(ErasureDecodeFailed) ==>
      Recoverable(p.m, hash, backend, pieces) && Attempt(c, p, ShardsFor(hash, backend, pieces)) == Rejected
    ensures r == Failed(DecoderPanicked) <==>
      && pieces != [] && Recoverable(p.m, hash, backend, pieces)
      && Attempt(c, p, ShardsFor(hash, backend, pieces)) == Panicked
    ensures r == Failed(EmptyManifest) <==> pieces == []
  {
    var n := StripesNamed(pieces);
    if n == 0 { return Failed(EmptyManifest); }
    var shards, error := GatherShards(p.m, hash, backend, pieces, n);
    if error.Some? {
      OneErrorOnly(p.m, hash, backend, pieces, error.value);
      return Failed(error.value);
    }
    RecoverableIsNoError(p.m, hash, backend, pieces);
    var decoded := DecodeShards(c, p, shards);
    match decoded
    case Decoded(bytes) => r := Ok(bytes);
    case Rejected => r := Failed(ErasureDecodeFailed);
    case Panicked => r := Failed(DecoderPanicked);
  }

  /** The bytes a read returns, as a value. */
  ghost function Read(c: Codec, p: Profile, hash: Bytes -> Hash, backend: Backend, pieces: seq<Piece>): Option<Bytes> {
    if pieces != [] && Recoverable(p.m, hash, backend, pieces) then Decode(c, p, ShardsFor(hash, backend, pieces))
    else None
  }

  // ---------------------------------------------------------------- what a PUT wrote

  /** The manifest piece PUT records for a shard. */
  function PieceFor(hash: Bytes -> Hash, id: (nat, nat) -> PieceID, sh: Shard): Piece {
    Piece(id(sh.stripe, sh.index), Digest(hash(sh.bytes)), sh.stripe, sh.index)
  }

  /** `pieces` lists, in any order, exactly the pieces PUT recorded for `body`. */
  ghost predicate PiecesOf(c: Codec, p: Profile, hash: Bytes -> Hash, id: (nat, nat) -> PieceID, body: Bytes,
                           pieces: seq<Piece>)
    requires p.Valid() && |body| < U64
  {
    && (forall piece :: piece in pieces ==>
          exists sh :: sh in Encode(c, p, body) && piece == PieceFor(hash, id, sh))
    && (forall sh :: sh in Encode(c, p, body) ==> PieceFor(hash, id, sh) in pieces)
  }

  function BlankIndices(hash: Bytes -> Hash, backend: Backend, pieces: seq<Piece>, s: nat): set<nat> {
    set piece | piece in pieces && piece.stripe == s && Blank(hash, backend, piece) :: piece.index
  }

  lemma BlankIndicesNext(hash: Bytes -> Hash, backend: Backend, pieces: seq<Piece>, s: nat)
    requires pieces != []
    ensures var last, rest := pieces[|pieces| - 1], pieces[..|pieces| - 1];
            BlankIndices(hash, backend, pieces, s)
            == BlankIndices(hash, backend, rest, s)
               + (if last.stripe == s && Blank(hash, backend, last) then {last.index} else {})
  {
    assert pieces == pieces[..|pieces| - 1] + [pieces[|pieces| - 1]];
  }

  lemma {:induction false} BlanksAreCharged(hash: Bytes -> Hash, backend: Backend, pieces: seq<Piece>, s: nat)
    ensures |BlankIndices(hash, backend, pieces, s)| <= Losses(hash, backend, pieces, s)
  {
    if pieces == [] {
      assert BlankIndices(hash, backend, pieces, s) == {};
    } else {
      var last, rest := pieces[|pieces| - 1], pieces[..|pieces| - 1];
      BlanksAreCharged(hash, backend, rest, s);
      BlankIndicesNext(hash, backend, pieces, s);
    }
  }

  function Gaps(stripe: seq<Bytes>): set<nat> { set i: nat | i < |stripe| && stripe[i] == [] }

  lemma {:induction false} PresentAndGaps(stripe: seq<Bytes>)
    ensures Present(stripe) + |Gaps(stripe)| == |stripe|
  {
    if stripe != [] {
      var n := |stripe| - 1;
      PresentAndGaps(stripe[..n]);
      assert Gaps(stripe) == Gaps(stripe[..n]) + (if stripe[n] == [] then {n} else {});
    }
  }

  lemma Subset(a: set<nat>, b: set<nat>)
    requires a <= b
    ensures |a| <= |b|
  {
    assert b == a + (b - a);
  }

  lemma {:induction false} HeldBack(shards: seq<Shard>, sh: Shard)
    requires sh in shards && sh.bytes != []
    ensures Held(shards, sh.stripe, sh.index) != []
  {
    if shards[|shards| - 1] != sh {
      HeldBack(shards[..|shards| - 1], sh);
    }
  }

  /** A shard that passes its digest check is the shard that was written. */
  lemma AcceptedIsWritten(c: Codec, p: Profile, hash: Bytes -> Hash, id: (nat, nat) -> PieceID, body: Bytes,
                          backend: Backend, pieces: seq<Piece>, piece: Piece)
    requires p.Valid() && |body| < U64 && Lawful(c, p) && CollisionFree(hash)
    requires PiecesOf(c, p, hash, id, body, pieces) && piece in pieces
    ensures piece.stripe < |StripesOf(p, body)| && piece.index < p.Total()
    ensures var sh := ShardFor(hash, backend, piece);
            sh.bytes == [] || sh.bytes == Written(c, p, body, piece.stripe, piece.index)
    ensures ShardFor(hash, backend, piece).bytes == [] ==>
      Blank(hash, backend, piece) || FetchPiece(backend, piece.id).Broken?
  {
    EncodedShape(c, p, body, |StripesOf(p, body)|);
    WrittenSize(c, p, body);
    var sh :| sh in Encode(c, p, body) && piece == PieceFor(hash, id, sh);
  }

  /** Every gap in a stripe was charged to that stripe. */
  lemma GapsAreBlank(c: Codec, p: Profile, hash: Bytes -> Hash, id: (nat, nat) -> PieceID, body: Bytes,
                     backend: Backend, pieces: seq<Piece>, s: nat)
    requires p.Valid() && |body| < U64 && Lawful(c, p) && CollisionFree(hash)
    requires PiecesOf(c, p, hash, id, body, pieces) && Recoverable(p.m, hash, backend, pieces)
    requires s < |StripesOf(p, body)|
    ensures Present(HeldStripe(p, ShardsFor(hash, backend, pieces), s)) >= p.k
  {
    var shards := ShardsFor(hash, backend, pieces);
    var held := HeldStripe(p, shards, s);
    EncodedShape(c, p, body, |StripesOf(p, body)|);
    forall i | i in Gaps(held)
      ensures i in BlankIndices(hash, backend, pieces, s)
    {
      var written := Shard(s, i, Written(c, p, body, s, i));
      assert written in Encode(c, p, body);
      var piece := PieceFor(hash, id, written);
      AcceptedIsWritten(c, p, hash, id, body, backend, pieces, piece);
      var sh := ShardFor(hash, backend, piece);
      var j :| 0 <= j < |pieces| && pieces[j] == piece;
      assert shards[j] == sh;
      if sh.bytes != [] { HeldBack(shards, sh); }
    }
    Subset(Gaps(held), BlankIndices(hash, backend, pieces, s));
    BlanksAreCharged(hash, backend, pieces, s);
    PresentAndGaps(held);
  }

  /**
    Whatever happened to the backends since the PUT, a read returns the object
    exactly, or fails; and it succeeds if and only if no stream breaks and no
    stripe has lost more shards than it has parity.
   */
  lemma ReadIsExact(c: Codec, p: Profile, hash: Bytes -> Hash, id: (nat, nat) -> PieceID, body: Bytes,
                    backend: Backend, pieces: seq<Piece>)
    requires p.Valid() && |body| < U64 - HEADER && Lawful(c, p) && CollisionFree(hash)
    requires PiecesOf(c, p, hash, id, body, pieces)
    ensures Read(c, p, hash, backend, pieces)
         == if Recoverable(p.m, hash, backend, pieces) then Some(body) else None
  {
    if Recoverable(p.m, hash, backend, pieces) {
      var shards := ShardsFor(hash, backend, pieces);
      forall s: nat | s < |StripesOf(p, body)|
        ensures Present(HeldStripe(p, shards, s)) >= p.k
      {
        GapsAreBlank(c, p, hash, id, body, backend, pieces, s);
      }
      forall sh | sh in shards
        ensures sh.stripe < |StripesOf(p, body)| && sh.index < p.Total()
        ensures sh.bytes == [] || sh.bytes == Written(c, p, body, sh.stripe, sh.index)
      {
        var j :| 0 <= j < |shards| && shards[j] == sh;
        AcceptedIsWritten(c, p, hash, id, body, backend, pieces, pieces[j]);
      }
      assert Survivors(c, p, body, shards);
      SomeShard(c, p, body, shards);
      DecodeInvertsEncode(c, p, body, shards);
    }
  }

  /** The backend holds the shard at this place as it was written. */
  predicate Intact(c: Codec, p: Profile, id: (nat, nat) -> PieceID, body: Bytes, backend: Backend, s: nat, i: nat)
    requires p.Valid() && |body| < U64 && s < |StripesOf(p, body)|
  {
    id(s, i) in backend && backend[id(s, i)] == Got(Written(c, p, body, s, i))
  }

  /** The places of a stripe whose shard is gone or altered. */
  function Damaged(c: Codec, p: Profile, id: (nat, nat) -> PieceID, body: Bytes, backend: Backend, s: nat): set<nat>
    requires p.Valid() && |body| < U64 && s < |StripesOf(p, body)|
  {
    set i: nat | i < p.Total() && !Intact(c, p, id, body, backend, s, i)
  }

  /** Every place is listed once. */
  ghost predicate Once(pieces: seq<Piece>) {
    forall i, j :: 0 <= i < j < |pieces| ==>
      pieces[i].stripe != pieces[j].stripe || pieces[i].index != pieces[j].index
  }

  lemma {:induction false} BlanksAreLosses(hash: Bytes -> Hash, backend: Backend, pieces: seq<Piece>, s: nat)
    requires Once(pieces)
    ensures |BlankIndices(hash, backend, pieces, s)| == Losses(hash, backend, pieces, s)
  {
    if pieces == [] {
      assert BlankIndices(hash, backend, pieces, s) == {};
    } else {
      var last, rest := pieces[|pieces| - 1], pieces[..|pieces| - 1];
      BlanksAreLosses(hash, backend, rest, s);
      BlankIndicesNext(hash, backend, pieces, s);
    }
  }

  lemma PieceAt(c: Codec, p: Profile, hash: Bytes -> Hash, id: (nat, nat) -> PieceID, body: Bytes,
                pieces: seq<Piece>, piece: Piece)
    requires p.Valid() && |body| < U64 && Lawful(c, p) && PiecesOf(c, p, hash, id, body, pieces) && piece in pieces
    ensures piece.stripe < |StripesOf(p, body)| && piece.index < p.Total()
    ensures piece.id == id(piece.stripe, piece.index)
    ensures piece.claim == Digest(hash(Written(c, p, body, piece.stripe, piece.index)))
  {
    EncodedShape(c, p, body, |StripesOf(p, body)|);
    var sh :| sh in Encode(c, p, body) && piece == PieceFor(hash, id, sh);
  }

  lemma PieceBlankIff(c: Codec, p: Profile, hash: Bytes -> Hash, id: (nat, nat) -> PieceID, body: Bytes,
                      backend: Backend, pieces: seq<Piece>, piece: Piece)
    requires p.Valid() && |body| < U64 && Lawful(c, p) && CollisionFree(hash)
    requires PiecesOf(c, p, hash, id, body, pieces) && piece in pieces
    requires piece.id in backend ==> !backend[piece.id].Broken?
    ensures piece.stripe < |StripesOf(p, body)| && piece.index < p.Total()
    ensures Blank(hash, backend, piece) <==> !Intact(c, p, id, body, backend, piece.stripe, piece.index)
  {
    PieceAt(c, p, hash, id, body, pieces, piece);
  }

  lemma PlaceListed(c: Codec, p: Profile, hash: Bytes -> Hash, id: (nat, nat) -> PieceID, body: Bytes,
                    pieces: seq<Piece>, s: nat, i: nat) returns (piece: Piece)
    requires p.Valid() && |body| < U64 && Lawful(c, p) && PiecesOf(c, p, hash, id, body, pieces)
    requires s < |StripesOf(p, body)| && i < p.Total()
    ensures piece in pieces && piece.stripe == s && piece.index == i
  {
    EncodedShape(c, p, body, |StripesOf(p, body)|);
    var written := Shard(s, i, Written(c, p, body, s, i));
    assert written in Encode(c, p, body);
    piece := PieceFor(hash, id, written);
  }

  lemma BlankIsDamaged(c: Codec, p: Profile, hash: Bytes -> Hash, id: (nat, nat) -> PieceID, body: Bytes,
                       backend: Backend, pieces: seq<Piece>, s: nat)
    requires p.Valid() && |body| < U64 && Lawful(c, p) && CollisionFree(hash)
    requires PiecesOf(c, p, hash, id, body, pieces) && s < |StripesOf(p, body)|
    requires forall k :: k in backend ==> !backend[k].Broken?
    ensures BlankIndices(hash, backend, pieces, s) == Damaged(c, p, id, body, backend, s)
  {
    var blank, damaged := BlankIndices(hash, backend, pieces, s), Damaged(c, p, id, body, backend, s);
    forall i | i in blank
      ensures i in damaged
    {
      var piece :| piece in pieces && piece.stripe == s && Blank(hash, backend, piece) && piece.index == i;
      PieceBlankIff(c, p, hash, id, body, backend, pieces, piece);
    }
    forall i | i in damaged
      ensures i in blank
    {
      var piece := PlaceListed(c, p, hash, id, body, pieces, s, i);
      PieceBlankIff(c, p, hash, id, body, backend, pieces, piece);
    }
  }

  /**
    What a read survives, on the backends themselves: with no stream breaking, the object written
    is read back exactly when no stripe has more shards gone or altered than it has parity.
   */
  lemma ReadSurvivesIff(c: Codec, p: Profile, hash: Bytes -> Hash, id: (nat, nat) -> PieceID, body: Bytes,
                        backend: Backend, pieces: seq<Piece>)
    requires p.Valid() && |body| < U64 - HEADER && Lawful(c, p) && CollisionFree(hash)
    requires PiecesOf(c, p, hash, id, body, pieces) && Once(pieces)
    requires forall k :: k in backend ==> !backend[k].Broken?
    ensures Read(c, p, hash, backend, pieces) == Some(body) <==>
            forall s: nat :: s < |StripesOf(p, body)| ==> |Damaged(c, p, id, body, backend, s)| <= p.m
  {
    ReadIsExact(c, p, hash, id, body, backend, pieces);
    forall s: nat
      ensures Losses(hash, backend, pieces, s)
           == if s < |StripesOf(p, body)| then |Damaged(c, p, id, body, backend, s)| else 0
    {
      if s < |StripesOf(p, body)| {
        BlanksAreLosses(hash, backend, pieces, s);
        BlankIsDamaged(c, p, hash, id, body, backend, pieces, s);
      } else {
        forall piece | piece in pieces ensures piece.stripe != s { PieceAt(c, p, hash, id, body, pieces, piece); }
        NoStripeNoLoss(hash, backend, pieces, s);
      }
    }
  }

  /** The backend holds, for unchecked pieces, a complete encoding of `other`. */
  ghost predicate Replaced(c: Codec, p: Profile, other: Bytes, backend: Backend, pieces: seq<Piece>)
    requires p.Valid() && |other| < U64
  {
    && (forall piece :: piece in pieces ==>
          && piece.claim == Unrecognized && FetchPiece(backend, piece.id).Got?
          && Shard(piece.stripe, piece.index, FetchPiece(backend, piece.id).bytes) in Encode(c, p, other))
    && (forall s: nat, i: nat :: s < |StripesOf(p, other)| && i < p.Total() ==> Listed(pieces, s, i))
  }

  ghost predicate Listed(pieces: seq<Piece>, s: nat, i: nat) {
    exists piece :: piece in pieces && piece.stripe == s && piece.index == i
  }

  lemma ReplacedIsHeld(c: Codec, p: Profile, hash: Bytes -> Hash, other: Bytes, backend: Backend,
                       pieces: seq<Piece>, s: nat, i: nat)
    requires p.Valid() && |other| < U64 && Lawful(c, p) && Replaced(c, p, other, backend, pieces)
    requires s < |StripesOf(p, other)| && i < p.Total()
    ensures Held(ShardsFor(hash, backend, pieces), s, i) != []
  {
    EncodedShape(c, p, other, |StripesOf(p, other)|);
    WrittenSize(c, p, other);
    assert Listed(pieces, s, i);
    var piece :| piece in pieces && piece.stripe == s && piece.index == i;
    var j :| 0 <= j < |pieces| && pieces[j] == piece;
    var shards := ShardsFor(hash, backend, pieces);
    assert shards[j] == Shard(s, i, FetchPiece(backend, piece.id).bytes);
    HeldBack(shards, shards[j]);
  }

  lemma ReplacedIsFull(c: Codec, p: Profile, hash: Bytes -> Hash, other: Bytes, backend: Backend,
                       pieces: seq<Piece>, s: nat)
    requires p.Valid() && |other| < U64 && Lawful(c, p) && Replaced(c, p, other, backend, pieces)
    requires s < |StripesOf(p, other)|
    ensures Present(HeldStripe(p, ShardsFor(hash, backend, pieces), s)) == p.Total()
  {
    var held := HeldStripe(p, ShardsFor(hash, backend, pieces), s);
    forall i: nat | i < p.Total()
      ensures held[i] != []
    {
      ReplacedIsHeld(c, p, hash, other, backend, pieces, s, i);
    }
    assert Gaps(held) == {};
    PresentAndGaps(held);
  }

  lemma ReplacedSurvives(c: Codec, p: Profile, hash: Bytes -> Hash, other: Bytes, backend: Backend, pieces: seq<Piece>)
    requires p.Valid() && |other| < U64 && Lawful(c, p) && Replaced(c, p, other, backend, pieces)
    ensures Survivors(c, p, other, ShardsFor(hash, backend, pieces))
  {
    var shards := ShardsFor(hash, backend, pieces);
    EncodedShape(c, p, other, |StripesOf(p, other)|);
    forall sh | sh in shards
      ensures sh.stripe < |StripesOf(p, other)| && sh.index < p.Total()
      ensures sh.bytes == Written(c, p, other, sh.stripe, sh.index)
    {
      var j :| 0 <= j < |shards| && shards[j] == sh;
      assert pieces[j] in pieces;
    }
    forall s: nat | s < |StripesOf(p, other)|
      ensures Present(HeldStripe(p, shards, s)) >= p.k
    {
      ReplacedIsFull(c, p, hash, other, backend, pieces, s);
    }
  }

  /** A manifest with unrecognised claims protects nothing: the backend decides what is read. */
  lemma UnrecognizedClaimsTrustBackend(c: Codec, p: Profile, hash: Bytes -> Hash, other: Bytes, backend: Backend,
                                       pieces: seq<Piece>)
    requires p.Valid() && |other| < U64 - HEADER && Lawful(c, p) && Replaced(c, p, other, backend, pieces)
    ensures Read(c, p, hash, backend, pieces) == Some(other)
  {
    forall s: nat
      ensures Losses(hash, backend, pieces, s) == 0
    {
      NothingLost(hash, backend, pieces, s);
    }
    ReplacedSurvives(c, p, hash, other, backend, pieces);
    SomeShard(c, p, other, ShardsFor(hash, backend, pieces));
    DecodeInvertsEncode(c, p, other, ShardsFor(hash, backend, pieces));
  }

  lemma {:induction false} NothingLost(hash: Bytes -> Hash, backend: Backend, pieces: seq<Piece>, s: nat)
    requires forall piece :: piece in pieces ==> !Blank(hash, backend, piece)
    ensures Losses(hash, backend, pieces, s) == 0
  {
    if pieces != [] {
      NothingLost(hash, backend, pieces[..|pieces| - 1], s);
    }
  }
}
