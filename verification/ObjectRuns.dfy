/**
  Runs that interleave any number of copies and AAD migrations, step by store
  step, with any of them failing or stopping part way.  A step either leaves the
  bytes every version reads as alone, or is the commit of a copy, whose
  destination then reads as its source did when the copy loaded it.  An object here
  is one version; NamedReads has the reads without a version ID.
 */
module ObjectRuns {
  import opened Wrappers
  import opened ErasureCoding
  import opened ErasureRead
  import opened Sealing
  import opened ObjectBytes
  import opened CopyObject
  import opened AadMigrator

  /** What an actor in flight remembers. */
  datatype Pending =
    | Viewing(m: Manifest, bytes: Bytes)        // loaded a manifest; `bytes` is what GET returned then
    | Copying(made: Manifest, bytes: Bytes)     // destination piece written, manifest not yet
    | Switching(made: Manifest, prior: PieceID)   // re-sealed piece written, manifest not yet
    | Reclaiming(id: Identity, prior: PieceID)    // manifest switched, old piece not yet deleted

  /**
    `owner` records, for every piece ID ever minted, the one object that may name
    it, or None for a piece the content index shares; `held` records which actor
    wrote a piece no manifest names yet.  Both are history, never consulted by
    the gateway.
   */
  datatype State = State(
    pieces: Pieces,
    manifests: Manifests,
    latest: Latest,
    owner: map<PieceID, Option<Identity>>,
    held: map<PieceID, nat>,
    pending: map<nat, Pending>)

  datatype Step =
    | Load(actor: nat, src: Identity)
    | WriteCopy(actor: nat, q: Request)
    | CommitCopy(actor: nat)
    | AbortCopy(actor: nat, cleanup: bool)
    | Reseal(actor: nat, newID: PieceID, draw: Draw)
    | Switch(actor: nat)
    | AbortSwitch(actor: nat, cleanup: bool)
    | Reclaim(actor: nat, deleted: bool)
    | Abandon(actor: nat)

  ghost predicate Can(g: Config, s: State, step: Step) {
    match step
    case Load(a, src) => a !in s.pending && src in s.manifests
    case WriteCopy(a, q) =>
      && a in s.pending && s.pending[a].Viewing? && CopyWrite(g, q, s.pieces, s.pending[a].m).Some?
      && q.newID !in s.owner
    case CommitCopy(a) => a in s.pending && s.pending[a].Copying?
    case AbortCopy(a, _) => a in s.pending && s.pending[a].Copying?
    case Reseal(a, newID, draw) =>
      && a in s.pending && s.pending[a].Viewing? && Eligibility(s.pending[a].m, g.bufferLimit) == Migrated
      && Resealed(g, s.pieces, s.pending[a].m, newID, draw).Some? && newID !in s.owner
    case Switch(a) => a in s.pending && s.pending[a].Switching?
    case AbortSwitch(a, _) => a in s.pending && s.pending[a].Switching?
    case Reclaim(a, _) => a in s.pending && s.pending[a].Reclaiming?
    case Abandon(a) => a in s.pending && s.pending[a].Viewing?
  }

  // ---------------------------------------------------------------- the steps

  ghost function Loaded(g: Config, s: State, a: nat, src: Identity): State
    requires src in s.manifests
  {
    var now := Get(g, s.pieces, s.manifests[src]);
    s.(pending := s.pending[a := Viewing(s.manifests[src], if now.Some? then now.value else [])])
  }

  ghost function CopyWritten(g: Config, s: State, a: nat, q: Request): State
    requires Can(g, s, WriteCopy(a, q))
  {
    var view := s.pending[a];
    var (after, made) := CopyWrite(g, q, s.pieces, view.m).value;
    var next := s.(pieces := after, pending := s.pending[a := Copying(made, view.bytes)]);
    if Shares(view.m, q) then next
    else next.(owner := s.owner[q.newID := Some(made.id)], held := s.held[q.newID := a])
  }

  /** The manifest write makes its version current; the actor's new piece, if it is its own, is no longer held. */
  function Published(s: State, made: Manifest): State {
    s.(manifests := s.manifests[made.id := made], latest := s.latest[NameOf(made.id) := made.id],
       held := s.held - IDs(made))
  }

  /** The rollback: a shared piece stays, an own piece goes if its delete succeeds. */
  function Discarded(s: State, made: Manifest, cleanup: bool): State {
    if made.contentHash.Some? then s
    else s.(pieces := if cleanup then s.pieces - IDs(made) else s.pieces, held := s.held - IDs(made))
  }

  function Resealing(g: Config, s: State, a: nat, m: Manifest, newID: PieceID, draw: Draw): State
    requires m.layout.Single? && Resealed(g, s.pieces, m, newID, draw).Some?
  {
    var (sealed, made) := Resealed(g, s.pieces, m, newID, draw).value;
    State(s.pieces[newID := sealed], s.manifests, s.latest, s.owner[newID := Some(m.id)], s.held[newID := a],
          s.pending[a := Switching(made, m.layout.piece.id)])
  }

  ghost function Do(g: Config, s: State, step: Step): State
    requires Can(g, s, step)
  {
    match step
    case Load(a, src) => Loaded(g, s, a, src)
    case WriteCopy(a, q) => CopyWritten(g, s, a, q)
    case CommitCopy(a) => Published(s, s.pending[a].made).(pending := s.pending - {a})
    case AbortCopy(a, cleanup) => Discarded(s, s.pending[a].made, cleanup).(pending := s.pending - {a})
    case Reseal(a, newID, draw) => Resealing(g, s, a, s.pending[a].m, newID, draw)
    case Switch(a) =>
      Published(s, s.pending[a].made).(pending := s.pending[a := Reclaiming(s.pending[a].made.id, s.pending[a].prior)])
    case AbortSwitch(a, cleanup) => Discarded(s, s.pending[a].made, cleanup).(pending := s.pending - {a})
    case Reclaim(a, deleted) =>
      s.(pieces := if deleted then s.pieces - {s.pending[a].prior} else s.pieces, pending := s.pending - {a})
    case Abandon(a) => s.(pending := s.pending - {a})
  }

  // ---------------------------------------------------------------- the invariant

  ghost predicate Labelled(s: State, m: Manifest) {
    forall p :: p in IDs(m) ==> p in s.owner && s.owner[p] == (if m.contentHash.Some? then None else Some(m.id))
  }

  ghost predicate Unheld(s: State, m: Manifest) { IDs(m) !! s.held.Keys }

  ghost predicate ManifestOk(g: Config, s: State, k: Identity)
    requires k in s.manifests
  {
    var m := s.manifests[k];
    && m.id == k && WellFormed(m) && Labelled(s, m) && Unheld(s, m) && Get(g, s.pieces, m).Some?
    && k.version in s.owner && (m.contentHash.None? ==> s.owner[k.version] == Some(k))
  }

  /** Object k is not deduplicated, and reads as `bytes`. */
  ghost predicate Private(g: Config, s: State, k: Identity, bytes: Option<Bytes>) {
    k in s.manifests && s.manifests[k].contentHash.None? && Get(g, s.pieces, s.manifests[k]) == bytes
  }

  ghost predicate SingleNow(s: State, k: Identity) { k in s.manifests && s.manifests[k].layout.Single? }

  ghost predicate ViewOk(g: Config, s: State, m: Manifest, bytes: Bytes) {
    && WellFormed(m) && Labelled(s, m) && Unheld(s, m)
    && (m.contentHash.None? ==> Private(g, s, m.id, Some(bytes)) && (m.layout.Single? <==> SingleNow(s, m.id)))
    && (Get(g, s.pieces, m) == Some(bytes)
        || (m.contentHash.None? && m.layout.Single? && m.layout.piece.id !in s.pieces))
  }

  /** A single-piece manifest not yet published, its piece held by `a` unless shared. */
  ghost predicate MadeOk(g: Config, s: State, a: nat, made: Manifest, bytes: Option<Bytes>) {
    && WellFormed(made) && Labelled(s, made) && made.layout.Single? && Get(g, s.pieces, made) == bytes && bytes.Some?
    && (made.contentHash.None? ==> made.layout.piece.id in s.held && s.held[made.layout.piece.id] == a)
    && (made.contentHash.Some? ==> Unheld(s, made))
  }

  ghost predicate PriorOk(s: State, k: Identity, prior: PieceID) {
    prior in s.owner && s.owner[prior] == Some(k) && prior !in s.held
  }

  ghost predicate PendingOk(g: Config, s: State, a: nat)
    requires a in s.pending
  {
    match s.pending[a]
    case Viewing(m, bytes) => ViewOk(g, s, m, bytes)
    case Copying(made, bytes) =>
      && MadeOk(g, s, a, made, Some(bytes)) && made.id.version == made.layout.piece.id
      && (made.contentHash.None? ==> made.id !in s.manifests)
    case Switching(made, prior) =>
      && made.contentHash.None? && SingleNow(s, made.id) && PriorOk(s, made.id, prior)
      && Private(g, s, made.id, Get(g, s.pieces, made))
      && MadeOk(g, s, a, made, Get(g, s.pieces, made))
    case Reclaiming(k, prior) =>
      && SingleNow(s, k) && s.manifests[k].contentHash.None? && PriorOk(s, k, prior)
      && s.manifests[k].layout.piece.id != prior
  }

  ghost predicate Inv(g: Config, s: State) {
    && (forall k :: k in s.manifests ==> ManifestOk(g, s, k))
    && (forall a :: a in s.pending ==> PendingOk(g, s, a))
  }

  /** Object k is still there and reads the same. */
  ghost predicate SameRead(g: Config, s: State, t: State, k: Identity) {
    && k in s.manifests && k in t.manifests
    && Get(g, t.pieces, t.manifests[k]) == Get(g, s.pieces, s.manifests[k])
  }

  /** Every object reads the same. */
  ghost predicate Keeps(g: Config, s: State, t: State) { forall k :: k in s.manifests ==> SameRead(g, s, t, k) }

  // ---------------------------------------------------------------- a fresh piece appears

  /** `t` is `s` with one piece, never minted before, added for object `k` by `a`. */
  ghost predicate Minted(s: State, t: State, a: nat, p: PieceID, k: Identity) {
    && p !in s.owner && t.pieces.Keys == s.pieces.Keys + {p}
    && (forall id :: id in s.pieces && id != p ==> t.pieces[id] == s.pieces[id])
    && t.manifests == s.manifests && t.owner == s.owner[p := Some(k)] && t.held == s.held[p := a]
  }

  lemma MintedReads(g: Config, s: State, t: State, a: nat, p: PieceID, k: Identity, m: Manifest)
    requires Minted(s, t, a, p, k) && Labelled(s, m)
    ensures Get(g, t.pieces, m) == Get(g, s.pieces, m) && Labelled(t, m) && (Unheld(s, m) ==> Unheld(t, m))
    ensures forall id :: id in IDs(m) ==> (id in t.pieces <==> id in s.pieces)
  {
    GetFrame(g, t.pieces, s.pieces, m);
  }

  lemma MintedManifest(g: Config, s: State, t: State, a: nat, p: PieceID, k: Identity, k': Identity)
    requires Minted(s, t, a, p, k) && k' in s.manifests && ManifestOk(g, s, k')
    ensures ManifestOk(g, t, k') && SameRead(g, s, t, k')
  {
    MintedReads(g, s, t, a, p, k, s.manifests[k']);
  }

  lemma MintedView(g: Config, s: State, t: State, a: nat, p: PieceID, k: Identity, m: Manifest, bytes: Bytes)
    requires Minted(s, t, a, p, k) && ViewOk(g, s, m, bytes) && Inv(g, s)
    ensures ViewOk(g, t, m, bytes)
  {
    MintedReads(g, s, t, a, p, k, m);
    if m.contentHash.None? {
      MintedReads(g, s, t, a, p, k, s.manifests[m.id]);
      if m.layout.Single? { assert m.layout.piece.id in IDs(m); }
    }
  }

  lemma MintedMade(g: Config, s: State, t: State, a: nat, p: PieceID, k: Identity, a': nat, made: Manifest,
                   bytes: Option<Bytes>)
    requires Minted(s, t, a, p, k) && MadeOk(g, s, a', made, bytes)
    ensures MadeOk(g, t, a', made, bytes)
  {
    MintedReads(g, s, t, a, p, k, made);
    assert made.layout.piece.id in IDs(made);
  }

  lemma MintedPending(g: Config, s: State, t: State, a: nat, p: PieceID, k: Identity, a': nat)
    requires Minted(s, t, a, p, k) && Inv(g, s) && a' in s.pending && a' in t.pending && t.pending[a'] == s.pending[a']
    ensures PendingOk(g, t, a')
  {
    assert PendingOk(g, s, a');
    match s.pending[a']
    case Viewing(m, bytes) => MintedView(g, s, t, a, p, k, m, bytes);
    case Copying(made, bytes) => MintedMade(g, s, t, a, p, k, a', made, Some(bytes));
    case Switching(made, prior) =>
      MintedMade(g, s, t, a, p, k, a', made, Get(g, s.pieces, made));
      MintedManifest(g, s, t, a, p, k, made.id);
    case Reclaiming(_, _) =>
  }

  lemma MintKeepsInv(g: Config, s: State, t: State, a: nat, p: PieceID, k: Identity)
    requires Minted(s, t, a, p, k) && Inv(g, s) && a in t.pending && PendingOk(g, t, a)
    requires forall a' :: a' in t.pending && a' != a ==> a' in s.pending && t.pending[a'] == s.pending[a']
    ensures Inv(g, t)
    ensures Keeps(g, s, t)
  {
    forall k' | k' in t.manifests
      ensures ManifestOk(g, t, k') && SameRead(g, s, t, k')
    {
      MintedManifest(g, s, t, a, p, k, k');
    }
    forall a' | a' in t.pending && a' != a
      ensures PendingOk(g, t, a')
    {
      MintedPending(g, s, t, a, p, k, a');
    }
  }

  // ---------------------------------------------------------------- a piece disappears

  /** `t` is `s` without piece `p`, which `a` alone may delete. */
  ghost predicate Dropped(s: State, t: State, p: PieceID) {
    && (t.pieces == s.pieces || t.pieces == s.pieces - {p})
    && t.manifests == s.manifests && t.owner == s.owner && (t.held == s.held || t.held == s.held - {p})
  }

  lemma DroppedReads(g: Config, s: State, t: State, p: PieceID, m: Manifest)
    requires Dropped(s, t, p) && p !in IDs(m)
    ensures Get(g, t.pieces, m) == Get(g, s.pieces, m)
  {
    GetFrame(g, t.pieces, s.pieces, m);
  }

  /** No manifest names `p`, no other actor holds it, and a stale view of it is of a single private piece. */
  ghost predicate Disposable(s: State, a: nat, p: PieceID) {
    && p in s.owner && s.owner[p].Some?
    && (p in s.held ==> s.held[p] == a)
    && (forall k :: k in s.manifests ==> p !in IDs(s.manifests[k]))
    && (p !in s.held ==> SingleNow(s, s.owner[p].value))
  }

  lemma DroppedManifest(g: Config, s: State, t: State, a: nat, p: PieceID, k: Identity)
    requires Dropped(s, t, p) && Disposable(s, a, p) && k in s.manifests && ManifestOk(g, s, k)
    ensures ManifestOk(g, t, k) && SameRead(g, s, t, k)
  {
    DroppedReads(g, s, t, p, s.manifests[k]);
  }

  lemma DroppedView(g: Config, s: State, t: State, a: nat, p: PieceID, m: Manifest, bytes: Bytes)
    requires Dropped(s, t, p) && Disposable(s, a, p) && ViewOk(g, s, m, bytes)
    ensures ViewOk(g, t, m, bytes)
  {
    if m.contentHash.None? { DroppedReads(g, s, t, p, s.manifests[m.id]); }
    if p !in IDs(m) {
      DroppedReads(g, s, t, p, m);
    } else {
      assert p !in s.held && s.owner[p] == Some(m.id);
      assert m.layout.Single? && m.layout.piece.id == p;
      if t.pieces == s.pieces {
        assert Get(g, t.pieces, m) == Get(g, s.pieces, m);
      } else {
        assert p !in t.pieces;
      }
    }
  }

  lemma DroppedMade(g: Config, s: State, t: State, a: nat, p: PieceID, a': nat, made: Manifest, bytes: Option<Bytes>)
    requires Dropped(s, t, p) && Disposable(s, a, p) && MadeOk(g, s, a', made, bytes) && a' != a
    ensures MadeOk(g, t, a', made, bytes)
  {
    assert made.layout.piece.id in IDs(made);
    assert p !in IDs(made);
    DroppedReads(g, s, t, p, made);
  }

  lemma DroppedPending(g: Config, s: State, t: State, a: nat, p: PieceID, a': nat)
    requires Dropped(s, t, p) && Disposable(s, a, p) && Inv(g, s)
    requires a' != a && a' in s.pending && a' in t.pending && t.pending[a'] == s.pending[a']
    ensures PendingOk(g, t, a')
  {
    assert PendingOk(g, s, a');
    match s.pending[a']
    case Viewing(m, bytes) => DroppedView(g, s, t, a, p, m, bytes);
    case Copying(made, bytes) => DroppedMade(g, s, t, a, p, a', made, Some(bytes));
    case Switching(made, prior) =>
      DroppedMade(g, s, t, a, p, a', made, Get(g, s.pieces, made));
      DroppedManifest(g, s, t, a, p, made.id);
    case Reclaiming(_, _) =>
  }

  // ---------------------------------------------------------------- a manifest is written

  /** Writing `made` replaces nothing, or a deduplicated object by another, or a private object by
      its re-sealed self. */
  ghost predicate Publishable(g: Config, s: State, a: nat, made: Manifest) {
    && MadeOk(g, s, a, made, Get(g, s.pieces, made))
    && made.id.version in s.owner && (made.contentHash.None? ==> s.owner[made.id.version] == Some(made.id))
    && (made.id in s.manifests ==>
          if made.contentHash.Some? then s.manifests[made.id].contentHash.Some?
          else SingleNow(s, made.id) && Private(g, s, made.id, Get(g, s.pieces, made)))
    && (made.contentHash.Some? || made.id !in s.manifests ==> made.id.version == made.layout.piece.id)
  }

  lemma PublishedManifest(g: Config, s: State, t: State, a: nat, made: Manifest, k: Identity)
    requires Publishable(g, s, a, made) && t == Published(s, made).(pending := t.pending) && k in t.manifests
    requires k in s.manifests ==> ManifestOk(g, s, k)
    ensures ManifestOk(g, t, k)
  {
    if k == made.id { assert IDs(made) !! t.held.Keys; }
  }

  lemma PublishedView(g: Config, s: State, t: State, a: nat, made: Manifest, m: Manifest, bytes: Bytes)
    requires Publishable(g, s, a, made) && t == Published(s, made).(pending := t.pending) && ViewOk(g, s, m, bytes)
    ensures ViewOk(g, t, m, bytes)
  {
    if m.contentHash.None? { assert Private(g, s, m.id, Some(bytes)); }
  }

  lemma PublishedMade(g: Config, s: State, t: State, a: nat, made: Manifest, a': nat, made': Manifest,
                      bytes: Option<Bytes>)
    requires Publishable(g, s, a, made) && t == Published(s, made).(pending := t.pending) && a' != a
    requires MadeOk(g, s, a', made', bytes)
    ensures MadeOk(g, t, a', made', bytes)
    ensures made'.contentHash.None? && made.contentHash.None? ==> made'.layout.piece.id != made.layout.piece.id
  {
    assert made.layout.piece.id in IDs(made) && made'.layout.piece.id in IDs(made');
  }

  lemma PublishedCopying(g: Config, s: State, t: State, a: nat, made: Manifest, a': nat)
    requires Publishable(g, s, a, made) && t == Published(s, made).(pending := t.pending) && a' != a
    requires a' in s.pending && PendingOk(g, s, a') && s.pending[a'].Copying?
    requires a' in t.pending && t.pending[a'] == s.pending[a']
    ensures PendingOk(g, t, a')
  {
    var made' := s.pending[a'].made;
    PublishedMade(g, s, t, a, made, a', made', Some(s.pending[a'].bytes));
    assert made'.layout.piece.id in IDs(made') && made.layout.piece.id in IDs(made);
  }

  lemma PublishedSwitching(g: Config, s: State, t: State, a: nat, made: Manifest, a': nat)
    requires Publishable(g, s, a, made) && t == Published(s, made).(pending := t.pending) && a' != a
    requires a' in s.pending && PendingOk(g, s, a') && s.pending[a'].Switching?
    requires a' in t.pending && t.pending[a'] == s.pending[a']
    ensures PendingOk(g, t, a')
  {
    var made' := s.pending[a'].made;
    PublishedMade(g, s, t, a, made, a', made', Get(g, s.pieces, made'));
  }

  lemma PublishedReclaiming(g: Config, s: State, t: State, a: nat, made: Manifest, a': nat)
    requires Publishable(g, s, a, made) && t == Published(s, made).(pending := t.pending)
    requires a' in s.pending && PendingOk(g, s, a') && s.pending[a'].Reclaiming?
    requires a' in t.pending && t.pending[a'] == s.pending[a']
    ensures PendingOk(g, t, a')
  {
    assert made.layout.piece.id in IDs(made);
  }

  lemma PublishedPending(g: Config, s: State, t: State, a: nat, made: Manifest, a': nat)
    requires Publishable(g, s, a, made) && t == Published(s, made).(pending := t.pending)
    requires a' != a && a' in s.pending && PendingOk(g, s, a') && a' in t.pending && t.pending[a'] == s.pending[a']
    ensures PendingOk(g, t, a')
  {
    match s.pending[a']
    case Viewing(m, bytes) => PublishedView(g, s, t, a, made, m, bytes);
    case Copying(_, _) => PublishedCopying(g, s, t, a, made, a');
    case Switching(_, _) => PublishedSwitching(g, s, t, a, made, a');
    case Reclaiming(_, _) => PublishedReclaiming(g, s, t, a, made, a');
  }

  // ---------------------------------------------------------------- only the actors change

  lemma SameManifest(g: Config, s: State, t: State, k: Identity)
    requires t == s.(pending := t.pending) && k in s.manifests && ManifestOk(g, s, k)
    ensures ManifestOk(g, t, k)
  {}

  lemma SamePending(g: Config, s: State, t: State, a: nat)
    requires t == s.(pending := t.pending) && a in s.pending && PendingOk(g, s, a)
    requires a in t.pending && t.pending[a] == s.pending[a]
    ensures PendingOk(g, t, a)
  {
    match s.pending[a]
    case Viewing(m, bytes) => assert ViewOk(g, t, m, bytes);
    case Copying(made, bytes) => assert MadeOk(g, t, a, made, Some(bytes));
    case Switching(made, _) => assert MadeOk(g, t, a, made, Get(g, s.pieces, made));
    case Reclaiming(_, _) =>
  }

  lemma OthersKeepInv(g: Config, s: State, t: State, a: nat)
    requires Inv(g, s) && t == s.(pending := t.pending)
    requires forall a' :: a' in t.pending && a' != a ==> a' in s.pending && t.pending[a'] == s.pending[a']
    requires a in t.pending ==> PendingOk(g, t, a)
    ensures Inv(g, t) && Keeps(g, s, t)
  {
    forall k | k in t.manifests
      ensures ManifestOk(g, t, k)
    {
      SameManifest(g, s, t, k);
    }
    forall a' | a' in t.pending && a' != a
      ensures PendingOk(g, t, a')
    {
      SamePending(g, s, t, a');
    }
  }

  // ---------------------------------------------------------------- one step

  lemma LoadKeepsInv(g: Config, s: State, a: nat, src: Identity)
    requires Inv(g, s) && Can(g, s, Load(a, src))
    ensures Inv(g, Do(g, s, Load(a, src))) && Keeps(g, s, Do(g, s, Load(a, src)))
  {
    assert ManifestOk(g, s, src);
    OthersKeepInv(g, s, Do(g, s, Load(a, src)), a);
  }

  lemma AbandonKeepsInv(g: Config, s: State, a: nat)
    requires Inv(g, s) && Can(g, s, Abandon(a))
    ensures Inv(g, Do(g, s, Abandon(a))) && Keeps(g, s, Do(g, s, Abandon(a)))
  {
    OthersKeepInv(g, s, Do(g, s, Abandon(a)), a);
  }

  /** A copy that can write still sees its source's bytes. */
  lemma ViewStillReads(g: Config, s: State, a: nat, q: Request)
    requires Inv(g, s) && Can(g, s, WriteCopy(a, q))
    ensures Get(g, s.pieces, s.pending[a].m) == Some(s.pending[a].bytes)
    ensures ViewOk(g, s, s.pending[a].m, s.pending[a].bytes)
  {
    assert PendingOk(g, s, a);
  }

  lemma NewVersionIsNew(g: Config, s: State, k: Identity)
    requires Inv(g, s) && k.version !in s.owner
    ensures k !in s.manifests
  {
    assert forall k' :: k' in s.manifests ==> ManifestOk(g, s, k');
  }

  lemma WriteCopyKeepsInv(g: Config, s: State, a: nat, q: Request)
    requires Sound(g) && Inv(g, s) && Can(g, s, WriteCopy(a, q))
    ensures Inv(g, Do(g, s, WriteCopy(a, q)))
    ensures Keeps(g, s, Do(g, s, WriteCopy(a, q)))
  {
    var t, m, bytes := CopyWritten(g, s, a, q), s.pending[a].m, s.pending[a].bytes;
    ViewStillReads(g, s, a, q);
    CopyPreservesBytes(g, q, s.pieces, m, bytes);
    CopyShape(g, q, s.pieces, m);
    var made := CopyWrite(g, q, s.pieces, m).value.1;
    if Shares(m, q) {
      ShareKeepsInv(g, s, t, a, q, made);
    } else {
      NewVersionIsNew(g, s, made.id);
      FreshCopyKeepsInv(g, s, t, a, q, made, bytes);
    }
  }

  lemma FreshCopyKeepsInv(g: Config, s: State, t: State, a: nat, q: Request, made: Manifest, bytes: Bytes)
    requires Inv(g, s) && Minted(s, t, a, q.newID, made.id) && t.pending == s.pending[a := Copying(made, bytes)]
    requires WellFormed(made) && made.layout.Single? && made.layout.piece.id == q.newID == made.id.version
    requires made.contentHash.None? && made.id !in s.manifests && Get(g, t.pieces, made) == Some(bytes)
    ensures Inv(g, t)
    ensures Keeps(g, s, t)
  {
    assert IDs(made) == {q.newID};
    assert MadeOk(g, t, a, made, Some(bytes));
    MintKeepsInv(g, s, t, a, q.newID, made.id);
  }

  lemma ShareKeepsInv(g: Config, s: State, t: State, a: nat, q: Request, made: Manifest)
    requires Inv(g, s) && a in s.pending && s.pending[a].Viewing? && ViewOk(g, s, s.pending[a].m, s.pending[a].bytes)
    requires s.pending[a].m.layout.Single? && s.pending[a].m.contentHash.Some?
    requires made == s.pending[a].m.(id := Named(q.dst, s.pending[a].m.layout.piece.id)) && WellFormed(made)
    requires Get(g, s.pieces, made) == Some(s.pending[a].bytes)
    requires t == s.(pending := s.pending[a := Copying(made, s.pending[a].bytes)])
    ensures Inv(g, t)
  {
    assert IDs(made) == IDs(s.pending[a].m);
    OthersKeepInv(g, s, t, a);
  }

  /** Writing a manifest keeps the invariant. */
  lemma PublishKeepsInv(g: Config, s: State, t: State, a: nat, made: Manifest)
    requires Inv(g, s) && Publishable(g, s, a, made) && t == Published(s, made).(pending := t.pending)
    requires forall a' :: a' in t.pending && a' != a ==> a' in s.pending && t.pending[a'] == s.pending[a']
    requires a in t.pending ==> PendingOk(g, t, a)
    ensures Inv(g, t)
  {
    forall k | k in t.manifests
      ensures ManifestOk(g, t, k)
    {
      PublishedManifest(g, s, t, a, made, k);
    }
    forall a' | a' in t.pending && a' != a
      ensures PendingOk(g, t, a')
    {
      PublishedPending(g, s, t, a, made, a');
    }
  }

  lemma PublishReads(g: Config, s: State, t: State, a: nat, made: Manifest)
    requires Publishable(g, s, a, made) && t == Published(s, made).(pending := t.pending)
    ensures forall k :: k in s.manifests && k != made.id ==> SameRead(g, s, t, k)
    ensures made.contentHash.None? ==> Keeps(g, s, t)
  {}

  lemma CommitCopyKeepsInv(g: Config, s: State, a: nat)
    requires Inv(g, s) && Can(g, s, CommitCopy(a))
    ensures Inv(g, Do(g, s, CommitCopy(a)))
    ensures Get(g, s.pieces, s.pending[a].made) == Some(s.pending[a].bytes)
    ensures forall k :: k in s.manifests && k != s.pending[a].made.id ==> SameRead(g, s, Do(g, s, CommitCopy(a)), k)
  {
    var t, made := Do(g, s, CommitCopy(a)), s.pending[a].made;
    assert PendingOk(g, s, a);
    assert made.layout.piece.id in IDs(made);
    if made.contentHash.Some? && made.id in s.manifests {
      assert ManifestOk(g, s, made.id);
    }
    PublishKeepsInv(g, s, t, a, made);
    PublishReads(g, s, t, a, made);
  }

  lemma SwitchKeepsInv(g: Config, s: State, a: nat)
    requires Inv(g, s) && Can(g, s, Switch(a))
    ensures Inv(g, Do(g, s, Switch(a))) && Keeps(g, s, Do(g, s, Switch(a)))
  {
    var t, made := Do(g, s, Switch(a)), s.pending[a].made;
    assert PendingOk(g, s, a);
    assert made.layout.piece.id in IDs(made);
    assert ManifestOk(g, s, made.id);
    PublishKeepsInv(g, s, t, a, made);
    PublishReads(g, s, t, a, made);
  }

  lemma ResealKeepsInv(g: Config, s: State, a: nat, newID: PieceID, draw: Draw)
    requires Sound(g) && Inv(g, s) && Can(g, s, Reseal(a, newID, draw))
    ensures Inv(g, Do(g, s, Reseal(a, newID, draw)))
    ensures Keeps(g, s, Do(g, s, Reseal(a, newID, draw)))
  {
    var m, bytes := s.pending[a].m, s.pending[a].bytes;
    assert PendingOk(g, s, a);
    assert m.layout.piece.id in IDs(m);
    ResealedReads(g, s.pieces, m, newID, draw, bytes);
    var made := Resealed(g, s.pieces, m, newID, draw).value.1;
    FreshSealKeepsInv(g, s, Resealing(g, s, a, m, newID, draw), a, newID, made, m.layout.piece.id, bytes);
  }

  lemma FreshSealKeepsInv(g: Config, s: State, t: State, a: nat, newID: PieceID, made: Manifest, prior: PieceID,
                          bytes: Bytes)
    requires Inv(g, s) && Minted(s, t, a, newID, made.id) && t.pending == s.pending[a := Switching(made, prior)]
    requires WellFormed(made) && made.layout.Single? && made.layout.piece.id == newID && made.contentHash.None?
    requires Get(g, t.pieces, made) == Some(bytes) && PriorOk(s, made.id, prior)
    requires SingleNow(s, made.id) && Private(g, s, made.id, Some(bytes))
    ensures Inv(g, t)
    ensures Keeps(g, s, t)
  {
    assert IDs(made) == {newID};
    assert MadeOk(g, t, a, made, Some(bytes));
    MintedManifest(g, s, t, a, newID, made.id, made.id);
    MintKeepsInv(g, s, t, a, newID, made.id);
  }

  lemma DropKeepsInv(g: Config, s: State, t: State, a: nat, p: PieceID)
    requires Inv(g, s) && Dropped(s, t, p) && Disposable(s, a, p) && t.pending == s.pending - {a}
    ensures Inv(g, t)
    ensures Keeps(g, s, t)
  {
    forall k | k in t.manifests
      ensures ManifestOk(g, t, k) && SameRead(g, s, t, k)
    {
      DroppedManifest(g, s, t, a, p, k);
    }
    forall a' | a' in t.pending
      ensures PendingOk(g, t, a')
    {
      DroppedPending(g, s, t, a, p, a');
    }
  }

  lemma HeldIsDisposable(g: Config, s: State, a: nat, made: Manifest, bytes: Option<Bytes>)
    requires Inv(g, s) && MadeOk(g, s, a, made, bytes) && made.contentHash.None?
    ensures Disposable(s, a, made.layout.piece.id)
  {
    assert made.layout.piece.id in IDs(made);
    forall k | k in s.manifests
      ensures made.layout.piece.id !in IDs(s.manifests[k])
    {
      assert ManifestOk(g, s, k);
    }
  }

  lemma DiscardKeepsInv(g: Config, s: State, t: State, a: nat, made: Manifest, cleanup: bool, bytes: Option<Bytes>)
    requires Inv(g, s) && MadeOk(g, s, a, made, bytes)
    requires t == Discarded(s, made, cleanup).(pending := s.pending - {a})
    ensures Inv(g, t)
    ensures Keeps(g, s, t)
  {
    if made.contentHash.None? {
      HeldIsDisposable(g, s, a, made, bytes);
      assert IDs(made) == {made.layout.piece.id};
      DropKeepsInv(g, s, t, a, made.layout.piece.id);
    } else {
      OthersKeepInv(g, s, t, a);
    }
  }

  lemma ReclaimKeepsInv(g: Config, s: State, a: nat, deleted: bool)
    requires Inv(g, s) && Can(g, s, Reclaim(a, deleted))
    ensures Inv(g, Do(g, s, Reclaim(a, deleted)))
    ensures Keeps(g, s, Do(g, s, Reclaim(a, deleted)))
  {
    var t, prior := Do(g, s, Reclaim(a, deleted)), s.pending[a].prior;
    assert PendingOk(g, s, a);
    forall k | k in s.manifests
      ensures prior !in IDs(s.manifests[k])
    {
      assert ManifestOk(g, s, k);
    }
    DropKeepsInv(g, s, t, a, prior);
  }

  lemma AbortCopyKeepsInv(g: Config, s: State, a: nat, cleanup: bool)
    requires Inv(g, s) && Can(g, s, AbortCopy(a, cleanup))
    ensures Inv(g, Do(g, s, AbortCopy(a, cleanup)))
    ensures Keeps(g, s, Do(g, s, AbortCopy(a, cleanup)))
  {
    assert PendingOk(g, s, a);
    DiscardKeepsInv(g, s, Do(g, s, AbortCopy(a, cleanup)), a, s.pending[a].made, cleanup, Some(s.pending[a].bytes));
  }

  lemma AbortSwitchKeepsInv(g: Config, s: State, a: nat, cleanup: bool)
    requires Inv(g, s) && Can(g, s, AbortSwitch(a, cleanup))
    ensures Inv(g, Do(g, s, AbortSwitch(a, cleanup)))
    ensures Keeps(g, s, Do(g, s, AbortSwitch(a, cleanup)))
  {
    assert PendingOk(g, s, a);
    var made := s.pending[a].made;
    DiscardKeepsInv(g, s, Do(g, s, AbortSwitch(a, cleanup)), a, made, cleanup, Get(g, s.pieces, made));
  }

  lemma StepKeepsInv(g: Config, s: State, step: Step)
    requires Sound(g) && Inv(g, s) && Can(g, s, step)
    ensures Inv(g, Do(g, s, step))
  {
    match step
    case Load(a, src) => LoadKeepsInv(g, s, a, src);
    case WriteCopy(a, q) => WriteCopyKeepsInv(g, s, a, q);
    case CommitCopy(a) => CommitCopyKeepsInv(g, s, a);
    case AbortCopy(a, cleanup) => AbortCopyKeepsInv(g, s, a, cleanup);
    case Reseal(a, newID, draw) => ResealKeepsInv(g, s, a, newID, draw);
    case Switch(a) => SwitchKeepsInv(g, s, a);
    case AbortSwitch(a, cleanup) => AbortSwitchKeepsInv(g, s, a, cleanup);
    case Reclaim(a, deleted) => ReclaimKeepsInv(g, s, a, deleted);
    case Abandon(a) => AbandonKeepsInv(g, s, a);
  }

  /** The step is the commit of a copy to k. */
  predicate Commits(s: State, step: Step, k: Identity) {
    step.CommitCopy? && step.actor in s.pending && s.pending[step.actor].Copying? && s.pending[step.actor].made.id == k
  }

  lemma StepIsStable(g: Config, s: State, step: Step, k: Identity)
    requires Sound(g) && Inv(g, s) && Can(g, s, step) && k in s.manifests && !Commits(s, step, k)
    ensures SameRead(g, s, Do(g, s, step), k)
  {
    match step
    case Load(a, src) => LoadKeepsInv(g, s, a, src);
    case WriteCopy(a, q) => WriteCopyKeepsInv(g, s, a, q);
    case CommitCopy(a) => CommitCopyKeepsInv(g, s, a);
    case AbortCopy(a, cleanup) => AbortCopyKeepsInv(g, s, a, cleanup);
    case Reseal(a, newID, draw) => ResealKeepsInv(g, s, a, newID, draw);
    case Switch(a) => SwitchKeepsInv(g, s, a);
    case AbortSwitch(a, cleanup) => AbortSwitchKeepsInv(g, s, a, cleanup);
    case Reclaim(a, deleted) => ReclaimKeepsInv(g, s, a, deleted);
    case Abandon(a) => AbandonKeepsInv(g, s, a);
  }

  /** A commit or switch stores exactly its manifest and makes it current; no other step touches a manifest. */
  lemma StepPublishes(g: Config, s: State, step: Step)
    requires Can(g, s, step)
    ensures var t := Do(g, s, step);
            if step.CommitCopy? || step.Switch?
            then var made := s.pending[step.actor].made;
                 && t.manifests == s.manifests[made.id := made] && t.pieces == s.pieces
                 && t.latest == s.latest[NameOf(made.id) := made.id]
            else t.manifests == s.manifests && t.latest == s.latest
  {}

  /** An aborted copy or migration takes its own piece away again, and a finished one the piece it replaced. */
  lemma StepCleansUp(g: Config, s: State, step: Step)
    requires Can(g, s, step)
    ensures var t := Do(g, s, step);
            && (step == AbortCopy(step.actor, true) || step == AbortSwitch(step.actor, true) ==>
                  s.pending[step.actor].made.contentHash.None? ==> IDs(s.pending[step.actor].made) !! t.pieces.Keys)
            && (step == Reclaim(step.actor, true) ==> s.pending[step.actor].prior !in t.pieces)
            && (step.Abandon? || step.Load? || step == AbortCopy(step.actor, false)
                || step == AbortSwitch(step.actor, false) || step == Reclaim(step.actor, false) ==>
                  t.pieces == s.pieces)
  {}

  // ---------------------------------------------------------------- whole runs

  /** A run: the states it passes through and the steps between them. */
  ghost predicate IsRun(g: Config, states: seq<State>, steps: seq<Step>) {
    && |states| == |steps| + 1
    && forall i {:trigger steps[i]} :: 0 <= i < |steps| ==>
         Can(g, states[i], steps[i]) && states[i + 1] == Do(g, states[i], steps[i])
  }

  /** A settled store: readable, well-labelled objects and nothing in flight. */
  ghost predicate Start(g: Config, s: State) { Inv(g, s) && s.pending == map[] && s.held == map[] }

  /** Runs can start from any readable object, whatever its shape and envelope. */
  lemma AnyObjectStarts(g: Config, pieces: Pieces, m: Manifest, latest: Latest)
    requires WellFormed(m) && Get(g, pieces, m).Some?
    ensures var owner := if m.contentHash.Some? then None else Some(m.id);
            Start(g, State(pieces, map[m.id := m], latest, map p | p in IDs(m) + {m.id.version} :: owner, map[], map[]))
  {
    var owner := if m.contentHash.Some? then None else Some(m.id);
    var s := State(pieces, map[m.id := m], latest, map p | p in IDs(m) + {m.id.version} :: owner, map[], map[]);
    assert ManifestOk(g, s, m.id);
  }

  lemma {:induction false} RunKeepsInv(g: Config, states: seq<State>, steps: seq<Step>, i: nat)
    requires Sound(g) && IsRun(g, states, steps) && Start(g, states[0]) && i < |states|
    ensures Inv(g, states[i])
  {
    if i > 0 {
      RunKeepsInv(g, states, steps, i - 1);
      StepKeepsInv(g, states[i - 1], steps[i - 1]);
    }
  }

  /** At every moment of every run, every object is readable. */
  lemma EveryObjectReads(g: Config, states: seq<State>, steps: seq<Step>, i: nat, k: Identity)
    requires Sound(g) && IsRun(g, states, steps) && Start(g, states[0]) && i < |states| && k in states[i].manifests
    ensures Get(g, states[i].pieces, states[i].manifests[k]).Some?
  {
    RunKeepsInv(g, states, steps, i);
    assert ManifestOk(g, states[i], k);
  }

  /** What a GET of k returns now; None while there is no such object. */
  ghost function ReadNow(g: Config, s: State, k: Identity): Option<Bytes> {
    if k in s.manifests then Get(g, s.pieces, s.manifests[k]) else None
  }

  /** The same at every moment of a run. */
  ghost function ReadsOf(g: Config, states: seq<State>, k: Identity): (f: seq<Option<Bytes>>)
    ensures |f| == |states| && forall n :: 0 <= n < |f| ==> f[n] == ReadNow(g, states[n], k)
  {
    seq(|states|, n requires 0 <= n < |states| => ReadNow(g, states[n], k))
  }

  lemma RunStepIsStable(g: Config, states: seq<State>, steps: seq<Step>, n: nat, k: Identity)
    requires Sound(g) && IsRun(g, states, steps) && Start(g, states[0]) && n < |steps|
    requires !Commits(states[n], steps[n], k) && ReadsOf(g, states, k)[n].Some?
    ensures ReadsOf(g, states, k)[n + 1] == ReadsOf(g, states, k)[n]
  {
    RunKeepsInv(g, states, steps, n);
    StepIsStable(g, states[n], steps[n], k);
  }

  lemma {:induction false} Chain<T>(f: seq<Option<T>>, i: nat, j: nat)
    requires i <= j < |f| && f[i].Some? && forall n :: i <= n < j && f[n].Some? ==> f[n + 1] == f[n]
    ensures f[j] == f[i]
  {
    if i < j { Chain(f, i, j - 1); }
  }

  /**
    No step of any copy or migration, completed, failed or abandoned, changes the
    bytes of an object that is not the destination of a copy committed meanwhile.
   */
  lemma BytesAreStable(g: Config, states: seq<State>, steps: seq<Step>, i: nat, j: nat, k: Identity)
    requires Sound(g) && IsRun(g, states, steps) && Start(g, states[0]) && i <= j < |states|
    requires k in states[i].manifests && forall n {:trigger steps[n]} :: i <= n < j ==> !Commits(states[n], steps[n], k)
    ensures ReadNow(g, states[i], k).Some? && ReadNow(g, states[j], k) == ReadNow(g, states[i], k)
  {
    EveryObjectReads(g, states, steps, i, k);
    forall n | i <= n < j && ReadsOf(g, states, k)[n].Some?
      ensures ReadsOf(g, states, k)[n + 1] == ReadsOf(g, states, k)[n]
    {
      assert !Commits(states[n], steps[n], k);
      RunStepIsStable(g, states, steps, n, k);
    }
    Chain(ReadsOf(g, states, k), i, j);
  }

  /** Actor a's steps between i and j are none. */
  ghost predicate Idle(steps: seq<Step>, a: nat, i: nat, j: nat)
    requires j <= |steps|
  {
    forall n :: i <= n < j ==> steps[n].actor != a
  }

  lemma {:induction false} PendingWaits(g: Config, states: seq<State>, steps: seq<Step>, a: nat, i: nat, j: nat)
    requires IsRun(g, states, steps) && i <= j < |states| && Idle(steps, a, i, j) && a in states[i].pending
    ensures a in states[j].pending && states[j].pending[a] == states[i].pending[a]
  {
    if i < j {
      PendingWaits(g, states, steps, a, i, j - 1);
      StepLeavesOthers(g, states[j - 1], steps[j - 1], a);
    }
  }

  lemma StepLeavesOthers(g: Config, s: State, step: Step, a: nat)
    requires Can(g, s, step) && step.actor != a && a in s.pending
    ensures a in Do(g, s, step).pending && Do(g, s, step).pending[a] == s.pending[a]
  {}

  lemma LoadRemembers(g: Config, states: seq<State>, steps: seq<Step>, i: nat, a: nat, src: Identity)
    requires Sound(g) && IsRun(g, states, steps) && Start(g, states[0]) && i < |steps| && steps[i] == Load(a, src)
    ensures src in states[i].manifests && a in states[i + 1].pending && states[i + 1].pending[a].Viewing?
    ensures Get(g, states[i].pieces, states[i].manifests[src]) == Some(states[i + 1].pending[a].bytes)
  {
    assert Can(g, states[i], steps[i]) && states[i + 1] == Do(g, states[i], steps[i]);
    EveryObjectReads(g, states, steps, i, src);
  }

  lemma WriteRemembers(g: Config, states: seq<State>, steps: seq<Step>, j: nat, a: nat, q: Request)
    requires IsRun(g, states, steps) && j < |steps| && steps[j] == WriteCopy(a, q)
    ensures a in states[j].pending && states[j].pending[a].Viewing?
    ensures a in states[j + 1].pending && states[j + 1].pending[a].Copying?
    ensures states[j + 1].pending[a].bytes == states[j].pending[a].bytes
    ensures NameOf(states[j + 1].pending[a].made.id) == q.dst
  {
    assert Can(g, states[j], steps[j]) && states[j + 1] == Do(g, states[j], steps[j]);
    CopyShape(g, q, states[j].pieces, states[j].pending[a].m);
  }

  lemma CommitReads(g: Config, states: seq<State>, steps: seq<Step>, n: nat, a: nat)
    requires Sound(g) && IsRun(g, states, steps) && Start(g, states[0]) && n < |steps| && steps[n] == CommitCopy(a)
    ensures a in states[n].pending && states[n].pending[a].Copying?
    ensures var dst := states[n].pending[a].made.id;
            && dst in states[n + 1].manifests
            && Get(g, states[n + 1].pieces, states[n + 1].manifests[dst]) == Some(states[n].pending[a].bytes)
  {
    assert Can(g, states[n], steps[n]) && states[n + 1] == Do(g, states[n], steps[n]);
    RunKeepsInv(g, states, steps, n);
    CommitCopyKeepsInv(g, states[n], a);
  }

  /** From its load until its write a copy remembers what its source read as ... */
  lemma RemembersUntilWrite(g: Config, states: seq<State>, steps: seq<Step>, a: nat, src: Identity, i: nat, j: nat)
    requires Sound(g) && IsRun(g, states, steps) && Start(g, states[0]) && i < j < |steps|
    requires steps[i] == Load(a, src) && Idle(steps, a, i + 1, j)
    ensures a in states[j].pending && states[j].pending[a].Viewing?
    ensures ReadNow(g, states[i], src) == Some(states[j].pending[a].bytes) && src in states[i].manifests
  {
    LoadRemembers(g, states, steps, i, a, src);
    PendingWaits(g, states, steps, a, i + 1, j);
  }

  /** ... and from then until its commit. */
  lemma RemembersUntilCommit(g: Config, states: seq<State>, steps: seq<Step>, a: nat, q: Request, j: nat, n: nat)
    requires IsRun(g, states, steps) && j < n < |steps| && steps[j] == WriteCopy(a, q) && Idle(steps, a, j + 1, n)
    ensures a in states[j].pending && states[j].pending[a].Viewing?
    ensures a in states[n].pending && states[n].pending[a].Copying?
    ensures states[n].pending[a].bytes == states[j].pending[a].bytes
    ensures NameOf(states[n].pending[a].made.id) == q.dst
  {
    WriteRemembers(g, states, steps, j, a, q);
    PendingWaits(g, states, steps, a, j + 1, n);
  }

  /**
    The law of COPY: a copy that loads its source at step i, writes at step j and
    commits at step n, with any steps of any other actors in between, leaves a
    destination that reads exactly as the source read when it was loaded.
   */
  lemma CopyReadsAsSource(g: Config, states: seq<State>, steps: seq<Step>, a: nat, src: Identity, q: Request,
                          i: nat, j: nat, n: nat)
    requires Sound(g) && IsRun(g, states, steps) && Start(g, states[0]) && i < j < n < |steps|
    requires steps[i] == Load(a, src) && steps[j] == WriteCopy(a, q) && steps[n] == CommitCopy(a)
    requires Idle(steps, a, i + 1, j) && Idle(steps, a, j + 1, n)
    ensures a in states[n].pending && states[n].pending[a].Copying?
    ensures var dst := states[n].pending[a].made.id;
            && src in states[i].manifests && dst in states[n + 1].manifests
            && Get(g, states[n + 1].pieces, states[n + 1].manifests[dst])
            == Get(g, states[i].pieces, states[i].manifests[src])
  {
    RemembersUntilWrite(g, states, steps, a, src, i, j);
    RemembersUntilCommit(g, states, steps, a, q, j, n);
    CommitReads(g, states, steps, n, a);
  }
}
