/**
  Safety of the dedup protocol: in every run, every committed manifest names a
  piece that exists, and the refcount of an index row is at least the number of
  manifests and in-flight requests that rely on it.
 */
module DedupSafety {
  import opened Wrappers
  import opened DedupProtocol

  // ---------------------------------------------------------------- counting references

  /** The index row a request counts on: it has incremented it, or has removed the manifest that had. */
  function Held(pc: Pc): Option<Key> {
    match pc
    case PutDropDuplicate(_, k, _) => Some(k)
    case PutRelookup(_, k) => Some(k)
    case PutCommit(_, k, _) => Some(k)
    case Rollback(k) => Some(k)
    case CopyCommit(_, k, _) => Some(k)
    case DeleteDecrement(k, _) => Some(k)
    case _ => None
  }

  predicate Holds(pc: Pc, k: Key) {
    Held(pc) == Some(k)
  }

  ghost function HolderReqs(reqs: map<ReqId, Pc>, k: Key): set<ReqId> {
    set r | r in reqs && Holds(reqs[r], k)
  }

  ghost function HolderManifests(ms: map<MKey, Manifest>, k: Key): set<MKey> {
    set mk | mk in ms && ms[mk].hash == Some(k)
  }

  ghost function RefCount(st: Store, k: Key): nat {
    if k in st.index then st.index[k].refCount else 0
  }

  function Ind(b: bool): nat { if b then 1 else 0 }

  lemma HolderReqsUpdate(reqs: map<ReqId, Pc>, r: ReqId, pc: Pc, k: Key)
    ensures |HolderReqs(reqs[r := pc], k)| ==
            |HolderReqs(reqs, k)| - Ind(r in reqs && Holds(reqs[r], k)) + Ind(Holds(pc, k))
  {
    var holds := (pc: Pc) => Holds(pc, k);
    assert HolderReqs(reqs, k) == Selected(reqs, holds);
    assert HolderReqs(reqs[r := pc], k) == Selected(reqs[r := pc], holds);
    SelectedUpdate(reqs, r, pc, holds);
  }

  ghost function Selected<K, V>(m: map<K, V>, p: V -> bool): set<K> { set x | x in m && p(m[x]) }

  lemma SelectedUpdate<K, V>(m: map<K, V>, x: K, v: V, p: V -> bool)
    ensures |Selected(m[x := v], p)| == |Selected(m, p)| - Ind(x in m && p(m[x])) + Ind(p(v))
  {
    DifferAt(Selected(m, p), Selected(m[x := v], p), x);
  }

  /** Sets that differ at most at x. */
  lemma DifferAt<T>(a: set<T>, b: set<T>, x: T)
    requires forall y :: y != x ==> (y in a <==> y in b)
    ensures |b| + Ind(x in a) == |a| + Ind(x in b)
  {
    assert a - {x} == b - {x};
    Without(a, x);
    Without(b, x);
  }

  lemma Without<T>(s: set<T>, x: T)
    ensures |s| == |s - {x}| + Ind(x in s)
  {
    if x in s { assert s == (s - {x}) + {x}; } else { assert s == s - {x}; }
  }

  lemma HolderManifestsPut(ms: map<MKey, Manifest>, mk: MKey, m: Manifest, k: Key)
    ensures |HolderManifests(ms[mk := m], k)| ==
            |HolderManifests(ms, k)| - Ind(mk in ms && ms[mk].hash == Some(k)) + Ind(m.hash == Some(k))
  {
    var rest := HolderManifests(ms, k) - {mk};
    assert HolderManifests(ms[mk := m], k) == if m.hash == Some(k) then rest + {mk} else rest;
    assert HolderManifests(ms, k) == if mk in ms && ms[mk].hash == Some(k) then rest + {mk} else rest;
  }

  lemma HolderManifestsDrop(ms: map<MKey, Manifest>, mk: MKey, k: Key)
    ensures |HolderManifests(ms - {mk}, k)| == |HolderManifests(ms, k)| - Ind(mk in ms && ms[mk].hash == Some(k))
  {
    var rest := HolderManifests(ms, k) - {mk};
    assert HolderManifests(ms - {mk}, k) == rest;
    assert HolderManifests(ms, k) == if mk in ms && ms[mk].hash == Some(k) then rest + {mk} else rest;
  }

  // ---------------------------------------------------------------- the invariant

  ghost predicate HasRole(st: Store, p: Id, role: Role) {
    p in st.role && st.role[p] == role
  }

  ghost predicate Unpublished(st: Store, p: Id, r: ReqId) {
    HasRole(st, p, Private(r)) && p in st.pieces && p !in st.versionHash
  }

  ghost predicate RowOk(st: Store, k: Key)
    requires k in st.index
  {
    var p := st.index[k].piece;
    HasRole(st, p, Shared(k)) && p in st.pieces && st.pieces[p] == k.hash
  }

  ghost predicate RoleOk(st: Store, p: Id)
    requires p in st.role
  {
    match st.role[p]
    case Shared(k) => k in st.index && st.index[k].piece == p && p in st.versionHash && st.versionHash[p] == Some(k)
    case Solo(mk) => mk in st.manifests && st.manifests[mk] == Manifest(None, p)
    case Private(_) => p !in st.versionHash
    case _ => true
  }

  ghost predicate ManifestOk(st: Store, mk: MKey)
    requires mk in st.manifests
  {
    var m := st.manifests[mk];
    && mk.version in st.versionHash && st.versionHash[mk.version] == m.hash
    && match m.hash
       case Some(k) => k.tenant == mk.obj.tenant && k in st.index && st.index[k].piece == m.piece
       case None => HasRole(st, m.piece, Solo(mk)) && m.piece in st.pieces
  }

  ghost predicate StoreOk(st: Store) {
    && (forall k :: k in st.index ==> RowOk(st, k))
    && (forall p :: p in st.role ==> RoleOk(st, p))
    && (forall mk :: mk in st.manifests ==> ManifestOk(st, mk))
    && (forall v :: v in st.versionHash ==> v in st.role)
  }

  /** A piece without ContentHash that a request read from version mk. */
  ghost predicate SoloOrRetired(st: Store, mk: MKey, p: Id) {
    && mk.version in st.versionHash && st.versionHash[mk.version] == None
    && (HasRole(st, p, Solo(mk)) || HasRole(st, p, Retired))
  }

  ghost predicate PcOk(st: Store, r: ReqId, pc: Pc) {
    match pc
    case PutLookup(obj, k) => k.tenant == obj.tenant
    case PutIncrement(obj, k, _) => k.tenant == obj.tenant
    case PutWrite(obj, k) => k.tenant == obj.tenant
    case PutRegister(obj, k, p) => k.tenant == obj.tenant && Unpublished(st, p, r) && st.pieces[p] == k.hash
    case PutRaceIncrement(obj, k, p) => k.tenant == obj.tenant && HasRole(st, p, Retired)
    case PutDropDuplicate(obj, k, p) => k.tenant == obj.tenant && HasRole(st, p, Retired)
    case PutRelookup(obj, k) => k.tenant == obj.tenant
    case PutCommit(obj, k, p) => k.tenant == obj.tenant && k in st.index && st.index[k].piece == p
    case PlainCommit(_, p) => Unpublished(st, p, r)
    case CopyGet(src, dst) => src.tenant == dst.tenant
    case CopyIncrement(dst, k, _) => k.tenant == dst.tenant
    case CopyCommit(dst, k, p) => k.tenant == dst.tenant && k in st.index && st.index[k].piece == p
    case DeleteManifest(mk, Manifest(Some(_), _)) => mk in st.manifests && st.manifests[mk] == pc.manifest
    case DeleteManifest(mk, Manifest(None, p)) => SoloOrRetired(st, mk, p)
    case DeleteDecrement(k, p) => k in st.index && st.index[k].piece == p
    case DeleteRow(k, p) => HasRole(st, p, Shared(k)) || HasRole(st, p, Retired)
    case Reclaim(p) => HasRole(st, p, Retired)
    case MigrateWrite(mk, p) => SoloOrRetired(st, mk, p)
    case MigrateSwitch(mk, p, q) => SoloOrRetired(st, mk, p) && Unpublished(st, q, r)
    case _ => true
  }

  ghost predicate RequestsOk(s: State) {
    && (forall r :: r in s.reqs ==> PcOk(s.store, r, s.reqs[r]))
    && (forall r, r' ::
          (r in s.reqs && r' in s.reqs && r != r' && s.reqs[r].DeleteManifest? && s.reqs[r'].DeleteManifest?)
          ==> s.reqs[r].mkey != s.reqs[r'].mkey)
  }

  ghost function Refs(s: State, k: Key): nat {
    |HolderManifests(s.store.manifests, k)| + |HolderReqs(s.reqs, k)|
  }

  ghost predicate CountsOk(s: State) {
    forall k :: Refs(s, k) <= RefCount(s.store, k)
  }

  ghost predicate Inv(s: State) {
    StoreOk(s.store) && RequestsOk(s) && CountsOk(s)
  }

  /** What the property promises of a single state. */
  ghost predicate Safe(s: State) {
    && (forall mk :: mk in s.store.manifests ==>
          && s.store.manifests[mk].piece in s.store.pieces
          && (s.store.manifests[mk].hash.Some? ==>
                && var k := s.store.manifests[mk].hash.value;
                && k.tenant == mk.obj.tenant
                && s.store.pieces[s.store.manifests[mk].piece] == k.hash
                && k in s.store.index && s.store.index[k].piece == s.store.manifests[mk].piece))
    && (forall k :: k in s.store.index ==> s.store.index[k].piece in s.store.pieces)
    && (forall k :: Refs(s, k) <= RefCount(s.store, k))
  }

  // ---------------------------------------------------------------- what a step may change for the others

  /** How a step of request r may change the store, as far as the other requests can tell. */
  ghost predicate Evolves(s: State, st': Store, r: ReqId) {
    var st := s.store;
    && RolesEvolve(st, st', r) && PrivateKept(st, st', r)
    && (forall v :: v in st.versionHash ==> v in st'.versionHash && st'.versionHash[v] == st.versionHash[v])
    && (forall k, r' :: r' in s.reqs && r' != r && Holds(s.reqs[r'], k) && k in st.index ==>
          k in st'.index && st'.index[k].piece == st.index[k].piece)
    && (forall mk :: mk in st.manifests && st.manifests[mk].hash.Some? ==>
          (mk in st'.manifests && st'.manifests[mk] == st.manifests[mk]) ||
          (r in s.reqs && s.reqs[r].DeleteManifest? && s.reqs[r].mkey == mk))
  }

  /** Only the acting request changes the role of a piece of its own; others at most retire. */
  ghost predicate RolesEvolve(st: Store, st': Store, r: ReqId) {
    forall p :: p in st.role ==>
      p in st'.role && (st'.role[p] == st.role[p] || st'.role[p] == Retired || st.role[p] == Private(r))
  }

  /** Pieces other requests hold privately are untouched and still unpublished. */
  ghost predicate PrivateKept(st: Store, st': Store, r: ReqId) {
    forall p :: p in st.role && st.role[p].Private? && st.role[p] != Private(r) ==>
      && p in st'.role && st'.role[p] == st.role[p]
      && (p in st.pieces ==> p in st'.pieces && st'.pieces[p] == st.pieces[p])
      && (p in st'.versionHash ==> p in st.versionHash)
  }

  lemma OthersOk(s: State, st': Store, r: ReqId, r': ReqId)
    requires Inv(s) && r in s.reqs && r' in s.reqs && r' != r
    requires Evolves(s, st', r)
    ensures PcOk(st', r', s.reqs[r'])
  {
    assert PcOk(s.store, r', s.reqs[r']);
    var pc := s.reqs[r'];
    if pc.PutCommit? || pc.CopyCommit? || pc.DeleteDecrement? {
      assert Holds(pc, pc.key);
    }
  }

  ghost predicate OnlyDeleter(s: State, r: ReqId, pc: Pc) {
    pc.DeleteManifest? ==>
      forall r' :: r' in s.reqs && r' != r && s.reqs[r'].DeleteManifest? ==> s.reqs[r'].mkey != pc.mkey
  }

  /** A step keeps the invariant once it is clear what it did to the store, to itself and to the counts. */
  lemma Assemble(s: State, st': Store, r: ReqId, pc': Pc)
    requires Inv(s) && r in s.reqs
    requires Evolves(s, st', r) && StoreOk(st')
    requires PcOk(st', r, pc') && OnlyDeleter(s, r, pc')
    requires CountsOk(State(st', s.reqs[r := pc']))
    ensures Inv(State(st', s.reqs[r := pc']))
  {
    forall r' | r' in s.reqs && r' != r ensures PcOk(st', r', s.reqs[r']) {
      OthersOk(s, st', r, r');
    }
  }

  /** Counts after a step that leaves the manifests alone. */
  lemma CountsNoManifest(s: State, st': Store, r: ReqId, pc': Pc)
    requires Inv(s) && r in s.reqs && st'.manifests == s.store.manifests
    requires forall k :: RefCount(s.store, k) + Ind(Holds(pc', k)) <= RefCount(st', k) + Ind(Holds(s.reqs[r], k))
    ensures CountsOk(State(st', s.reqs[r := pc']))
  {
    forall k ensures Refs(State(st', s.reqs[r := pc']), k) <= RefCount(st', k) {
      HolderReqsUpdate(s.reqs, r, pc', k);
    }
  }

  // ---------------------------------------------------------------- one lemma per store call

  lemma PutPieceStore(s: State, r: ReqId, p: Id, bytes: string, role: Role)
    requires StoreOk(s.store) && p !in s.store.role && (role == Private(r) || role == Retired)
    ensures StoreOk(PutPiece(s.store, p, bytes, role))
  {
    var st, st' := s.store, PutPiece(s.store, p, bytes, role);
    forall k | k in st'.index ensures RowOk(st', k) { assert RowOk(st, k); }
    forall q | q in st'.role ensures RoleOk(st', q) { if q != p { assert RoleOk(st, q); } }
    forall mk | mk in st'.manifests ensures ManifestOk(st', mk) { assert ManifestOk(st, mk); }
  }

  lemma PutPieceFrame(s: State, r: ReqId, p: Id, bytes: string, role: Role)
    requires StoreOk(s.store) && p !in s.store.role && (role == Private(r) || role == Retired)
    ensures Evolves(s, PutPiece(s.store, p, bytes, role), r)
  {
  }

  lemma DropPieceStore(s: State, r: ReqId, p: Id)
    requires StoreOk(s.store) && HasRole(s.store, p, Retired)
    ensures StoreOk(DropPiece(s.store, p))
  {
    var st, st' := s.store, DropPiece(s.store, p);
    forall k | k in st'.index ensures RowOk(st', k) { assert RowOk(st, k); }
    forall q | q in st'.role ensures RoleOk(st', q) { assert RoleOk(st, q); }
    forall mk | mk in st'.manifests ensures ManifestOk(st', mk) { assert ManifestOk(st, mk); }
  }

  lemma DropPieceFrame(s: State, r: ReqId, p: Id)
    requires StoreOk(s.store) && HasRole(s.store, p, Retired)
    ensures Evolves(s, DropPiece(s.store, p), r)
  {
  }

  lemma IncrementStore(s: State, r: ReqId, k: Key)
    requires StoreOk(s.store)
    ensures StoreOk(Increment(s.store, k))
  {
    var st, st' := s.store, Increment(s.store, k);
    forall k' | k' in st'.index ensures RowOk(st', k') { assert RowOk(st, k'); }
    forall q | q in st'.role ensures RoleOk(st', q) { assert RoleOk(st, q); }
    forall mk | mk in st'.manifests ensures ManifestOk(st', mk) { assert ManifestOk(st, mk); }
  }

  lemma IncrementFrame(s: State, r: ReqId, k: Key)
    requires StoreOk(s.store)
    ensures Evolves(s, Increment(s.store, k), r)
  {
  }

  lemma DecrementStore(s: State, r: ReqId, k: Key)
    requires StoreOk(s.store)
    ensures StoreOk(Decrement(s.store, k))
  {
    var st, st' := s.store, Decrement(s.store, k);
    forall k' | k' in st'.index ensures RowOk(st', k') { assert RowOk(st, k'); }
    forall q | q in st'.role ensures RoleOk(st', q) { assert RoleOk(st, q); }
    forall mk | mk in st'.manifests ensures ManifestOk(st', mk) { assert ManifestOk(st, mk); }
  }

  lemma DecrementFrame(s: State, r: ReqId, k: Key)
    requires StoreOk(s.store)
    ensures Evolves(s, Decrement(s.store, k), r)
  {
  }

  lemma RegisterStore(s: State, r: ReqId, k: Key, p: Id)
    requires StoreOk(s.store) && k !in s.store.index && Unpublished(s.store, p, r) && s.store.pieces[p] == k.hash
    ensures StoreOk(Register(s.store, k, p))
  {
    var st, st' := s.store, Register(s.store, k, p);
    forall k' | k' in st'.index ensures RowOk(st', k') { if k' != k { assert RowOk(st, k'); } }
    forall q | q in st'.role ensures RoleOk(st', q) { if q != p { assert RoleOk(st, q); } }
    forall mk | mk in st'.manifests
      ensures ManifestOk(st', mk)
    {
      assert ManifestOk(st, mk);
      if st.manifests[mk].hash.None? {
        assert st.manifests[mk].piece != p;
      }
    }
  }

  lemma RegisterFrame(s: State, r: ReqId, k: Key, p: Id)
    requires StoreOk(s.store) && k !in s.store.index && Unpublished(s.store, p, r) && s.store.pieces[p] == k.hash
    ensures Evolves(s, Register(s.store, k, p), r)
  {
  }

  /** A row whose count is zero is relied on by nobody. */
  lemma ZeroUnused(s: State, k: Key)
    requires CountsOk(s) && RefCount(s.store, k) == 0
    ensures forall mk :: mk in s.store.manifests ==> s.store.manifests[mk].hash != Some(k)
    ensures forall r :: r in s.reqs ==> !Holds(s.reqs[r], k)
  {
    assert Refs(s, k) == 0;
    forall mk | mk in s.store.manifests ensures s.store.manifests[mk].hash != Some(k) {
      assert mk !in HolderManifests(s.store.manifests, k);
    }
    forall r | r in s.reqs ensures !Holds(s.reqs[r], k) {
      assert r !in HolderReqs(s.reqs, k);
    }
  }

  lemma DropRowStore(s: State, r: ReqId, k: Key)
    requires StoreOk(s.store) && CountsOk(s) && k in s.store.index && s.store.index[k].refCount == 0
    ensures StoreOk(DropRow(s.store, k))
  {
    var st, st' := s.store, DropRow(s.store, k);
    ZeroUnused(s, k);
    assert RowOk(s.store, k);
    forall k' | k' in st'.index ensures RowOk(st', k') { assert RowOk(st, k'); }
    forall q | q in st'.role ensures RoleOk(st', q) { assert RoleOk(st, q); }
    forall mk | mk in st'.manifests ensures ManifestOk(st', mk) { assert ManifestOk(st, mk); }
  }

  lemma DropRowFrame(s: State, r: ReqId, k: Key)
    requires StoreOk(s.store) && CountsOk(s) && k in s.store.index && s.store.index[k].refCount == 0
    ensures Evolves(s, DropRow(s.store, k), r)
  {
    ZeroUnused(s, k);
    assert RowOk(s.store, k);
  }

  lemma RetireStore(s: State, r: ReqId, p: Id)
    requires StoreOk(s.store) && HasRole(s.store, p, Private(r))
    ensures StoreOk(Retire(s.store, p))
  {
    var st, st' := s.store, Retire(s.store, p);
    forall k | k in st'.index ensures RowOk(st', k) { assert RowOk(st, k); }
    forall q | q in st'.role ensures RoleOk(st', q) { assert RoleOk(st, q); }
    forall mk | mk in st'.manifests ensures ManifestOk(st', mk) { assert ManifestOk(st, mk); }
  }

  lemma RetireFrame(s: State, r: ReqId, p: Id)
    requires StoreOk(s.store) && HasRole(s.store, p, Private(r))
    ensures Evolves(s, Retire(s.store, p), r)
  {
  }

  lemma PutSharedStore(s: State, r: ReqId, mk: MKey, k: Key, p: Id)
    requires StoreOk(s.store) && k in s.store.index && s.store.index[k].piece == p && k.tenant == mk.obj.tenant &&
      mk.version in s.store.versionHash && s.store.versionHash[mk.version] == Some(k)
    ensures StoreOk(PutShared(s.store, mk, k, p))
  {
    var st, st' := s.store, PutShared(s.store, mk, k, p);
    assert mk in s.store.manifests ==> ManifestOk(s.store, mk);
    forall k' | k' in st'.index ensures RowOk(st', k') { assert RowOk(st, k'); }
    forall q | q in st'.role ensures RoleOk(st', q) { assert RoleOk(st, q); }
    forall mk' | mk' in st'.manifests ensures ManifestOk(st', mk') { if mk' != mk { assert ManifestOk(st, mk'); } }
  }

  lemma PutSharedFrame(s: State, r: ReqId, mk: MKey, k: Key, p: Id)
    requires StoreOk(s.store) && k in s.store.index && s.store.index[k].piece == p && k.tenant == mk.obj.tenant &&
      mk.version in s.store.versionHash && s.store.versionHash[mk.version] == Some(k)
    ensures Evolves(s, PutShared(s.store, mk, k, p), r)
  {
    assert mk in s.store.manifests ==> ManifestOk(s.store, mk);
  }

  /** Replacing or removing version mk changes the role of at most the piece mk owned. */
  lemma RetireOfOk(st: Store, mk: MKey, p: Id)
    requires StoreOk(st) && p in st.role
    ensures p in RetireOf(st, mk).role
    ensures RetireOf(st, mk).role[p] == if st.role[p] == Solo(mk) then Retired else st.role[p]
  {
    assert RoleOk(st, p);
    if mk in st.manifests && st.manifests[mk].hash.None? { assert ManifestOk(st, mk); }
  }

  /** The version a piece of its own is published under: new, or already one without ContentHash. */
  ghost predicate SoloVersion(st: Store, mk: MKey, p: Id) {
    && (mk in st.manifests ==> st.manifests[mk].hash.None?)
    && (if mk.version in st.versionHash then st.versionHash[mk.version].None? else mk.version == p)
  }

  lemma PutSoloRow(st: Store, r: ReqId, mk: MKey, p: Id, k: Key)
    requires StoreOk(st) && Unpublished(st, p, r) && SoloVersion(st, mk, p) && k in st.index
    ensures RowOk(PutSolo(st, mk, p), k)
  {
    assert RowOk(st, k);
    RetireOfOk(st, mk, st.index[k].piece);
  }

  lemma PutSoloRole(st: Store, r: ReqId, mk: MKey, p: Id, q: Id)
    requires StoreOk(st) && Unpublished(st, p, r) && SoloVersion(st, mk, p) && q in st.role
    ensures RoleOk(PutSolo(st, mk, p), q)
  {
    if q != p {
      RetireOfOk(st, mk, q);
      assert RoleOk(st, q);
    }
  }

  lemma PutSoloManifest(st: Store, r: ReqId, mk: MKey, p: Id, mk': MKey)
    requires StoreOk(st) && Unpublished(st, p, r) && SoloVersion(st, mk, p) && mk' in PutSolo(st, mk, p).manifests
    ensures ManifestOk(PutSolo(st, mk, p), mk')
  {
    if mk' != mk {
      assert ManifestOk(st, mk');
      if st.manifests[mk'].hash.None? { RetireOfOk(st, mk, st.manifests[mk'].piece); }
    }
  }

  lemma PutSoloStore(s: State, r: ReqId, mk: MKey, p: Id)
    requires StoreOk(s.store) && Unpublished(s.store, p, r) && SoloVersion(s.store, mk, p)
    ensures StoreOk(PutSolo(s.store, mk, p))
  {
    var st, st' := s.store, PutSolo(s.store, mk, p);
    forall k | k in st'.index ensures RowOk(st', k) { PutSoloRow(st, r, mk, p, k); }
    forall q | q in st'.role ensures RoleOk(st', q) { PutSoloRole(st, r, mk, p, q); }
    forall mk' | mk' in st'.manifests ensures ManifestOk(st', mk') { PutSoloManifest(st, r, mk, p, mk'); }
  }

  lemma PutSoloRoles(st: Store, r: ReqId, mk: MKey, p: Id)
    requires StoreOk(st) && Unpublished(st, p, r) && SoloVersion(st, mk, p)
    ensures RolesEvolve(st, PutSolo(st, mk, p), r) && PrivateKept(st, PutSolo(st, mk, p), r)
  {
    var st' := PutSolo(st, mk, p);
    forall q | q in st.role && q != p
      ensures q in st'.role && st'.role[q] == if st.role[q] == Solo(mk) then Retired else st.role[q]
    { RetireOfOk(st, mk, q); }
  }

  lemma PutSoloFrame(s: State, r: ReqId, mk: MKey, p: Id)
    requires StoreOk(s.store) && Unpublished(s.store, p, r) && SoloVersion(s.store, mk, p)
    ensures Evolves(s, PutSolo(s.store, mk, p), r)
  {
    PutSoloRoles(s.store, r, mk, p);
  }

  lemma DropManifestStore(s: State, r: ReqId, mk: MKey)
    requires StoreOk(s.store)
    ensures StoreOk(DropManifest(s.store, mk))
  {
    var st, st' := s.store, DropManifest(s.store, mk);
    forall k | k in st'.index ensures RowOk(st', k) { assert RowOk(st, k); RetireOfOk(st, mk, st.index[k].piece); }
    forall q | q in st'.role ensures RoleOk(st', q) { RetireOfOk(st, mk, q); assert RoleOk(st, q); }
    forall mk' | mk' in st'.manifests ensures ManifestOk(st', mk') {
      assert ManifestOk(st, mk');
      if st.manifests[mk'].hash.None? { RetireOfOk(st, mk, st.manifests[mk'].piece); }
    }
  }

  lemma DropManifestFrame(s: State, r: ReqId, mk: MKey)
    requires StoreOk(s.store) && r in s.reqs && s.reqs[r].DeleteManifest? && s.reqs[r].mkey == mk
    ensures Evolves(s, DropManifest(s.store, mk), r)
  {
    var st, st' := s.store, DropManifest(s.store, mk);
    forall q | q in st.role
      ensures q in st'.role && st'.role[q] == if st.role[q] == Solo(mk) then Retired else st.role[q]
    { RetireOfOk(st, mk, q); }
  }

  // ---------------------------------------------------------------- counts after a manifest write

  /** Counts after a holder of k turns its hold into a manifest under mk. */
  lemma CountsPutShared(s: State, st': Store, r: ReqId, mk: MKey, k: Key, p: Id)
    requires CountsOk(s) && r in s.reqs && Holds(s.reqs[r], k)
    requires st'.index == s.store.index && st'.manifests == s.store.manifests[mk := Manifest(Some(k), p)]
    ensures CountsOk(State(st', s.reqs[r := Done]))
  {
    forall k' ensures Refs(State(st', s.reqs[r := Done]), k') <= RefCount(st', k') {
      HolderReqsUpdate(s.reqs, r, Done, k');
      HolderManifestsPut(s.store.manifests, mk, Manifest(Some(k), p), k');
      assert Refs(s, k') <= RefCount(s.store, k');
    }
  }

  lemma CountsPutSolo(s: State, st': Store, r: ReqId, pc': Pc, mk: MKey, p: Id)
    requires CountsOk(s) && r in s.reqs && Held(pc').None?
    requires st'.index == s.store.index && st'.manifests == s.store.manifests[mk := Manifest(None, p)]
    ensures CountsOk(State(st', s.reqs[r := pc']))
  {
    forall k' ensures Refs(State(st', s.reqs[r := pc']), k') <= RefCount(st', k') {
      HolderReqsUpdate(s.reqs, r, pc', k');
      HolderManifestsPut(s.store.manifests, mk, Manifest(None, p), k');
      assert Refs(s, k') <= RefCount(s.store, k');
    }
  }

  /** Removing a manifest passes its reference on to the deleting request. */
  lemma CountsDropManifest(s: State, st': Store, r: ReqId, pc': Pc, mk: MKey)
    requires CountsOk(s) && r in s.reqs && Held(s.reqs[r]).None?
    requires st'.index == s.store.index && st'.manifests == s.store.manifests - {mk}
    requires Held(pc').None? || (mk in s.store.manifests && Held(pc') == s.store.manifests[mk].hash)
    ensures CountsOk(State(st', s.reqs[r := pc']))
  {
    forall k' ensures Refs(State(st', s.reqs[r := pc']), k') <= RefCount(st', k') {
      HolderReqsUpdate(s.reqs, r, pc', k');
      HolderManifestsDrop(s.store.manifests, mk, k');
      assert Refs(s, k') <= RefCount(s.store, k');
    }
  }

  // ---------------------------------------------------------------- one lemma per store call and continuation

  ghost predicate Moved(s: State, st': Store, r: ReqId, pc': Pc) {
    Inv(State(st', s.reqs[r := pc']))
  }

  /** Continue with pc' after a call that changed neither the manifests nor, downwards, any count. */
  lemma MoveOk(s: State, st': Store, r: ReqId, pc': Pc)
    requires Inv(s) && r in s.reqs
    requires Evolves(s, st', r) && StoreOk(st') && st'.manifests == s.store.manifests
    requires PcOk(st', r, pc') && OnlyDeleter(s, r, pc')
    requires forall k :: RefCount(s.store, k) + Ind(Holds(pc', k)) <= RefCount(st', k) + Ind(Holds(s.reqs[r], k))
    ensures Moved(s, st', r, pc')
  {
    CountsNoManifest(s, st', r, pc');
    Assemble(s, st', r, pc');
  }

  lemma StayTo(s: State, r: ReqId, pc': Pc)
    requires Inv(s) && r in s.reqs && PcOk(s.store, r, pc') && OnlyDeleter(s, r, pc')
    requires Held(pc').None? || Held(pc') == Held(s.reqs[r])
    ensures Moved(s, s.store, r, pc')
  {
    MoveOk(s, s.store, r, pc');
  }

  lemma PutPieceTo(s: State, r: ReqId, pc': Pc, p: Id, bytes: string, role: Role)
    requires Inv(s) && r in s.reqs && p !in s.store.role && (role == Private(r) || role == Retired)
    requires PcOk(PutPiece(s.store, p, bytes, role), r, pc') && !pc'.DeleteManifest? && Held(pc').None?
    ensures Moved(s, PutPiece(s.store, p, bytes, role), r, pc')
  {
    PutPieceStore(s, r, p, bytes, role);
    PutPieceFrame(s, r, p, bytes, role);
    MoveOk(s, PutPiece(s.store, p, bytes, role), r, pc');
  }

  lemma DropPieceTo(s: State, r: ReqId, pc': Pc, p: Id)
    requires Inv(s) && r in s.reqs && HasRole(s.store, p, Retired)
    requires PcOk(DropPiece(s.store, p), r, pc') && !pc'.DeleteManifest? &&
      (Held(pc').None? || Held(pc') == Held(s.reqs[r]))
    ensures Moved(s, DropPiece(s.store, p), r, pc')
  {
    DropPieceStore(s, r, p);
    DropPieceFrame(s, r, p);
    MoveOk(s, DropPiece(s.store, p), r, pc');
  }

  lemma IncrementTo(s: State, r: ReqId, pc': Pc, k: Key)
    requires Inv(s) && r in s.reqs
    requires PcOk(Increment(s.store, k), r, pc') && !pc'.DeleteManifest?
    requires Held(pc').None? || (Held(pc') == Some(k) && k in s.store.index)
    ensures Moved(s, Increment(s.store, k), r, pc')
  {
    IncrementStore(s, r, k);
    IncrementFrame(s, r, k);
    MoveOk(s, Increment(s.store, k), r, pc');
  }

  lemma DecrementTo(s: State, r: ReqId, pc': Pc, k: Key)
    requires Inv(s) && r in s.reqs && Holds(s.reqs[r], k)
    requires PcOk(Decrement(s.store, k), r, pc') && !pc'.DeleteManifest? && Held(pc').None?
    ensures Moved(s, Decrement(s.store, k), r, pc')
  {
    DecrementStore(s, r, k);
    DecrementFrame(s, r, k);
    MoveOk(s, Decrement(s.store, k), r, pc');
  }

  lemma RetireTo(s: State, r: ReqId, pc': Pc, p: Id)
    requires Inv(s) && r in s.reqs && HasRole(s.store, p, Private(r))
    requires PcOk(Retire(s.store, p), r, pc') && !pc'.DeleteManifest? && Held(pc').None?
    ensures Moved(s, Retire(s.store, p), r, pc')
  {
    RetireStore(s, r, p);
    RetireFrame(s, r, p);
    MoveOk(s, Retire(s.store, p), r, pc');
  }

  lemma RegisterTo(s: State, r: ReqId, pc': Pc, k: Key, p: Id)
    requires Inv(s) && r in s.reqs && k !in s.store.index && Unpublished(s.store, p, r) && s.store.pieces[p] == k.hash
    requires PcOk(Register(s.store, k, p), r, pc') && !pc'.DeleteManifest? && (Held(pc').None? || Held(pc') == Some(k))
    ensures Moved(s, Register(s.store, k, p), r, pc')
  {
    RegisterStore(s, r, k, p);
    RegisterFrame(s, r, k, p);
    MoveOk(s, Register(s.store, k, p), r, pc');
  }

  lemma DropRowTo(s: State, r: ReqId, pc': Pc, k: Key)
    requires Inv(s) && r in s.reqs && k in s.store.index && s.store.index[k].refCount == 0
    requires PcOk(DropRow(s.store, k), r, pc') && !pc'.DeleteManifest? && Held(pc').None?
    ensures Moved(s, DropRow(s.store, k), r, pc')
  {
    DropRowStore(s, r, k);
    DropRowFrame(s, r, k);
    MoveOk(s, DropRow(s.store, k), r, pc');
  }

  lemma PutSharedTo(s: State, r: ReqId, mk: MKey, k: Key, p: Id)
    requires Inv(s) && r in s.reqs && Holds(s.reqs[r], k)
    requires k in s.store.index && s.store.index[k].piece == p && k.tenant == mk.obj.tenant
    requires mk.version in s.store.versionHash && s.store.versionHash[mk.version] == Some(k)
    ensures Moved(s, PutShared(s.store, mk, k, p), r, Done)
  {
    PutSharedStore(s, r, mk, k, p);
    PutSharedFrame(s, r, mk, k, p);
    CountsPutShared(s, PutShared(s.store, mk, k, p), r, mk, k, p);
    Assemble(s, PutShared(s.store, mk, k, p), r, Done);
  }

  lemma PutSoloTo(s: State, r: ReqId, pc': Pc, mk: MKey, p: Id)
    requires Inv(s) && r in s.reqs && Unpublished(s.store, p, r) && SoloVersion(s.store, mk, p)
    requires PcOk(PutSolo(s.store, mk, p), r, pc') && !pc'.DeleteManifest? && Held(pc').None?
    ensures Moved(s, PutSolo(s.store, mk, p), r, pc')
  {
    PutSoloStore(s, r, mk, p);
    PutSoloFrame(s, r, mk, p);
    CountsPutSolo(s, PutSolo(s.store, mk, p), r, pc', mk, p);
    Assemble(s, PutSolo(s.store, mk, p), r, pc');
  }

  lemma DropManifestTo(s: State, r: ReqId, pc': Pc, mk: MKey)
    requires Inv(s) && r in s.reqs && s.reqs[r].DeleteManifest? && s.reqs[r].mkey == mk
    requires PcOk(DropManifest(s.store, mk), r, pc') && !pc'.DeleteManifest?
    requires Held(pc').None? || (mk in s.store.manifests && Held(pc') == s.store.manifests[mk].hash)
    ensures Moved(s, DropManifest(s.store, mk), r, pc')
  {
    DropManifestStore(s, r, mk);
    DropManifestFrame(s, r, mk);
    CountsDropManifest(s, DropManifest(s.store, mk), r, pc', mk);
    Assemble(s, DropManifest(s.store, mk), r, pc');
  }
  // ---------------------------------------------------------------- every step keeps the invariant

  ghost predicate CanStep(s: State, r: ReqId, o: Outcome) {
    Inv(s) && r in s.reqs && Fresh(s.store, s.reqs[r], o) && Allowed(s, r, o, All)
  }

  lemma DedupPutStep(s: State, r: ReqId, o: Outcome)
    requires CanStep(s, r, o)
    requires var pc := s.reqs[r]; pc.PutLookup? || pc.PutIncrement? || pc.PutWrite? || pc.PutRegister? || pc.PutCommit?
    ensures Inv(After(s, r, o))
  {
    var st := s.store;
    assert PcOk(st, r, s.reqs[r]);
    match s.reqs[r]
    case PutLookup(obj, k) =>
      StayTo(s, r, Step(st, r, s.reqs[r], o).1);
    case PutIncrement(obj, k, p) =>
      if o.Fail? { StayTo(s, r, Done); }
      else { IncrementTo(s, r, if o.Ok? && k in st.index then PutCommit(obj, k, p) else Done, k); }
    case PutWrite(obj, k) =>
      if o.Fail? { StayTo(s, r, Done); }
      else if o.Lost? { PutPieceTo(s, r, Done, o.id, k.hash, Retired); }
      else {
        assert o.id !in st.versionHash;
        PutPieceTo(s, r, PutRegister(obj, k, o.id), o.id, k.hash, Private(r));
      }
    case PutRegister(obj, k, p) =>
      if o.Fail? { RetireTo(s, r, Reclaim(p), p); }
      else if k in st.index { RetireTo(s, r, PutRaceIncrement(obj, k, p), p); }
      else { RegisterTo(s, r, PutCommit(obj, k, p), k, p); }
    case PutCommit(obj, k, p) =>
      if o.Fail? { StayTo(s, r, Rollback(k)); }
      else { CommitStep(s, r, obj, k, p, o.id); }
  }

  function NameVersion(st: Store, v: Id, k: Key): Store {
    st.(role := st.role[v := Version], versionHash := st.versionHash[v := Some(k)])
  }

  lemma NameVersionOk(s: State, r: ReqId, v: Id, k: Key)
    requires Inv(s) && r in s.reqs && v !in s.store.role && !s.reqs[r].DeleteManifest?
    requires PcOk(NameVersion(s.store, v, k), r, s.reqs[r])
    ensures Inv(State(NameVersion(s.store, v, k), s.reqs))
  {
    NameVersionStore(s.store, v, k);
    MoveOk(s, NameVersion(s.store, v, k), r, s.reqs[r]);
    assert s.reqs[r := s.reqs[r]] == s.reqs;
  }

  lemma NameVersionStore(st: Store, v: Id, k: Key)
    requires StoreOk(st) && v !in st.role
    ensures StoreOk(NameVersion(st, v, k))
  {
    var st1 := NameVersion(st, v, k);
    forall k' | k' in st1.index ensures RowOk(st1, k') { assert RowOk(st, k'); }
    forall q | q in st1.role ensures RoleOk(st1, q) { if q != v { assert RoleOk(st, q); } }
    forall mk | mk in st1.manifests ensures ManifestOk(st1, mk) { assert ManifestOk(st, mk); }
  }

  /** A fresh version ID is recorded together with the manifest it names. */
  lemma CommitStep(s: State, r: ReqId, obj: Obj, k: Key, p: Id, v: Id)
    requires Inv(s) && r in s.reqs && s.reqs[r] == PutCommit(obj, k, p) && v !in s.store.role
    ensures Moved(s, PutShared(NameVersion(s.store, v, k), MKey(obj, v), k, p), r, Done)
  {
    assert PcOk(s.store, r, s.reqs[r]);
    NameVersionOk(s, r, v, k);
    PutSharedTo(State(NameVersion(s.store, v, k), s.reqs), r, MKey(obj, v), k, p);
  }

  lemma RaceLostStep(s: State, r: ReqId, o: Outcome)
    requires CanStep(s, r, o)
    requires var pc := s.reqs[r]; pc.PutRaceIncrement? || pc.PutDropDuplicate? || pc.PutRelookup? || pc.Rollback?
    ensures Inv(After(s, r, o))
  {
    var st := s.store;
    assert PcOk(st, r, s.reqs[r]);
    match s.reqs[r]
    case PutRaceIncrement(obj, k, p) =>
      if o.Fail? { StayTo(s, r, Reclaim(p)); }
      else { IncrementTo(s, r, if o.Ok? && k in st.index then PutDropDuplicate(obj, k, p) else Reclaim(p), k); }
    case PutDropDuplicate(obj, k, p) =>
      if o.Fail? { StayTo(s, r, PutRelookup(obj, k)); } else { DropPieceTo(s, r, PutRelookup(obj, k), p); }
    case PutRelookup(obj, k) =>
      StayTo(s, r, Step(st, r, s.reqs[r], o).1);
    case Rollback(k) =>
      if o.Fail? { StayTo(s, r, Done); } else { DecrementTo(s, r, Done, k); }
  }

  lemma CopyStep(s: State, r: ReqId, o: Outcome)
    requires CanStep(s, r, o)
    requires var pc := s.reqs[r]; pc.CopyGet? || pc.CopyIncrement? || pc.CopyCommit? || pc.CopyBytes?
    ensures Inv(After(s, r, o))
  {
    var st := s.store;
    assert PcOk(st, r, s.reqs[r]);
    match s.reqs[r]
    case CopyGet(src, dst) =>
      if o.Ok? && MKey(src, o.id) in st.manifests { assert ManifestOk(st, MKey(src, o.id)); }
      StayTo(s, r, Step(st, r, s.reqs[r], o).1);
    case CopyIncrement(dst, k, p) =>
      if o.Fail? { StayTo(s, r, Done); }
      else { IncrementTo(s, r, Step(st, r, s.reqs[r], o).1, k); }
    case CopyCommit(dst, k, p) =>
      if o.Fail? { StayTo(s, r, Rollback(k)); }
      else {
        assert RowOk(st, k) && RoleOk(st, p);
        assert MKey(dst, p) in st.manifests ==> ManifestOk(st, MKey(dst, p));
        PutSharedTo(s, r, MKey(dst, p), k, p);
      }
    case CopyBytes(dst, p) =>
      if o.Fail? || p !in st.pieces { StayTo(s, r, Done); }
      else if o.Lost? { PutPieceTo(s, r, Done, o.id, st.pieces[p], Retired); }
      else {
        assert o.id !in st.versionHash;
        PutPieceTo(s, r, PlainCommit(dst, o.id), o.id, st.pieces[p], Private(r));
      }
  }

  lemma DeleteStep(s: State, r: ReqId, o: Outcome)
    requires CanStep(s, r, o)
    requires var pc := s.reqs[r]; pc.DeleteGet? || pc.DeleteManifest? || pc.Reclaim?
    ensures Inv(After(s, r, o))
  {
    var st := s.store;
    assert PcOk(st, r, s.reqs[r]);
    match s.reqs[r]
    case DeleteGet(obj) =>
      if o.Ok? && MKey(obj, o.id) in st.manifests { assert ManifestOk(st, MKey(obj, o.id)); }
      StayTo(s, r, Step(st, r, s.reqs[r], o).1);
    case DeleteManifest(mk, m) =>
      if o.Fail? { StayTo(s, r, Done); }
      else if o.Lost? { DropManifestTo(s, r, Done, mk); }
      else { DeleteManifestStep(s, r, mk, m); }
    case Reclaim(p) =>
      if o.Fail? { StayTo(s, r, Done); } else { DropPieceTo(s, r, Done, p); }
  }

  lemma DecrementStep(s: State, r: ReqId, o: Outcome)
    requires CanStep(s, r, o) && s.reqs[r].DeleteDecrement?
    ensures Inv(After(s, r, o))
  {
    var st, k := s.store, s.reqs[r].key;
    assert PcOk(st, r, s.reqs[r]);
    if o.Fail? { StayTo(s, r, Done); }
    else {
      HolderReqsUpdate(s.reqs, r, Done, k);
      assert Refs(s, k) <= RefCount(st, k);
      assert RowOk(st, k);
      DecrementTo(s, r, Step(st, r, s.reqs[r], o).1, k);
    }
  }

  lemma LastReferenceStep(s: State, r: ReqId, o: Outcome)
    requires CanStep(s, r, o)
    requires var pc := s.reqs[r]; pc.DeleteDecrement? || pc.DeleteRow?
    ensures Inv(After(s, r, o))
  {
    var st := s.store;
    match s.reqs[r]
    case DeleteDecrement(_, _) => DecrementStep(s, r, o);
    case DeleteRow(k, p) =>
      assert PcOk(st, r, s.reqs[r]);
      if !o.Fail? && k in st.index && st.index[k].refCount == 0 {
        if HasRole(st, p, Shared(k)) { assert RoleOk(st, p); }
        DropRowTo(s, r, if o.Ok? then Reclaim(p) else Done, k);
      } else { StayTo(s, r, Done); }
  }

  lemma DeleteManifestStep(s: State, r: ReqId, mk: MKey, m: Manifest)
    requires Inv(s) && r in s.reqs && s.reqs[r] == DeleteManifest(mk, m)
    ensures Moved(s, DropManifest(s.store, mk), r,
                  if m.hash.Some? then DeleteDecrement(m.hash.value, m.piece) else Reclaim(m.piece))
  {
    var st := s.store;
    assert PcOk(st, r, s.reqs[r]);
    match m
    case Manifest(Some(k), p) =>
      assert ManifestOk(st, mk);
      DropManifestTo(s, r, DeleteDecrement(k, p), mk);
    case Manifest(None, p) =>
      RetireOfOk(st, mk, p);
      DropManifestTo(s, r, Reclaim(p), mk);
  }

  lemma PlainStep(s: State, r: ReqId, o: Outcome)
    requires CanStep(s, r, o)
    requires var pc := s.reqs[r]; pc.Done? || pc.PlainWrite? || pc.PlainCommit?
    ensures Inv(After(s, r, o))
  {
    var st := s.store;
    assert PcOk(st, r, s.reqs[r]);
    match s.reqs[r]
    case Done => StayTo(s, r, Done);
    case PlainWrite(obj) =>
      if o.Fail? { StayTo(s, r, Done); }
      else if o.Lost? { PutPieceTo(s, r, Done, o.id, o.bytes, Retired); }
      else {
        assert o.id !in st.versionHash;
        PutPieceTo(s, r, PlainCommit(obj, o.id), o.id, o.bytes, Private(r));
      }
    case PlainCommit(obj, p) =>
      if o.Fail? { RetireTo(s, r, Reclaim(p), p); }
      else {
        assert MKey(obj, p) in st.manifests ==> ManifestOk(st, MKey(obj, p));
        PutSoloTo(s, r, Done, MKey(obj, p), p);
      }
  }

  lemma SwitchStep(s: State, r: ReqId, mk: MKey, p: Id, q: Id)
    requires Inv(s) && r in s.reqs && s.reqs[r] == MigrateSwitch(mk, p, q)
    ensures Moved(s, PutSolo(s.store, mk, q), r, Reclaim(p))
  {
    assert PcOk(s.store, r, s.reqs[r]);
    RetireOfOk(s.store, mk, p);
    assert mk in s.store.manifests ==> ManifestOk(s.store, mk);
    PutSoloTo(s, r, Reclaim(p), mk, q);
  }

  lemma MigrateWriteStep(s: State, r: ReqId, o: Outcome)
    requires CanStep(s, r, o) && s.reqs[r].MigrateWrite?
    ensures Inv(After(s, r, o))
  {
    var st := s.store;
    assert PcOk(st, r, s.reqs[r]);
    match s.reqs[r]
    case MigrateWrite(mk, p) =>
      if o.Fail? || p !in st.pieces { StayTo(s, r, Done); }
      else if o.Lost? { PutPieceTo(s, r, Done, o.id, o.bytes, Retired); }
      else {
        assert o.id !in st.versionHash;
        PutPieceTo(s, r, MigrateSwitch(mk, p, o.id), o.id, o.bytes, Private(r));
      }
  }

  lemma MigrateStep(s: State, r: ReqId, o: Outcome)
    requires CanStep(s, r, o)
    requires var pc := s.reqs[r]; pc.MigrateGet? || pc.MigrateWrite? || pc.MigrateSwitch?
    ensures Inv(After(s, r, o))
  {
    var st := s.store;
    assert PcOk(st, r, s.reqs[r]);
    match s.reqs[r]
    case MigrateGet(obj) =>
      if o.Ok? && MKey(obj, o.id) in st.manifests { assert ManifestOk(st, MKey(obj, o.id)); }
      StayTo(s, r, Step(st, r, s.reqs[r], o).1);
    case MigrateWrite(_, _) => MigrateWriteStep(s, r, o);
    case MigrateSwitch(mk, p, q) =>
      if o.Fail? { RetireTo(s, r, Reclaim(q), q); }
      else { SwitchStep(s, r, mk, p, q); }
  }

  lemma StepKeepsInv(s: State, r: ReqId, o: Outcome)
    requires CanStep(s, r, o)
    ensures Inv(After(s, r, o))
  {
    var pc := s.reqs[r];
    if pc.PutLookup? || pc.PutIncrement? || pc.PutWrite? || pc.PutRegister? || pc.PutCommit? { DedupPutStep(s, r, o); }
    else if pc.PutRaceIncrement? || pc.PutDropDuplicate? || pc.PutRelookup? || pc.Rollback? { RaceLostStep(s, r, o); }
    else if pc.CopyGet? || pc.CopyIncrement? || pc.CopyCommit? || pc.CopyBytes? { CopyStep(s, r, o); }
    else if pc.DeleteGet? || pc.DeleteManifest? || pc.Reclaim? { DeleteStep(s, r, o); }
    else if pc.DeleteDecrement? || pc.DeleteRow? { LastReferenceStep(s, r, o); }
    else if pc.MigrateGet? || pc.MigrateWrite? || pc.MigrateSwitch? { MigrateStep(s, r, o); }
    else { PlainStep(s, r, o); }
  }

  lemma StartKeepsInv(s: State, r: ReqId, pc: Pc)
    requires Inv(s) && r !in s.reqs && Initial(pc)
    ensures Inv(s.(reqs := s.reqs[r := pc]))
  {
    var s' := s.(reqs := s.reqs[r := pc]);
    forall k ensures Refs(s', k) <= RefCount(s'.store, k) { StartKeepsCount(s, r, pc, k); }
  }

  lemma StartKeepsCount(s: State, r: ReqId, pc: Pc, k: Key)
    requires Refs(s, k) <= RefCount(s.store, k) && r !in s.reqs && Initial(pc)
    ensures Refs(s.(reqs := s.reqs[r := pc]), k) <= RefCount(s.store, k)
  {
    HolderReqsUpdate(s.reqs, r, pc, k);
  }

  lemma InitInv()
    ensures Inv(Init) && forall k :: Refs(Init, k) == 0
  {
    forall k ensures Refs(Init, k) == 0 {
      assert HolderManifests(Init.store.manifests, k) == {} && HolderReqs(Init.reqs, k) == {};
    }
  }

  lemma {:induction false} RunKeepsInv(run: seq<Event>)
    requires Run(run, All)
    ensures Inv(Exec(run))
  {
    if run == [] {
      InitInv();
    } else {
      var s := Exec(run[..|run| - 1]);
      RunKeepsInv(run[..|run| - 1]);
      match run[|run| - 1]
      case Begin(r, pc) => StartKeepsInv(s, r, pc);
      case Call(r, o) => StepKeepsInv(s, r, o);
    }
  }

  lemma InvIsSafe(s: State)
    requires Inv(s)
    ensures Safe(s)
  {
    forall mk | mk in s.store.manifests
      ensures s.store.manifests[mk].piece in s.store.pieces
      ensures s.store.manifests[mk].hash.Some? ==>
                s.store.pieces[s.store.manifests[mk].piece] == s.store.manifests[mk].hash.value.hash
    {
      assert ManifestOk(s.store, mk);
      if s.store.manifests[mk].hash.Some? { assert RowOk(s.store, s.store.manifests[mk].hash.value); }
    }
  }

  /**
    In every interleaving of any number of PUT, COPY, DELETE and migration
    requests, with any call allowed to fail, no committed manifest ever points
    at a deleted piece.
   */
  lemma NoDanglingManifest(run: seq<Event>)
    requires Run(run, All)
    ensures Safe(Exec(run))
  {
    RunKeepsInv(run);
    InvIsSafe(Exec(run));
  }
}
