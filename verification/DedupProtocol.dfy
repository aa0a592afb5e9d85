/**
  The dedup garbage-collection protocol of the gateway, at the granularity of
  single store calls.

  A request (dedup PUT, plain PUT, COPY, DELETE, AAD migration) is a program
  counter with its locals.  Each step performs exactly one call on the content
  index, the manifest store or a storage backend, so a run is an arbitrary
  interleaving of any number of requests.  Every call may fail; a call that
  fails may still have taken effect (`Lost`), except where `Enabled` says
  otherwise.
 */
module DedupProtocol {
  import opened Wrappers

  /** IDs minted by newPieceID; pieces and object versions draw from one space. */
  type Id = nat
  type ReqId = nat

  /** Primary key of the content index: always scoped to one tenant. */
  datatype Key = Key(tenant: string, hash: string)
  datatype Row = Row(piece: Id, refCount: nat)

  datatype Obj = Obj(tenant: string, bucket: string, keyHash: string)
  datatype MKey = MKey(obj: Obj, version: Id)

  /** `hash` is None when the manifest carries no ContentHash. */
  datatype Manifest = Manifest(hash: Option<Key>, piece: Id)

  /**
    What an ID has been used for.  History only: no step looks at it, apart
    from the freshness of newly minted IDs.
      Private  a piece written by a request that has not published it
      Shared   the piece of a content-index row
      Solo     the piece of a manifest without ContentHash
      Retired  a piece that nothing may refer to any more
      Version  an object version
   */
  datatype Role = Private(owner: ReqId) | Shared(key: Key) | Solo(mkey: MKey) | Retired | Version

  datatype Store = Store(
    index: map<Key, Row>,
    pieces: map<Id, string>,            // piece ID to the BLAKE3 hash of its bytes
    manifests: map<MKey, Manifest>,
    role: map<Id, Role>,                // history
    versionHash: map<Id, Option<Key>>)  // history: the ContentHash recorded under a version ID

  datatype Pc =
    | Done
      // dedup PUT
    | PutLookup(obj: Obj, key: Key)
    | PutIncrement(obj: Obj, key: Key, piece: Id)
    | PutWrite(obj: Obj, key: Key)
    | PutRegister(obj: Obj, key: Key, piece: Id)
    | PutRaceIncrement(obj: Obj, key: Key, piece: Id)
    | PutDropDuplicate(obj: Obj, key: Key, piece: Id)
    | PutRelookup(obj: Obj, key: Key)
    | PutCommit(obj: Obj, key: Key, piece: Id)
    | Rollback(key: Key)
      // PUT without dedup
    | PlainWrite(obj: Obj)
    | PlainCommit(obj: Obj, piece: Id)
      // COPY
    | CopyGet(src: Obj, dst: Obj)
    | CopyIncrement(dst: Obj, key: Key, piece: Id)
    | CopyCommit(dst: Obj, key: Key, piece: Id)
    | CopyBytes(dst: Obj, piece: Id)
      // DELETE
    | DeleteGet(obj: Obj)
    | DeleteManifest(mkey: MKey, manifest: Manifest)
    | DeleteDecrement(key: Key, piece: Id)
    | DeleteRow(key: Key, piece: Id)
    | Reclaim(piece: Id)
      // AAD migration
    | MigrateGet(obj: Obj)
    | MigrateWrite(mkey: MKey, piece: Id)
    | MigrateSwitch(mkey: MKey, piece: Id, newPiece: Id)

  /**
    How one store call went.  `id` is the ID a call mints, or the version a
    lookup by object name resolves to; `bytes` identifies freshly sealed bytes.
      Ok    the call took effect and said so
      Fail  the call reported an error and had no effect
      Lost  the call reported an error although it took effect
   */
  datatype Outcome = Ok(id: Id, bytes: string) | Fail | Lost(id: Id, bytes: string)

  datatype State = State(store: Store, reqs: map<ReqId, Pc>)

  const Init: State := State(Store(map[], map[], map[], map[], map[]), map[])

  // ---------------------------------------------------------------- store calls

  function Increment(st: Store, k: Key): Store {
    if k in st.index then st.(index := st.index[k := st.index[k].(refCount := st.index[k].refCount + 1)])
    else st
  }

  /** DecrementRef: refuses to go below zero. */
  function Decrement(st: Store, k: Key): Store {
    if k in st.index && st.index[k].refCount > 0
    then st.(index := st.index[k := st.index[k].(refCount := st.index[k].refCount - 1)])
    else st
  }

  function Register(st: Store, k: Key, p: Id): Store {
    st.(index := st.index[k := Row(p, 1)], role := st.role[p := Shared(k)],
        versionHash := st.versionHash[p := Some(k)])
  }

  /** Conditional Delete: removes the row only when its count is zero. */
  function DropRow(st: Store, k: Key): Store {
    if k in st.index && st.index[k].refCount == 0
    then st.(index := st.index - {k}, role := st.role[st.index[k].piece := Retired])
    else st
  }

  function PutPiece(st: Store, p: Id, bytes: string, role: Role): Store {
    st.(pieces := st.pieces[p := bytes], role := st.role[p := role])
  }

  function DropPiece(st: Store, p: Id): Store {
    st.(pieces := st.pieces - {p})
  }

  function Retire(st: Store, p: Id): Store {
    st.(role := st.role[p := Retired])
  }

  /** Manifests.Put of a manifest that shares an indexed piece. */
  function PutShared(st: Store, mk: MKey, k: Key, p: Id): Store {
    st.(manifests := st.manifests[mk := Manifest(Some(k), p)])
  }

  /** Forget the piece of the manifest that is about to be replaced or removed. */
  function RetireOf(st: Store, mk: MKey): Store {
    if mk in st.manifests && st.manifests[mk].hash.None? then Retire(st, st.manifests[mk].piece) else st
  }

  /** Manifests.Put of a manifest that owns its piece. */
  function PutSolo(st: Store, mk: MKey, p: Id): Store {
    var st1 := RetireOf(st, mk);
    st1.(manifests := st1.manifests[mk := Manifest(None, p)], role := st1.role[p := Solo(mk)],
         versionHash := st1.versionHash[mk.version := None])
  }

  function DropManifest(st: Store, mk: MKey): Store {
    var st1 := RetireOf(st, mk);
    st1.(manifests := st1.manifests - {mk})
  }

  // ---------------------------------------------------------------- one step of one request

  function Step(st: Store, r: ReqId, pc: Pc, o: Outcome): (Store, Pc) {
    match pc
    case Done => (st, Done)
    case PutLookup(obj, k) =>
      if !o.Ok? then (st, Done)
      else if k in st.index then (st, PutIncrement(obj, k, st.index[k].piece))
      else (st, PutWrite(obj, k))
    case PutIncrement(obj, k, p) =>
      if o.Fail? then (st, Done)
      else (Increment(st, k), if o.Ok? && k in st.index then PutCommit(obj, k, p) else Done)
    case PutWrite(obj, k) =>
      if o.Fail? then (st, Done)
      else if o.Lost? then (PutPiece(st, o.id, k.hash, Retired), Done)
      else (PutPiece(st, o.id, k.hash, Private(r)), PutRegister(obj, k, o.id))
    case PutRegister(obj, k, p) =>
      if o.Fail? then (Retire(st, p), Reclaim(p))
      else if k in st.index then (Retire(st, p), if o.Ok? then PutRaceIncrement(obj, k, p) else Reclaim(p))
      else (Register(st, k, p), if o.Ok? then PutCommit(obj, k, p) else Reclaim(p))
    case PutRaceIncrement(obj, k, p) =>
      if o.Fail? then (st, Reclaim(p))
      else (Increment(st, k), if o.Ok? && k in st.index then PutDropDuplicate(obj, k, p) else Reclaim(p))
    case PutDropDuplicate(obj, k, p) =>
      (if o.Fail? then st else DropPiece(st, p), PutRelookup(obj, k))
    case PutRelookup(obj, k) =>
      if o.Ok? && k in st.index then (st, PutCommit(obj, k, st.index[k].piece)) else (st, Rollback(k))
    case PutCommit(obj, k, p) =>
      if o.Fail? then (st, Rollback(k))
      else
        var st1 := st.(role := st.role[o.id := Version], versionHash := st.versionHash[o.id := Some(k)]);
        (PutShared(st1, MKey(obj, o.id), k, p), if o.Ok? then Done else Rollback(k))
    case Rollback(k) =>
      (if o.Fail? then st else Decrement(st, k), Done)
    case PlainWrite(obj) =>
      if o.Fail? then (st, Done)
      else if o.Lost? then (PutPiece(st, o.id, o.bytes, Retired), Done)
      else (PutPiece(st, o.id, o.bytes, Private(r)), PlainCommit(obj, o.id))
    case PlainCommit(obj, p) =>
      if o.Fail? then (Retire(st, p), Reclaim(p))
      else (PutSolo(st, MKey(obj, p), p), if o.Ok? then Done else Reclaim(p))
    case CopyGet(src, dst) =>
      if o.Ok? && MKey(src, o.id) in st.manifests then
        var m := st.manifests[MKey(src, o.id)];
        (st, if m.hash.Some? then CopyIncrement(dst, m.hash.value, m.piece) else CopyBytes(dst, m.piece))
      else (st, Done)
    case CopyIncrement(dst, k, p) =>
      if o.Fail? then (st, Done)
      else (Increment(st, k),
            if o.Lost? then Done else if k in st.index then CopyCommit(dst, k, p) else CopyBytes(dst, p))
    case CopyCommit(dst, k, p) =>
      if o.Fail? then (st, Rollback(k))
      else (PutShared(RetireOf(st, MKey(dst, p)), MKey(dst, p), k, p), if o.Ok? then Done else Rollback(k))
    case CopyBytes(dst, p) =>
      if o.Fail? || p !in st.pieces then (st, Done)
      else if o.Lost? then (PutPiece(st, o.id, st.pieces[p], Retired), Done)
      else (PutPiece(st, o.id, st.pieces[p], Private(r)), PlainCommit(dst, o.id))
    case DeleteGet(obj) =>
      if o.Ok? && MKey(obj, o.id) in st.manifests
      then (st, DeleteManifest(MKey(obj, o.id), st.manifests[MKey(obj, o.id)]))
      else (st, Done)
    case DeleteManifest(mk, m) =>
      // A refusal by Object Lock is Fail; ErrNotFound counts as success.
      if o.Fail? then (st, Done)
      else (DropManifest(st, mk),
            if o.Lost? then Done
            else if m.hash.Some? then DeleteDecrement(m.hash.value, m.piece)
            else Reclaim(m.piece))
    case DeleteDecrement(k, p) =>
      if o.Fail? then (st, Done)
      else if o.Lost? then (Decrement(st, k), Done)
      else if k !in st.index then (st, Reclaim(p))
      else if st.index[k].refCount == 0 then (st, Done)
      else (Decrement(st, k), if st.index[k].refCount == 1 then DeleteRow(k, p) else Done)
    case DeleteRow(k, p) =>
      if o.Fail? then (st, Done)
      else (DropRow(st, k),
            if o.Ok? && k in st.index && st.index[k].refCount == 0 then Reclaim(p) else Done)
    case Reclaim(p) =>
      (if o.Fail? then st else DropPiece(st, p), Done)
    case MigrateGet(obj) =>
      if o.Ok? && MKey(obj, o.id) in st.manifests && st.manifests[MKey(obj, o.id)].hash.None?
      then (st, MigrateWrite(MKey(obj, o.id), st.manifests[MKey(obj, o.id)].piece))
      else (st, Done)
    case MigrateWrite(mk, p) =>
      if o.Fail? || p !in st.pieces then (st, Done)
      else if o.Lost? then (PutPiece(st, o.id, o.bytes, Retired), Done)
      else (PutPiece(st, o.id, o.bytes, Private(r)), MigrateSwitch(mk, p, o.id))
    case MigrateSwitch(mk, p, q) =>
      if o.Fail? then (Retire(st, q), Reclaim(q))
      else (PutSolo(st, mk, q), if o.Ok? then Reclaim(p) else Reclaim(q))
  }

  predicate Initial(pc: Pc) {
    || (pc.PutLookup? && pc.key.tenant == pc.obj.tenant)
    || pc.PlainWrite? || pc.DeleteGet? || pc.MigrateGet?
    || (pc.CopyGet? && pc.src.tenant == pc.dst.tenant)
  }

  predicate Mints(pc: Pc) {
    pc.PutWrite? || pc.PutCommit? || pc.PlainWrite? || pc.CopyBytes? || pc.MigrateWrite?
  }

  /** Calls that create the reference other requests rely on. */
  predicate Publishes(pc: Pc) {
    pc.PutRegister? || pc.PutCommit? || pc.PlainCommit? || pc.CopyCommit? || pc.MigrateSwitch?
  }

  /** newPieceID never repeats an ID. */
  predicate Fresh(st: Store, pc: Pc, o: Outcome) {
    Mints(pc) && !o.Fail? ==> o.id !in st.role
  }

  // ---------------------------------------------------------------- hypotheses

  /**
    A version is deleted by one request at a time: the version a DELETE
    resolves to is not held by another DELETE between its Manifests.Get and
    its Manifests.Delete.
   */
  predicate OneDeleter(s: State, r: ReqId, pc: Pc, o: Outcome) {
    pc.DeleteGet? && o.Ok? ==>
      forall r' :: r' in s.reqs && r' != r && s.reqs[r'].DeleteManifest? ==> s.reqs[r'].mkey != MKey(pc.obj, o.id)
  }

  /**
    The row seen by Lookup, or named by a copy's source manifest, still names
    the same piece when IncrementRef succeeds on it.
   */
  predicate SamePiece(st: Store, pc: Pc, o: Outcome) {
    (pc.PutIncrement? || pc.CopyIncrement?) && o.Ok? && pc.key in st.index ==> st.index[pc.key].piece == pc.piece
  }

  /** Register and Manifests.Put report an error only when they had no effect. */
  predicate Acknowledged(pc: Pc, o: Outcome) {
    Publishes(pc) ==> !o.Lost?
  }

  // ---------------------------------------------------------------- runs

  /** Which of the three hypotheses a run is held to. */
  datatype Hypotheses = Hypotheses(oneDeleter: bool, samePiece: bool, acknowledged: bool)

  const All := Hypotheses(true, true, true)

  /** A request arrives, or one request makes its next store call. */
  datatype Event = Begin(req: ReqId, pc: Pc) | Call(req: ReqId, outcome: Outcome)

  predicate Allowed(s: State, r: ReqId, o: Outcome, h: Hypotheses)
    requires r in s.reqs
  {
    && (h.oneDeleter ==> OneDeleter(s, r, s.reqs[r], o))
    && (h.samePiece ==> SamePiece(s.store, s.reqs[r], o))
    && (h.acknowledged ==> Acknowledged(s.reqs[r], o))
  }

  predicate Can(s: State, e: Event, h: Hypotheses) {
    match e
    case Begin(r, pc) => r !in s.reqs && Initial(pc)
    case Call(r, o) => r in s.reqs && Fresh(s.store, s.reqs[r], o) && Allowed(s, r, o, h)
  }

  function After(s: State, r: ReqId, o: Outcome): State
    requires r in s.reqs
  {
    var res := Step(s.store, r, s.reqs[r], o);
    State(res.0, s.reqs[r := res.1])
  }

  function Do(s: State, e: Event): State {
    match e
    case Begin(r, pc) => s.(reqs := s.reqs[r := pc])
    case Call(r, o) => if r in s.reqs then After(s, r, o) else s
  }

  /** The state a sequence of events leads to. */
  function Exec(run: seq<Event>): State {
    if run == [] then Init else Do(Exec(run[..|run| - 1]), run[|run| - 1])
  }

  /** A run: every event is possible, and meets the hypotheses h, where it happens. */
  predicate Run(run: seq<Event>, h: Hypotheses) {
    run == [] || (Run(run[..|run| - 1], h) && Can(Exec(run[..|run| - 1]), run[|run| - 1], h))
  }
}
