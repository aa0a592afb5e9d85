/**
  What each kind of request is for: from any state the protocol can reach, a request
  that nobody disturbs comes to its end and has stored, copied, removed or re-sealed
  exactly its object; and what it leaves when a call fails or finds things changed.
 */
module DedupRequests {
  import opened Wrappers
  import opened DedupProtocol
  import opened DedupSafety

  const done := Ok(0, "")

  /** The store, and where a request has come to. */
  datatype Point = Point(store: Store, pc: Pc)

  function Here(s: State, r: ReqId): Point
    requires r in s.reqs
  {
    Point(s.store, s.reqs[r])
  }

  /** The point after one more call of the request. */
  function Then(r: ReqId, at: Point, o: Outcome): Point {
    var (st, pc) := Step(at.store, r, at.pc, o);
    Point(st, pc)
  }

  /** A call of request r in a run is that call, and no other request moves. */
  lemma ThenIsCall(s: State, r: ReqId, o: Outcome)
    requires r in s.reqs
    ensures var s', next := Do(s, Call(r, o)), Then(r, Here(s, r), o);
            s'.store == next.store && s'.reqs == s.reqs[r := next.pc] && Here(s', r) == next
  {}

  /** The count of row k has moved by d; every other row is as it was. */
  ghost predicate Moves(st: Store, st': Store, k: Key, d: int) {
    && k in st.index && st.index[k].refCount + d >= 0
    && st'.index == st.index[k := Row(st.index[k].piece, st.index[k].refCount + d)]
  }

  // ---------------------------------------------------------------- PUT

  /** A dedup PUT of content the tenant already has: one more manifest on the stored piece. */
  lemma PutOfKnownContent(s: State, r: ReqId, obj: Obj, k: Key, v: Id)
    requires Inv(s) && r in s.reqs && s.reqs[r] == PutLookup(obj, k) && k in s.store.index
    ensures var found := Then(r, Here(s, r), done);
            var counted := Then(r, found, done);
            var end, p := Then(r, counted, Ok(v, "")), s.store.index[k].piece;
            && end.pc == Done && Moves(s.store, end.store, k, 1) && end.store.pieces == s.store.pieces
            && end.store.manifests == s.store.manifests[MKey(obj, v) := Manifest(Some(k), p)]
            && p in end.store.pieces && end.store.pieces[p] == k.hash
  {
    assert RowOk(s.store, k);
    KnownContentFrom(s.store, r, obj, k, v);
  }

  lemma KnownContentFrom(st: Store, r: ReqId, obj: Obj, k: Key, v: Id)
    requires k in st.index
    ensures var found := Then(r, Point(st, PutLookup(obj, k)), done);
            var counted := Then(r, found, done);
            var end := Then(r, counted, Ok(v, ""));
            && end.pc == Done && Moves(st, end.store, k, 1) && end.store.pieces == st.pieces
            && end.store.manifests == st.manifests[MKey(obj, v) := Manifest(Some(k), st.index[k].piece)]
  {}

  /** A dedup PUT of new content: its own piece, a row that counts one, and the manifest. */
  lemma PutOfNewContent(st: Store, r: ReqId, obj: Obj, k: Key, p: Id, v: Id)
    requires k !in st.index
    ensures var missing := Then(r, Point(st, PutLookup(obj, k)), done);
            var written := Then(r, missing, Ok(p, ""));
            var registered := Then(r, written, done);
            var end := Then(r, registered, Ok(v, ""));
            && end.pc == Done && end.store.index == st.index[k := Row(p, 1)]
            && end.store.pieces == st.pieces[p := k.hash]
            && end.store.manifests == st.manifests[MKey(obj, v) := Manifest(Some(k), p)]
  {
    assert Then(r, Point(st, PutLookup(obj, k)), done) == Point(st, PutWrite(obj, k));
    NewContentFrom(st, r, obj, k, p, v);
  }

  lemma NewContentFrom(st: Store, r: ReqId, obj: Obj, k: Key, p: Id, v: Id)
    requires k !in st.index
    ensures var written := Then(r, Point(st, PutWrite(obj, k)), Ok(p, ""));
            var registered := Then(r, written, done);
            var end := Then(r, registered, Ok(v, ""));
            && end.pc == Done && end.store.index == st.index[k := Row(p, 1)]
            && end.store.pieces == st.pieces[p := k.hash]
            && end.store.manifests == st.manifests[MKey(obj, v) := Manifest(Some(k), p)]
  {}

  /** A dedup PUT whose content another registers meanwhile drops its own piece and shares the other's. */
  lemma PutLosesRace(s: State, r: ReqId, obj: Obj, k: Key, p: Id, v: Id)
    requires Inv(s) && r in s.reqs && s.reqs[r] == PutRegister(obj, k, p) && k in s.store.index
    ensures var beaten := Then(r, Here(s, r), done);
            var counted := Then(r, beaten, done);
            var dropped := Then(r, counted, done);
            var found := Then(r, dropped, done);
            var end, q := Then(r, found, Ok(v, "")), s.store.index[k].piece;
            && end.pc == Done && Moves(s.store, end.store, k, 1)
            && end.store.pieces == s.store.pieces - {p} && q in end.store.pieces
            && end.store.manifests == s.store.manifests[MKey(obj, v) := Manifest(Some(k), q)]
  {
    assert RowOk(s.store, k) && PcOk(s.store, r, s.reqs[r]);
    RaceLostFrom(s.store, r, obj, k, p);
    var dropped := Then(r, Then(r, Then(r, Here(s, r), done), done), done);
    SharesFrom(dropped.store, r, obj, k, v);
  }

  lemma RaceLostFrom(st: Store, r: ReqId, obj: Obj, k: Key, p: Id)
    requires k in st.index
    ensures var beaten := Then(r, Point(st, PutRegister(obj, k, p)), done);
            var counted := Then(r, beaten, done);
            var dropped := Then(r, counted, done);
            && dropped.pc == PutRelookup(obj, k) && Moves(st, dropped.store, k, 1)
            && dropped.store.pieces == st.pieces - {p} && dropped.store.manifests == st.manifests
  {}

  lemma SharesFrom(st: Store, r: ReqId, obj: Obj, k: Key, v: Id)
    requires k in st.index
    ensures var found := Then(r, Point(st, PutRelookup(obj, k)), done);
            var end := Then(r, found, Ok(v, ""));
            && end.pc == Done && end.store.index == st.index && end.store.pieces == st.pieces
            && end.store.manifests == st.manifests[MKey(obj, v) := Manifest(Some(k), st.index[k].piece)]
  {}

  /** A dedup PUT or COPY whose commit fails gives its reference back and stores nothing. */
  lemma CommitFails(s: State, r: ReqId, k: Key)
    requires Inv(s) && r in s.reqs && (s.reqs[r].PutCommit? || s.reqs[r].CopyCommit?) && s.reqs[r].key == k
    ensures var failed := Then(r, Here(s, r), Fail);
            var end := Then(r, failed, done);
            && end.pc == Done && Moves(s.store, end.store, k, -1)
            && end.store.pieces == s.store.pieces && end.store.manifests == s.store.manifests
  {
    assert r in HolderReqs(s.reqs, k) && Refs(s, k) <= RefCount(s.store, k);
    GivesBack(s.store, r, s.reqs[r], k);
  }

  lemma GivesBack(st: Store, r: ReqId, pc: Pc, k: Key)
    requires (pc.PutCommit? || pc.CopyCommit?) && pc.key == k && k in st.index && st.index[k].refCount > 0
    ensures var failed := Then(r, Point(st, pc), Fail);
            var end := Then(r, failed, done);
            && end.pc == Done && Moves(st, end.store, k, -1)
            && end.store.pieces == st.pieces && end.store.manifests == st.manifests
  {}

  /** A PUT without dedup: its own piece, and the manifest that names it. */
  lemma PlainPut(st: Store, r: ReqId, obj: Obj, p: Id, bytes: string)
    ensures var written := Then(r, Point(st, PlainWrite(obj)), Ok(p, bytes));
            var end := Then(r, written, done);
            && end.pc == Done && end.store.index == st.index && end.store.pieces == st.pieces[p := bytes]
            && end.store.manifests == st.manifests[MKey(obj, p) := Manifest(None, p)]
  {}

  /** ... whose commit fails: pieces and manifests are as before. */
  lemma PlainPutFails(st: Store, r: ReqId, obj: Obj, p: Id, bytes: string)
    requires p !in st.pieces
    ensures var written := Then(r, Point(st, PlainWrite(obj)), Ok(p, bytes));
            var failed := Then(r, written, Fail);
            var end := Then(r, failed, done);
            && end.pc == Done && end.store.index == st.index && end.store.pieces == st.pieces
            && end.store.manifests == st.manifests
  {}

  // ---------------------------------------------------------------- COPY

  /** COPY of a deduplicated version: the same piece and hash under the destination, counted once more. */
  lemma CopyShares(s: State, r: ReqId, src: Obj, dst: Obj, v: Id, k: Key)
    requires Inv(s) && r in s.reqs && s.reqs[r] == CopyGet(src, dst) && MKey(src, v) in s.store.manifests
    requires s.store.manifests[MKey(src, v)].hash == Some(k)
    ensures var read := Then(r, Here(s, r), Ok(v, ""));
            var counted := Then(r, read, done);
            var end, m := Then(r, counted, done), s.store.manifests[MKey(src, v)];
            && end.pc == Done && Moves(s.store, end.store, k, 1) && end.store.pieces == s.store.pieces
            && end.store.manifests == s.store.manifests[MKey(dst, m.piece) := m]
  {
    assert ManifestOk(s.store, MKey(src, v));
    CopySharesFrom(s.store, r, src, dst, v, k);
  }

  lemma CopySharesFrom(st: Store, r: ReqId, src: Obj, dst: Obj, v: Id, k: Key)
    requires MKey(src, v) in st.manifests && st.manifests[MKey(src, v)].hash == Some(k) && k in st.index
    ensures var read := Then(r, Point(st, CopyGet(src, dst)), Ok(v, ""));
            var counted := Then(r, read, done);
            var end, m := Then(r, counted, done), st.manifests[MKey(src, v)];
            && end.pc == Done && Moves(st, end.store, k, 1) && end.store.pieces == st.pieces
            && end.store.manifests == st.manifests[MKey(dst, m.piece) := m]
  {}

  /** COPY of a version without ContentHash: the same bytes in a piece of its own. */
  lemma CopyDuplicates(s: State, r: ReqId, src: Obj, dst: Obj, v: Id, p: Id)
    requires Inv(s) && r in s.reqs && s.reqs[r] == CopyGet(src, dst) && MKey(src, v) in s.store.manifests
    requires s.store.manifests[MKey(src, v)].hash.None?
    ensures var read := Then(r, Here(s, r), Ok(v, ""));
            var copied := Then(r, read, Ok(p, ""));
            var end, from := Then(r, copied, done), s.store.manifests[MKey(src, v)].piece;
            && from in s.store.pieces && end.pc == Done && end.store.index == s.store.index
            && end.store.pieces == s.store.pieces[p := s.store.pieces[from]]
            && end.store.manifests == s.store.manifests[MKey(dst, p) := Manifest(None, p)]
  {
    assert ManifestOk(s.store, MKey(src, v));
    var from := s.store.manifests[MKey(src, v)].piece;
    assert Then(r, Here(s, r), Ok(v, "")) == Point(s.store, CopyBytes(dst, from));
    CopyBytesFrom(s.store, r, dst, from, p);
  }

  lemma CopyBytesFrom(st: Store, r: ReqId, dst: Obj, from: Id, p: Id)
    requires from in st.pieces
    ensures var copied := Then(r, Point(st, CopyBytes(dst, from)), Ok(p, ""));
            var end := Then(r, copied, done);
            && end.pc == Done && end.store.index == st.index && end.store.pieces == st.pieces[p := st.pieces[from]]
            && end.store.manifests == st.manifests[MKey(dst, p) := Manifest(None, p)]
  {}

  // ---------------------------------------------------------------- DELETE

  /** DELETE of a version without ContentHash: manifest and piece are gone. */
  lemma DeleteOfOwnPiece(st: Store, r: ReqId, obj: Obj, v: Id)
    requires MKey(obj, v) in st.manifests && st.manifests[MKey(obj, v)].hash.None?
    ensures var read := Then(r, Point(st, DeleteGet(obj)), Ok(v, ""));
            var deleted := Then(r, read, done);
            var end := Then(r, deleted, done);
            && end.pc == Done && end.store.index == st.index
            && end.store.manifests == st.manifests - {MKey(obj, v)}
            && end.store.pieces == st.pieces - {st.manifests[MKey(obj, v)].piece}
  {}

  lemma DeleteIsCounted(s: State, mk: MKey, k: Key)
    requires Inv(s) && mk in s.store.manifests && s.store.manifests[mk].hash == Some(k)
    ensures k in s.store.index && s.store.index[k].refCount > 0
    ensures s.store.manifests[mk] == Manifest(Some(k), s.store.index[k].piece)
  {
    assert ManifestOk(s.store, mk) && mk in HolderManifests(s.store.manifests, k);
    assert Refs(s, k) <= RefCount(s.store, k);
  }

  lemma DeleteCounts(st: Store, r: ReqId, obj: Obj, v: Id, k: Key)
    requires MKey(obj, v) in st.manifests && k in st.index && st.index[k].refCount > 0
    requires st.manifests[MKey(obj, v)] == Manifest(Some(k), st.index[k].piece)
    ensures var read := Then(r, Point(st, DeleteGet(obj)), Ok(v, ""));
            var deleted := Then(r, read, done);
            var counted := Then(r, deleted, done);
            && counted.pc == (if st.index[k].refCount == 1 then DeleteRow(k, st.index[k].piece) else Done)
            && Moves(st, counted.store, k, -1) && counted.store.pieces == st.pieces
            && counted.store.manifests == st.manifests - {MKey(obj, v)}
  {}

  /** DELETE of a deduplicated version that others still share: one reference less. */
  lemma DeleteOfSharedPiece(s: State, r: ReqId, obj: Obj, v: Id, k: Key)
    requires Inv(s) && r in s.reqs && s.reqs[r] == DeleteGet(obj) && MKey(obj, v) in s.store.manifests
    requires s.store.manifests[MKey(obj, v)].hash == Some(k) && RefCount(s.store, k) > 1
    ensures var read := Then(r, Here(s, r), Ok(v, ""));
            var deleted := Then(r, read, done);
            var end := Then(r, deleted, done);
            && end.pc == Done && Moves(s.store, end.store, k, -1) && end.store.pieces == s.store.pieces
            && end.store.manifests == s.store.manifests - {MKey(obj, v)}
  {
    DeleteIsCounted(s, MKey(obj, v), k);
    DeleteCounts(s.store, r, obj, v, k);
  }

  lemma DropLast(st: Store, r: ReqId, k: Key, p: Id)
    requires k in st.index && st.index[k] == Row(p, 0)
    ensures var dropped := Then(r, Point(st, DeleteRow(k, p)), done);
            var end := Then(r, dropped, done);
            && end.pc == Done && end.store.index == st.index - {k} && end.store.pieces == st.pieces - {p}
            && end.store.manifests == st.manifests
  {}

  /** DELETE of the last version that shares a piece: manifest, row and piece are gone. */
  lemma DeleteOfLastReference(s: State, r: ReqId, obj: Obj, v: Id, k: Key)
    requires Inv(s) && r in s.reqs && s.reqs[r] == DeleteGet(obj) && MKey(obj, v) in s.store.manifests
    requires s.store.manifests[MKey(obj, v)].hash == Some(k) && RefCount(s.store, k) == 1
    ensures var read := Then(r, Here(s, r), Ok(v, ""));
            var deleted := Then(r, read, done);
            var counted := Then(r, deleted, done);
            var dropped := Then(r, counted, done);
            var end := Then(r, dropped, done);
            && k in s.store.index && end.pc == Done && end.store.index == s.store.index - {k}
            && end.store.pieces == s.store.pieces - {s.store.index[k].piece}
            && end.store.manifests == s.store.manifests - {MKey(obj, v)}
  {
    DeleteIsCounted(s, MKey(obj, v), k);
    DeleteCounts(s.store, r, obj, v, k);
    var counted := Then(r, Then(r, Then(r, Here(s, r), Ok(v, "")), done), done);
    DropLast(counted.store, r, k, s.store.index[k].piece);
  }

  // ---------------------------------------------------------------- AAD migration

  /** A migration: the version names the new piece, and the old one is gone. */
  lemma Migration(s: State, r: ReqId, obj: Obj, v: Id, q: Id, bytes: string)
    requires Inv(s) && r in s.reqs && s.reqs[r] == MigrateGet(obj) && MKey(obj, v) in s.store.manifests
    requires s.store.manifests[MKey(obj, v)].hash.None? && q !in s.store.role
    ensures var read := Then(r, Here(s, r), Ok(v, ""));
            var written := Then(r, read, Ok(q, bytes));
            var switched := Then(r, written, done);
            var end, mk := Then(r, switched, done), MKey(obj, v);
            && end.pc == Done && end.store.index == s.store.index
            && end.store.manifests == s.store.manifests[mk := Manifest(None, q)]
            && end.store.pieces == (s.store.pieces - {s.store.manifests[mk].piece})[q := bytes]
  {
    var mk, p := MKey(obj, v), s.store.manifests[MKey(obj, v)].piece;
    assert ManifestOk(s.store, mk) && q != p;
    assert Then(r, Here(s, r), Ok(v, "")) == Point(s.store, MigrateWrite(mk, p));
    MigratesFrom(s.store, r, mk, p, q, bytes);
  }

  lemma MigratesFrom(st: Store, r: ReqId, mk: MKey, p: Id, q: Id, bytes: string)
    requires q != p && p in st.pieces
    ensures var written := Then(r, Point(st, MigrateWrite(mk, p)), Ok(q, bytes));
            var switched := Then(r, written, done);
            var end := Then(r, switched, done);
            && end.pc == Done && end.store.index == st.index && end.store.pieces == (st.pieces - {p})[q := bytes]
            && end.store.manifests == st.manifests[mk := Manifest(None, q)]
  {}

  /** ... whose switch fails: the new piece is taken away again, and the version is as it was. */
  lemma MigrationFails(st: Store, r: ReqId, mk: MKey, p: Id, q: Id)
    ensures var failed := Then(r, Point(st, MigrateSwitch(mk, p, q)), Fail);
            var end := Then(r, failed, done);
            && end.pc == Done && end.store.index == st.index
            && end.store.manifests == st.manifests && end.store.pieces == st.pieces - {q}
  {}

  // ---------------------------------------------------------------- what a request finds changed

  /** A COPY whose row has gone meanwhile copies the bytes instead, if they are still there. */
  lemma CopyFallsBack(st: Store, r: ReqId, dst: Obj, k: Key, from: Id, p: Id)
    requires k !in st.index && from in st.pieces
    ensures var missing := Then(r, Point(st, CopyIncrement(dst, k, from)), done);
            var copied := Then(r, missing, Ok(p, ""));
            var end := Then(r, copied, done);
            && end.pc == Done && end.store.index == st.index && end.store.pieces == st.pieces[p := st.pieces[from]]
            && end.store.manifests == st.manifests[MKey(dst, p) := Manifest(None, p)]
  {
    assert Then(r, Point(st, CopyIncrement(dst, k, from)), done) == Point(st, CopyBytes(dst, from));
    CopyBytesFrom(st, r, dst, from, p);
  }

  /** A dedup PUT whose winner has gone meanwhile, and a DELETE whose row has, reclaim the piece and end. */
  lemma RowGone(st: Store, r: ReqId, pc: Pc, k: Key, p: Id)
    requires (pc.PutRaceIncrement? || pc.DeleteDecrement?) && pc.key == k && pc.piece == p && k !in st.index
    ensures var missing := Then(r, Point(st, pc), done);
            var end := Then(r, missing, done);
            && end.pc == Done && end.store.index == st.index
            && end.store.manifests == st.manifests && end.store.pieces == st.pieces - {p}
  {}

  /** A DELETE that finds its emptied row counted again, or gone, leaves row and piece alone. */
  lemma RowBusy(st: Store, r: ReqId, k: Key, p: Id)
    requires k in st.index ==> st.index[k].refCount > 0
    ensures Then(r, Point(st, DeleteRow(k, p)), done) == Point(st, Done)
  {}

  /** A refused DELETE, and every request whose first read fails, change nothing. */
  lemma FirstCallFails(st: Store, r: ReqId, pc: Pc)
    requires || pc.PutLookup? || pc.PutIncrement? || pc.PutWrite? || pc.PlainWrite? || pc.CopyGet? || pc.CopyIncrement?
             || pc.DeleteGet? || pc.DeleteManifest? || pc.MigrateGet? || pc.MigrateWrite?
    ensures Then(r, Point(st, pc), Fail) == Point(st, Done)
  {}
}
