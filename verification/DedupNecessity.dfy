/**
  Schedules.  Dropping any one of the three hypotheses of the dedup safety theorem
  admits a run that ends with a manifest or an index row whose piece is gone; and with
  all three, requests that overlap on a version or on an empty row can leave a piece
  behind that nothing names.  No call of these runs fails.
 */
module DedupNecessity {
  import opened Wrappers
  import opened DedupProtocol
  import opened DedupSafety
  import opened DedupReclaim

  /** A call succeeds, or loses its acknowledgement where h does not exclude that. */
  predicate Fine(e: Event, h: Hypotheses) {
    e.Call? ==> e.outcome.Ok? || (e.outcome.Lost? && !h.acknowledged)
  }

  ghost predicate Reachable(s: State, h: Hypotheses) {
    exists run :: Run(run, h) && (forall e :: e in run ==> Fine(e, h)) && Exec(run) == s
  }

  /** A set of states that contains the initial state and is closed under the fine steps h allows. */
  ghost predicate Closed(all: iset<State>, h: Hypotheses) {
    Init in all && forall s, e :: s in all && Can(s, e, h) && Fine(e, h) ==> Do(s, e) in all
  }

  lemma ReachableIsClosed(h: Hypotheses)
    ensures Closed((iset s | Reachable(s, h)), h)
  {
    assert Run([], h) && Exec([]) == Init;
    forall s, e | Reachable(s, h) && Can(s, e, h) && Fine(e, h) ensures Reachable(Do(s, e), h) {
      var run :| Run(run, h) && (forall e :: e in run ==> Fine(e, h)) && Exec(run) == s;
      assert (run + [e])[..|run + [e]| - 1] == run;
      assert Run(run + [e], h) && Exec(run + [e]) == Do(s, e);
    }
  }

  const ok := Ok(0, "")

  lemma Step1(all: iset<State>, s: State, e: Event, h: Hypotheses) returns (s': State)
    requires Closed(all, h) && s in all && Can(s, e, h) && Fine(e, h)
    ensures s' == Do(s, e) && s' in all
  {
    s' := Do(s, e);
  }

  // ---------------------------------------------------------------- building blocks of the schedules

  /** A dedup PUT of unseen content, up to its Register call. */
  lemma PutMiss(all: iset<State>, s: State, r: ReqId, a: Obj, k: Key, p: Id, h: Hypotheses) returns (s': State)
    requires Closed(all, h) && s in all && r !in s.reqs && k.tenant == a.tenant
    requires k !in s.store.index && p !in s.store.role
    ensures s' in all && s'.reqs == s.reqs[r := PutRegister(a, k, p)]
    ensures s'.store == PutPiece(s.store, p, k.hash, Private(r))
  {
    s' := Step1(all, s, Begin(r, PutLookup(a, k)), h);
    s' := Step1(all, s', Call(r, ok), h);
    s' := Step1(all, s', Call(r, Ok(p, "")), h);
  }

  /** A dedup PUT of indexed content, up to its IncrementRef call. */
  lemma PutHit(all: iset<State>, s: State, r: ReqId, a: Obj, k: Key, h: Hypotheses) returns (s': State)
    requires Closed(all, h) && s in all && r !in s.reqs && k.tenant == a.tenant && k in s.store.index
    ensures s' in all && s'.reqs == s.reqs[r := PutIncrement(a, k, s.store.index[k].piece)] && s'.store == s.store
  {
    s' := Step1(all, s, Begin(r, PutLookup(a, k)), h);
    s' := Step1(all, s', Call(r, ok), h);
  }

  lemma PutFinish(all: iset<State>, s: State, r: ReqId, a: Obj, k: Key, p: Id, v: Id, h: Hypotheses) returns (s': State)
    requires Closed(all, h) && s in all && r in s.reqs && v !in s.store.role && v != p
    requires (s.reqs[r] == PutRegister(a, k, p) && k !in s.store.index)
          || (s.reqs[r] == PutIncrement(a, k, p) && k in s.store.index && (h.samePiece ==> s.store.index[k].piece == p))
    ensures s' in all && s'.reqs == s.reqs[r := Done] && s'.store.pieces == s.store.pieces
    ensures s'.store.index == if k in s.store.index
                              then s.store.index[k := Row(s.store.index[k].piece, s.store.index[k].refCount + 1)]
                              else s.store.index[k := Row(p, 1)]
    ensures s'.store.manifests == s.store.manifests[MKey(a, v) := Manifest(Some(k), p)]
    ensures s'.store.role.Keys == s.store.role.Keys + {v} + (if k in s.store.index then {} else {p})
  {
    s' := Step1(all, s, Call(r, ok), h);
    s' := Step1(all, s', Call(r, Ok(v, "")), h);
  }

  /** A DELETE up to and including its Manifests.Get, which resolves to mk. */
  lemma DeleteRead(all: iset<State>, s: State, r: ReqId, mk: MKey, h: Hypotheses) returns (s': State)
    requires Closed(all, h) && s in all && r !in s.reqs && mk in s.store.manifests
    requires h.oneDeleter ==> forall r' :: r' in s.reqs ==> !s.reqs[r'].DeleteManifest?
    ensures s' in all && s'.store == s.store && s'.reqs == s.reqs[r := DeleteManifest(mk, s.store.manifests[mk])]
  {
    s' := Step1(all, s, Begin(r, DeleteGet(mk.obj)), h);
    s' := Step1(all, s', Call(r, Ok(mk.version, "")), h);
  }

  /** A DELETE, from its Manifests.Delete up to and including its DecrementRef. */
  lemma DeleteBegin(all: iset<State>, s: State, r: ReqId, mk: MKey, k: Key, p: Id, h: Hypotheses) returns (s': State)
    requires Closed(all, h) && s in all && r in s.reqs && s.reqs[r] == DeleteManifest(mk, Manifest(Some(k), p))
    requires mk in s.store.manifests ==> s.store.manifests[mk].hash.Some?
    requires k in s.store.index && s.store.index[k].refCount > 0
    ensures s' in all && s'.store == Decrement(s.store.(manifests := s.store.manifests - {mk}), k)
    ensures s'.reqs == s.reqs[r := if s.store.index[k].refCount == 1 then DeleteRow(k, p) else Done]
  {
    s' := Step1(all, s, Call(r, ok), h);
    s' := Step1(all, s', Call(r, ok), h);
  }

  /** The end of a DELETE that dropped the last reference: row, then piece. */
  lemma DeleteFinish(all: iset<State>, s: State, r: ReqId, k: Key, p: Id, h: Hypotheses) returns (s': State)
    requires Closed(all, h) && s in all && r in s.reqs && s.reqs[r] == DeleteRow(k, p)
    requires k in s.store.index && s.store.index[k] == Row(p, 0)
    ensures s' in all && s'.reqs == s.reqs[r := Done]
    ensures s'.store.index == s.store.index - {k} && s'.store.pieces == s.store.pieces - {p}
    ensures s'.store.manifests == s.store.manifests && s'.store.role.Keys == s.store.role.Keys + {p}
  {
    s' := Step1(all, s, Call(r, ok), h);
    s' := Step1(all, s', Call(r, ok), h);
  }

  /** Object a stored once: piece 1, version 2. */
  lemma OneObject(all: iset<State>, a: Obj, k: Key, h: Hypotheses) returns (s: State)
    requires Closed(all, h) && k.tenant == a.tenant
    ensures s in all && s.reqs == map[0 := Done]
    ensures s.store.index == map[k := Row(1, 1)] && s.store.pieces == map[1 := k.hash]
    ensures s.store.manifests == map[MKey(a, 2) := Manifest(Some(k), 1)] && s.store.role.Keys == {1, 2}
  {
    s := PutMiss(all, Init, 0, a, k, 1, h);
    s := PutFinish(all, s, 0, a, k, 1, 2, h);
  }

  // ---------------------------------------------------------------- the three schedules

  /**
    Without the no-replacement hypothesis: a PUT of b looks the row up, a
    DELETE of a removes row and piece, a new PUT registers the content again,
    and the first PUT increments that row but commits the reclaimed piece.
   */
  lemma StaleLookup(all: iset<State>, a: Obj, b: Obj, k: Key) returns (s: State)
    requires Closed(all, All.(samePiece := false)) && k.tenant == a.tenant == b.tenant
    ensures s in all && !Safe(s)
  {
    var h := All.(samePiece := false);
    s := OneObject(all, a, k, h);
    s := PutHit(all, s, 1, b, k, h);
    s := DeleteRead(all, s, 2, MKey(a, 2), h);
    s := DeleteBegin(all, s, 2, MKey(a, 2), k, 1, h);
    s := DeleteFinish(all, s, 2, k, 1, h);
    assert s.store.index == map[] && s.store.pieces == map[] && s.store.role.Keys == {1, 2};
    assert s.reqs == map[0 := Done, 1 := PutIncrement(b, k, 1), 2 := Done];
    s := StaleCommit(all, s, a, b, k);
  }

  lemma StaleCommit(all: iset<State>, s0: State, a: Obj, b: Obj, k: Key) returns (s: State)
    requires Closed(all, All.(samePiece := false)) && k.tenant == a.tenant == b.tenant
    requires s0 in all && s0.store.index == map[] && s0.store.pieces == map[] && s0.store.role.Keys == {1, 2}
    requires s0.reqs == map[0 := Done, 1 := PutIncrement(b, k, 1), 2 := Done]
    ensures s in all && !Safe(s)
  {
    var h := All.(samePiece := false);
    s := s0;
    s := PutMiss(all, s, 3, a, k, 3, h);
    s := PutFinish(all, s, 3, a, k, 3, 4, h);
    s := PutFinish(all, s, 1, b, k, 1, 5, h);
    assert MKey(b, 5) in s.store.manifests && s.store.manifests[MKey(b, 5)].piece !in s.store.pieces;
  }

  lemma StaleLookupDangles(a: Obj, b: Obj, k: Key)
    requires k.tenant == a.tenant == b.tenant
    ensures exists s :: Reachable(s, All.(samePiece := false)) && !Safe(s)
  {
    ReachableIsClosed(All.(samePiece := false));
    var s := StaleLookup((iset s | Reachable(s, All.(samePiece := false))), a, b, k);
  }

  /**
    Without the one-deleter hypothesis: two DELETEs of a both read version 2
    and both decrement (the second Manifests.Delete is told ErrNotFound and
    carries on), so the piece that b still names is reclaimed.
   */
  lemma DoubleDelete(all: iset<State>, a: Obj, b: Obj, k: Key) returns (s: State)
    requires Closed(all, All.(oneDeleter := false)) && k.tenant == a.tenant == b.tenant
    ensures s in all && !Safe(s)
  {
    var h := All.(oneDeleter := false);
    s := OneObject(all, a, k, h);
    s := PutHit(all, s, 1, b, k, h);
    s := PutFinish(all, s, 1, b, k, 1, 3, h);
    s := DeleteRead(all, s, 2, MKey(a, 2), h);
    s := DeleteRead(all, s, 3, MKey(a, 2), h);
    s := BothDecrement(all, s, a, b, k);
  }

  lemma BothDecrement(all: iset<State>, s0: State, a: Obj, b: Obj, k: Key) returns (s: State)
    requires Closed(all, All.(oneDeleter := false)) && s0 in all
    requires s0.store.index == map[k := Row(1, 2)] && s0.store.pieces == map[1 := k.hash]
    requires MKey(b, 3) in s0.store.manifests && MKey(a, 2) in s0.store.manifests
    requires s0.store.manifests[MKey(a, 2)] == s0.store.manifests[MKey(b, 3)] == Manifest(Some(k), 1)
    requires forall r :: r in {2, 3} ==> r in s0.reqs && s0.reqs[r] == DeleteManifest(MKey(a, 2), Manifest(Some(k), 1))
    ensures s in all && !Safe(s)
  {
    var h := All.(oneDeleter := false);
    s := s0;
    s := DeleteBegin(all, s, 2, MKey(a, 2), k, 1, h);
    s := DeleteBegin(all, s, 3, MKey(a, 2), k, 1, h);
    s := DeleteFinish(all, s, 3, k, 1, h);
    assert MKey(b, 3) in s.store.manifests && s.store.manifests[MKey(b, 3)].piece !in s.store.pieces;
  }

  lemma DoubleDeleteDangles(a: Obj, b: Obj, k: Key)
    requires k.tenant == a.tenant == b.tenant
    ensures exists s :: Reachable(s, All.(oneDeleter := false)) && !Safe(s)
  {
    ReachableIsClosed(All.(oneDeleter := false));
    var s := DoubleDelete((iset s | Reachable(s, All.(oneDeleter := false))), a, b, k);
  }

  /**
    Without acknowledged publishing: a Register that took effect but reported
    an error is answered by deleting the piece its row now names, so every
    later PUT of the same content commits against a missing piece.
   */
  lemma LostRegister(all: iset<State>, a: Obj, k: Key) returns (s: State)
    requires Closed(all, All.(acknowledged := false)) && k.tenant == a.tenant
    ensures s in all && !Safe(s)
  {
    var h := All.(acknowledged := false);
    s := PutMiss(all, Init, 0, a, k, 1, h);
    s := Step1(all, s, Call(0, Lost(0, "")), h);
    s := Step1(all, s, Call(0, ok), h);
    assert k in s.store.index && s.store.index[k].piece !in s.store.pieces;
  }

  lemma LostRegisterDangles(a: Obj, k: Key)
    requires k.tenant == a.tenant
    ensures exists s :: Reachable(s, All.(acknowledged := false)) && !Safe(s)
  {
    ReachableIsClosed(All.(acknowledged := false));
    var s := LostRegister((iset s | Reachable(s, All.(acknowledged := false))), a, k);
  }

  /**
    The same for Manifests.Put: a plain PUT whose manifest was stored but reported
    as failed rolls back its piece, and the manifest names a missing piece.
   */
  lemma LostPut(all: iset<State>, a: Obj) returns (s: State)
    requires Closed(all, All.(acknowledged := false))
    ensures s in all && !Safe(s)
  {
    var h := All.(acknowledged := false);
    s := Step1(all, Init, Begin(0, PlainWrite(a)), h);
    s := Step1(all, s, Call(0, Ok(1, "")), h);
    s := Step1(all, s, Call(0, Lost(0, "")), h);
    s := Step1(all, s, Call(0, ok), h);
    assert MKey(a, 1) in s.store.manifests && s.store.manifests[MKey(a, 1)].piece !in s.store.pieces;
  }

  lemma LostPutDangles(a: Obj)
    ensures exists s :: Reachable(s, All.(acknowledged := false)) && !Safe(s)
  {
    ReachableIsClosed(All.(acknowledged := false));
    var s := LostPut((iset s | Reachable(s, All.(acknowledged := false))), a);
  }

  // ---------------------------------------------------------------- pieces left behind

  /** Everything has come to rest, and a stored piece is named by nothing. */
  ghost predicate Leaks(s: State) {
    AllDone(s) && exists p :: p in s.store.pieces && !Named(s.store, p)
  }

  /** A PUT without dedup of object a: piece and version 1. */
  lemma PlainObject(all: iset<State>, a: Obj) returns (s: State)
    requires Closed(all, All)
    ensures s in all && s.reqs == map[0 := Done] && s.store.index == map[] && s.store.pieces == map[1 := ""]
    ensures s.store.manifests == map[MKey(a, 1) := Manifest(None, 1)] && s.store.role.Keys == {1}
  {
    s := Step1(all, Init, Begin(0, PlainWrite(a)), All);
    s := Step1(all, s, Call(0, Ok(1, "")), All);
    s := Step1(all, s, Call(0, ok), All);
  }

  /** The end of a DELETE that read piece p under version mk. */
  lemma DeleteOwn(all: iset<State>, s0: State, r: ReqId, mk: MKey, p: Id) returns (s: State)
    requires Closed(all, All) && s0 in all && r in s0.reqs && s0.reqs[r] == DeleteManifest(mk, Manifest(None, p))
    ensures s in all && s.reqs == s0.reqs[r := Done] && s.store.index == s0.store.index
    ensures s.store.pieces == s0.store.pieces - {p} && s.store.manifests == s0.store.manifests - {mk}
  {
    s := Step1(all, s0, Call(r, ok), All);
    s := Step1(all, s, Call(r, ok), All);
  }

  /** A migration of version mk from piece p, up to its switch. */
  lemma MigrateBegin(all: iset<State>, s0: State, r: ReqId, mk: MKey, p: Id, q: Id) returns (s: State)
    requires Closed(all, All) && s0 in all && r !in s0.reqs && q !in s0.store.role && p in s0.store.pieces
    requires mk in s0.store.manifests && s0.store.manifests[mk] == Manifest(None, p)
    ensures s in all && s.reqs == s0.reqs[r := MigrateSwitch(mk, p, q)]
    ensures s.store == PutPiece(s0.store, q, "", Private(r))
  {
    s := Step1(all, s0, Begin(r, MigrateGet(mk.obj)), All);
    s := Step1(all, s, Call(r, Ok(mk.version, "")), All);
    s := Step1(all, s, Call(r, Ok(q, "")), All);
  }

  lemma MigrateFinish(all: iset<State>, s0: State, r: ReqId, mk: MKey, p: Id, q: Id) returns (s: State)
    requires Closed(all, All) && s0 in all && r in s0.reqs && s0.reqs[r] == MigrateSwitch(mk, p, q)
    ensures s in all && s.reqs == s0.reqs[r := Done] && s.store.index == s0.store.index
    ensures s.store.pieces == s0.store.pieces - {p} && s.store.manifests == s0.store.manifests[mk := Manifest(None, q)]
  {
    s := Step1(all, s0, Call(r, ok), All);
    s := Step1(all, s, Call(r, ok), All);
  }

  /**
    A DELETE reads the version, a migration moves it to a new piece, and the DELETE
    removes the manifest and reclaims the piece it had read: the new one stays.
   */
  lemma DeleteMissesMigration(all: iset<State>, a: Obj) returns (s: State)
    requires Closed(all, All)
    ensures s in all && Leaks(s)
  {
    s := PlainObject(all, a);
    s := DeleteRead(all, s, 1, MKey(a, 1), All);
    s := MigrateBegin(all, s, 2, MKey(a, 1), 1, 2);
    s := MigrateFinish(all, s, 2, MKey(a, 1), 1, 2);
    assert s.store.pieces == map[2 := ""] && s.store.manifests == map[MKey(a, 1) := Manifest(None, 2)];
    s := DeleteOwn(all, s, 1, MKey(a, 1), 1);
    assert 2 in s.store.pieces && !Named(s.store, 2);
  }

  lemma OverlappingMigrationLeaks(a: Obj)
    ensures exists s :: Reachable(s, All) && Leaks(s)
  {
    ReachableIsClosed(All);
    var s := DeleteMissesMigration((iset s | Reachable(s, All)), a);
  }

  /** No DELETE is about to remove a manifest. */
  predicate NoDeleter(s: State) { forall r :: r in s.reqs ==> !s.reqs[r].DeleteManifest? }

  /** Object a is deleted by request r, up to the row it has emptied. */
  lemma Emptied(all: iset<State>, s0: State, r: ReqId, mk: MKey, k: Key, p: Id) returns (s: State)
    requires Closed(all, All) && s0 in all && r !in s0.reqs && NoDeleter(s0) && mk in s0.store.manifests
    requires s0.store.manifests[mk] == Manifest(Some(k), p) && k in s0.store.index && s0.store.index[k] == Row(p, 1)
    ensures s in all && s.reqs == s0.reqs[r := DeleteRow(k, p)] && s.store.index == s0.store.index[k := Row(p, 0)]
    ensures s.store.pieces == s0.store.pieces && s.store.manifests == s0.store.manifests - {mk}
    ensures s.store.role == s0.store.role
  {
    s := DeleteRead(all, s0, r, mk, All);
    s := DeleteBegin(all, s, r, mk, k, p, All);
  }

  /** Content of an emptied row is stored by request r and deleted by request r + 1, up to the row. */
  lemma HitAndEmpty(all: iset<State>, s0: State, r: ReqId, a: Obj, k: Key, p: Id, v: Id) returns (s: State)
    requires Closed(all, All) && s0 in all && k.tenant == a.tenant && {r, r + 1} !! s0.reqs.Keys && NoDeleter(s0)
    requires k in s0.store.index && s0.store.index[k] == Row(p, 0) && v !in s0.store.role && v != p
    requires s0.store.manifests == map[]
    ensures s in all && s.reqs == s0.reqs[r := Done][r + 1 := DeleteRow(k, p)] && s.store.index == s0.store.index
    ensures s.store.pieces == s0.store.pieces && s.store.manifests == map[]
    ensures s.store.role.Keys == s0.store.role.Keys + {v}
  {
    s := PutHit(all, s0, r, a, k, All);
    s := PutFinish(all, s, r, a, k, p, v, All);
    s := Emptied(all, s, r + 1, MKey(a, v), k, p);
  }

  /** Unknown content is stored by request r. */
  lemma Missed(all: iset<State>, s0: State, r: ReqId, a: Obj, k: Key, p: Id, v: Id) returns (s: State)
    requires Closed(all, All) && s0 in all && k.tenant == a.tenant && r !in s0.reqs && k !in s0.store.index
    requires p !in s0.store.role && v !in s0.store.role && v != p
    ensures s in all && s.reqs == s0.reqs[r := Done] && s.store.index == s0.store.index[k := Row(p, 1)]
    ensures s.store.pieces == s0.store.pieces[p := k.hash] && s.store.role.Keys == s0.store.role.Keys + {p, v}
    ensures s.store.manifests == s0.store.manifests[MKey(a, v) := Manifest(Some(k), p)]
  {
    s := PutMiss(all, s0, r, a, k, p, All);
    s := PutFinish(all, s, r, a, k, p, v, All);
  }

  /** Unknown content is stored by request r and deleted by request r + 1, up to the row. */
  lemma MissAndEmpty(all: iset<State>, s0: State, r: ReqId, a: Obj, k: Key, p: Id, v: Id) returns (s: State)
    requires Closed(all, All) && s0 in all && k.tenant == a.tenant && {r, r + 1} !! s0.reqs.Keys && NoDeleter(s0)
    requires k !in s0.store.index && p !in s0.store.role && v !in s0.store.role && v != p
    requires s0.store.manifests == map[]
    ensures s in all && s.reqs == s0.reqs[r := Done][r + 1 := DeleteRow(k, p)]
    ensures s.store.index == s0.store.index[k := Row(p, 0)] && s.store.pieces == s0.store.pieces[p := k.hash]
    ensures s.store.manifests == map[] && s.store.role.Keys == s0.store.role.Keys + {p, v}
  {
    s := Missed(all, s0, r, a, k, p, v);
    s := Emptied(all, s, r + 1, MKey(a, v), k, p);
  }

  /** Request 1 is about to drop the row of k, which is gone. */
  lemma OneDropper(all: iset<State>, a: Obj, k: Key) returns (s: State)
    requires Closed(all, All) && k.tenant == a.tenant
    ensures s in all && s.reqs == map[0 := Done, 1 := DeleteRow(k, 1), 2 := Done, 3 := Done]
    ensures s.store.index == map[] && s.store.pieces == map[] && s.store.manifests == map[]
    ensures s.store.role.Keys == {1, 2, 3}
  {
    s := MissAndEmpty(all, Init, 0, a, k, 1, 2);
    assert s.reqs == map[0 := Done, 1 := DeleteRow(k, 1)] && s.store.index == map[k := Row(1, 0)];
    assert s.store.pieces == map[1 := k.hash] && s.store.role.Keys == {1, 2};
    s := HitAndEmpty(all, s, 2, a, k, 1, 3);
    s := DeleteFinish(all, s, 3, k, 1, All);
  }

  /** Requests 1 and 5 are about to drop the row of k; it names the piece that 5 read. */
  lemma TwoDroppers(all: iset<State>, a: Obj, k: Key) returns (s: State)
    requires Closed(all, All) && k.tenant == a.tenant
    ensures s in all
    ensures s.reqs == map[0 := Done, 1 := DeleteRow(k, 1), 2 := Done, 3 := Done, 4 := Done, 5 := DeleteRow(k, 4)]
    ensures s.store.index == map[k := Row(4, 0)] && s.store.pieces == map[4 := k.hash] && s.store.manifests == map[]
  {
    s := OneDropper(all, a, k);
    s := MissAndEmpty(all, s, 4, a, k, 4, 5);
  }

  /**
    A DELETE that has emptied its row rests while the row is dropped, registered again
    with another piece and emptied again; then it drops that row and reclaims the piece
    it had read, and the DELETE that emptied the new row finds none: its piece stays.
   */
  lemma StaleRowDrop(all: iset<State>, a: Obj, k: Key) returns (s: State)
    requires Closed(all, All) && k.tenant == a.tenant
    ensures s in all && Leaks(s)
  {
    s := TwoDroppers(all, a, k);
    s := DropOther(all, s, 1, k, 1);
    s := Step1(all, s, Call(5, ok), All);
    assert 4 in s.store.pieces && !Named(s.store, 4);
  }

  /** The end of a DELETE that drops a row with another piece than it had read. */
  lemma DropOther(all: iset<State>, s0: State, r: ReqId, k: Key, p: Id) returns (s: State)
    requires Closed(all, All) && s0 in all && r in s0.reqs && s0.reqs[r] == DeleteRow(k, p)
    requires k in s0.store.index && s0.store.index[k].refCount == 0
    ensures s in all && s.reqs == s0.reqs[r := Done] && s.store.index == s0.store.index - {k}
    ensures s.store.pieces == s0.store.pieces - {p} && s.store.manifests == s0.store.manifests
  {
    s := Step1(all, s0, Call(r, ok), All);
    s := Step1(all, s, Call(r, ok), All);
  }

  lemma OverlappingRowDropLeaks(a: Obj, k: Key)
    requires k.tenant == a.tenant
    ensures exists s :: Reachable(s, All) && Leaks(s)
  {
    ReachableIsClosed(All);
    var s := StaleRowDrop((iset s | Reachable(s, All)), a, k);
  }
}
