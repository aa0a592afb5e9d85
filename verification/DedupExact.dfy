/**
  Consequences and limits of the dedup invariant: who owns a piece, when the
  refcount is exact, and why each hypothesis of the safety theorem is needed.
 */
module DedupExact {
  import opened Wrappers
  import opened DedupProtocol
  import opened DedupSafety

  // ---------------------------------------------------------------- ownership

  /**
    A piece behind a manifest without ContentHash belongs to that manifest
    alone; a piece behind two manifests is shared inside one tenant, under one
    content hash and one index row.
   */
  lemma PieceOwnership(run: seq<Event>, mk: MKey, mk': MKey)
    requires Run(run, All) && mk != mk'
    requires mk in Exec(run).store.manifests && mk' in Exec(run).store.manifests
    requires Exec(run).store.manifests[mk].piece == Exec(run).store.manifests[mk'].piece
    ensures Exec(run).store.manifests[mk].hash.Some?
    ensures Exec(run).store.manifests[mk] == Exec(run).store.manifests[mk']
    ensures mk.obj.tenant == mk'.obj.tenant
  {
    RunKeepsInv(run);
    var st := Exec(run).store;
    assert ManifestOk(st, mk) && ManifestOk(st, mk');
    if st.manifests[mk].hash.Some? { assert RowOk(st, st.manifests[mk].hash.value); }
    if st.manifests[mk'].hash.Some? { assert RowOk(st, st.manifests[mk'].hash.value); }
  }

  // ---------------------------------------------------------------- exact counts

  /** A step that neither loses an acknowledgement, nor fails to decrement, nor copies over its own earlier copy. */
  predicate Clean(s: State, r: ReqId, o: Outcome)
    requires r in s.reqs
  {
    && !o.Lost?
    && (s.reqs[r].Rollback? || s.reqs[r].DeleteDecrement? ==> o.Ok?)
    && (s.reqs[r].CopyCommit? ==> MKey(s.reqs[r].dst, s.reqs[r].piece) !in s.store.manifests)
  }

  ghost predicate Exact(s: State) {
    forall k :: Refs(s, k) == RefCount(s.store, k)
  }

  lemma RefsStay(s: State, st': Store, r: ReqId, pc': Pc, k: Key)
    requires r in s.reqs && st'.manifests == s.store.manifests
    ensures Refs(State(st', s.reqs[r := pc']), k) + Ind(Holds(s.reqs[r], k)) == Refs(s, k) + Ind(Holds(pc', k))
  {
    HolderReqsUpdate(s.reqs, r, pc', k);
  }

  lemma RefsPut(s: State, st': Store, r: ReqId, pc': Pc, mk: MKey, m: Manifest, k: Key)
    requires r in s.reqs && st'.manifests == s.store.manifests[mk := m]
    ensures Refs(State(st', s.reqs[r := pc']), k) + Ind(Holds(s.reqs[r], k))
              + Ind(mk in s.store.manifests && s.store.manifests[mk].hash == Some(k))
            == Refs(s, k) + Ind(Holds(pc', k)) + Ind(m.hash == Some(k))
  {
    HolderReqsUpdate(s.reqs, r, pc', k);
    HolderManifestsPut(s.store.manifests, mk, m, k);
  }

  lemma RefsDrop(s: State, st': Store, r: ReqId, pc': Pc, mk: MKey, k: Key)
    requires r in s.reqs && st'.manifests == s.store.manifests - {mk}
    ensures Refs(State(st', s.reqs[r := pc']), k) + Ind(Holds(s.reqs[r], k))
              + Ind(mk in s.store.manifests && s.store.manifests[mk].hash == Some(k))
            == Refs(s, k) + Ind(Holds(pc', k))
  {
    HolderReqsUpdate(s.reqs, r, pc', k);
    HolderManifestsDrop(s.store.manifests, mk, k);
  }

  /** Which manifest a step writes or removes, if any. */
  function Touches(pc: Pc, o: Outcome): Option<MKey> {
    if o.Fail? then None
    else match pc
      case PutCommit(obj, _, _) => Some(MKey(obj, o.id))
      case PlainCommit(obj, p) => Some(MKey(obj, p))
      case CopyCommit(dst, _, p) => Some(MKey(dst, p))
      case DeleteManifest(mk, _) => Some(mk)
      case MigrateSwitch(mk, _, _) => Some(mk)
      case _ => None
  }

  /** A clean step that writes no manifest, of a request whose row, if it counts on one, is there. */
  predicate Quiet(st: Store, pc: Pc, o: Outcome) {
    && !o.Lost? && (pc.Rollback? || pc.DeleteDecrement? ==> o.Ok?) && Touches(pc, o).None?
    && (Held(pc).Some? ==> Held(pc).value in st.index && st.index[Held(pc).value].refCount > 0)
  }

  /** The index moves by exactly what the request's own hold moves by. */
  ghost predicate Balanced(st: Store, r: ReqId, pc: Pc, o: Outcome, k: Key) {
    var (st', pc') := Step(st, r, pc, o);
    st'.manifests == st.manifests && RefCount(st', k) + Ind(Holds(pc, k)) == RefCount(st, k) + Ind(Holds(pc', k))
  }

  lemma CountingBalanced(st: Store, r: ReqId, pc: Pc, o: Outcome, k: Key)
    requires Quiet(st, pc, o) && (pc.PutIncrement? || pc.PutRaceIncrement? || pc.CopyIncrement? || pc.PutRegister?)
    ensures Balanced(st, r, pc, o, k)
  {}

  lemma UncountingBalanced(st: Store, r: ReqId, pc: Pc, o: Outcome, k: Key)
    requires Quiet(st, pc, o) && (pc.Rollback? || pc.DeleteDecrement? || pc.DeleteRow?)
    ensures Balanced(st, r, pc, o, k)
  {}

  lemma PutBalanced(st: Store, r: ReqId, pc: Pc, o: Outcome, k: Key)
    requires Quiet(st, pc, o)
    requires pc.PutLookup? || pc.PutWrite? || pc.PutDropDuplicate? || pc.PutRelookup? || pc.PutCommit?
    ensures Balanced(st, r, pc, o, k)
  {}

  lemma IndexDelta(st: Store, r: ReqId, pc: Pc, o: Outcome, k: Key)
    requires Quiet(st, pc, o)
    ensures Balanced(st, r, pc, o, k)
  {
    if pc.PutIncrement? || pc.PutRaceIncrement? || pc.CopyIncrement? || pc.PutRegister? {
      CountingBalanced(st, r, pc, o, k);
    } else if pc.Rollback? || pc.DeleteDecrement? || pc.DeleteRow? {
      UncountingBalanced(st, r, pc, o, k);
    } else if pc.PutLookup? || pc.PutWrite? || pc.PutDropDuplicate? || pc.PutRelookup? || pc.PutCommit? {
      PutBalanced(st, r, pc, o, k);
    } else {
      assert Step(st, r, pc, o).0.index == st.index;
    }
  }

  lemma QuietStepExact(s: State, r: ReqId, o: Outcome, k: Key)
    requires r in s.reqs && Clean(s, r, o) && Exact(s) && Touches(s.reqs[r], o).None?
    ensures Refs(After(s, r, o), k) == RefCount(After(s, r, o).store, k)
  {
    if Held(s.reqs[r]).Some? {
      var k' := Held(s.reqs[r]).value;
      assert r in HolderReqs(s.reqs, k');
      assert Refs(s, k') == RefCount(s.store, k');
    }
    IndexDelta(s.store, r, s.reqs[r], o, k);
    var s' := After(s, r, o);
    RefsStay(s, s'.store, r, s'.reqs[r], k);
    assert Refs(s, k) == RefCount(s.store, k);
  }

  lemma ManifestStepExact(s: State, r: ReqId, o: Outcome, k: Key)
    requires CanStep(s, r, o) && Clean(s, r, o) && Exact(s) && Touches(s.reqs[r], o).Some?
    ensures Refs(After(s, r, o), k) == RefCount(After(s, r, o).store, k)
  {
    var s', mk := After(s, r, o), Touches(s.reqs[r], o).value;
    assert PcOk(s.store, r, s.reqs[r]);
    assert mk in s.store.manifests ==> ManifestOk(s.store, mk);
    ManifestDelta(s, r, o, k);
  }

  /** A commit turns a hold into a manifest; a delete turns a manifest into a hold. */
  lemma ManifestDelta(s: State, r: ReqId, o: Outcome, k: Key)
    requires r in s.reqs && Clean(s, r, o) && Exact(s) && Touches(s.reqs[r], o).Some?
    requires var pc, mk := s.reqs[r], Touches(s.reqs[r], o).value;
             match pc
             case PutCommit(_, _, _) => mk !in s.store.manifests
             case DeleteManifest(_, m) =>
               if m.hash.Some? then mk in s.store.manifests && s.store.manifests[mk] == m
               else mk in s.store.manifests ==> s.store.manifests[mk].hash.None?
             case CopyCommit(_, _, _) => true
             case _ => mk in s.store.manifests ==> s.store.manifests[mk].hash.None?
    ensures Refs(After(s, r, o), k) == RefCount(After(s, r, o).store, k)
  {
    var s', mk := After(s, r, o), Touches(s.reqs[r], o).value;
    assert Refs(s, k) == RefCount(s.store, k);
    if s.reqs[r].DeleteManifest? {
      RefsDrop(s, s'.store, r, s'.reqs[r], mk, k);
    } else {
      RefsPut(s, s'.store, r, s'.reqs[r], mk, s'.store.manifests[mk], k);
    }
  }

  predicate CleanRun(run: seq<Event>) {
    run == [] || (
      && CleanRun(run[..|run| - 1])
      && var e := run[|run| - 1];
         e.Call? && e.req in Exec(run[..|run| - 1]).reqs ==> Clean(Exec(run[..|run| - 1]), e.req, e.outcome))
  }

  /**
    Conservation: as long as every DecrementRef succeeds, no acknowledgement is
    lost and no copy overwrites an earlier copy of the same piece, the refcount
    of every row is exactly the number of manifests and in-flight requests that
    rely on it, whatever else fails.
   */
  lemma {:induction false} RefCountIsExact(run: seq<Event>)
    requires Run(run, All) && CleanRun(run)
    ensures Exact(Exec(run))
  {
    if run == [] {
      InitInv();
    } else {
      var s, s' := Exec(run[..|run| - 1]), Exec(run);
      RefCountIsExact(run[..|run| - 1]);
      RunKeepsInv(run[..|run| - 1]);
      forall k ensures Refs(s', k) == RefCount(s'.store, k) {
        match run[|run| - 1]
        case Begin(r, pc) =>
          HolderReqsUpdate(s.reqs, r, pc, k);
          assert Refs(s, k) == RefCount(s.store, k);
        case Call(r, o) =>
          if Touches(s.reqs[r], o).None? { QuietStepExact(s, r, o, k); } else { ManifestStepExact(s, r, o, k); }
      }
    }
  }

  // ---------------------------------------------------------------- each hypothesis is needed

  /** An IncrementRef after a stale Lookup or Manifests.Get is sound exactly when the row still names the same piece. */
  lemma IncrementSoundIff(s: State, r: ReqId, o: Outcome)
    requires Inv(s) && r in s.reqs && (s.reqs[r].PutIncrement? || s.reqs[r].CopyIncrement?)
    requires o.Ok? && s.reqs[r].key in s.store.index
    ensures Inv(After(s, r, o)) <==> s.store.index[s.reqs[r].key].piece == s.reqs[r].piece
  {
    var s' := After(s, r, o);
    if s.store.index[s.reqs[r].key].piece == s.reqs[r].piece {
      StepKeepsInv(s, r, o);
    } else {
      assert !PcOk(s'.store, r, s'.reqs[r]);
    }
  }

  /**
    Where counts are exact, the DecrementRef that follows a Manifests.Delete is
    covered exactly when that call still found the version the DELETE had read:
    tolerating ErrNotFound spends somebody else's reference.
   */
  lemma DeleteSoundIff(s: State, r: ReqId, o: Outcome, k: Key)
    requires Exact(s) && r in s.reqs && s.reqs[r].DeleteManifest? && s.reqs[r].manifest.hash == Some(k) && o.Ok?
    requires s.reqs[r].mkey in s.store.manifests ==> s.store.manifests[s.reqs[r].mkey].hash == Some(k)
    ensures CountsOk(After(s, r, o)) <==> s.reqs[r].mkey in s.store.manifests
  {
    var s', mk := After(s, r, o), s.reqs[r].mkey;
    forall k' ensures Refs(s', k') == RefCount(s.store, k') + Ind(k' == k && mk !in s.store.manifests) {
      RefsDrop(s, s'.store, r, s'.reqs[r], mk, k');
      assert Refs(s, k') == RefCount(s.store, k');
    }
    assert Refs(s', k) == RefCount(s.store, k) + Ind(mk !in s.store.manifests);
  }

  /**
    When a publishing call that took effect may report an error: a Register that lost
    its race wrote nothing; a commit's manifest and the rollback that follows it are
    both covered when the count has one to spare, or when the copy replaced its own
    earlier manifest.  A PUT without dedup and a migration roll back the piece that
    their manifest now names.
   */
  ghost predicate LossCovered(s: State, pc: Pc) {
    match pc
    case PutRegister(_, k, _) => k in s.store.index
    case PutCommit(_, k, _) => Refs(s, k) < RefCount(s.store, k)
    case CopyCommit(dst, k, p) => MKey(dst, p) in s.store.manifests || Refs(s, k) < RefCount(s.store, k)
    case _ => false
  }

  /** Manifests.Put of a shared manifest, reported as failed: the request still counts on the row. */
  lemma LostSharedIff(s: State, r: ReqId, mk: MKey, k: Key, p: Id)
    requires Inv(s) && r in s.reqs && Holds(s.reqs[r], k)
    requires k in s.store.index && s.store.index[k].piece == p && k.tenant == mk.obj.tenant
    requires mk.version in s.store.versionHash && s.store.versionHash[mk.version] == Some(k)
    ensures Moved(s, PutShared(s.store, mk, k, p), r, Rollback(k)) <==>
            mk in s.store.manifests || Refs(s, k) < RefCount(s.store, k)
  {
    var st' := PutShared(s.store, mk, k, p);
    var s' := State(st', s.reqs[r := Rollback(k)]);
    if mk in s.store.manifests { assert ManifestOk(s.store, mk); }
    forall k' ensures Refs(s', k') == Refs(s, k') + Ind(k' == k && mk !in s.store.manifests) {
      RefsPut(s, st', r, Rollback(k), mk, Manifest(Some(k), p), k');
    }
    if mk in s.store.manifests || Refs(s, k) < RefCount(s.store, k) {
      PutSharedStore(s, r, mk, k, p);
      PutSharedFrame(s, r, mk, k, p);
      forall k' ensures Refs(s', k') <= RefCount(st', k') { assert Refs(s, k') <= RefCount(s.store, k'); }
      Assemble(s, st', r, Rollback(k));
    } else {
      assert Refs(s', k) == Refs(s, k) + 1 > RefCount(st', k);
    }
  }

  lemma LostCommitIff(s: State, r: ReqId, o: Outcome)
    requires Inv(s) && r in s.reqs && s.reqs[r].PutCommit? && o.Lost? && Fresh(s.store, s.reqs[r], o)
    ensures Inv(After(s, r, o)) <==> LossCovered(s, s.reqs[r])
  {
    var obj, k, p := s.reqs[r].obj, s.reqs[r].key, s.reqs[r].piece;
    var named := State(NameVersion(s.store, o.id, k), s.reqs);
    assert PcOk(s.store, r, s.reqs[r]);
    NameVersionOk(s, r, o.id, k);
    assert Refs(named, k) == Refs(s, k);
    assert MKey(obj, o.id) in s.store.manifests ==> ManifestOk(s.store, MKey(obj, o.id));
    LostSharedIff(named, r, MKey(obj, o.id), k, p);
  }

  lemma LostCopyIff(s: State, r: ReqId, o: Outcome)
    requires Inv(s) && r in s.reqs && s.reqs[r].CopyCommit? && o.Lost?
    ensures Inv(After(s, r, o)) <==> LossCovered(s, s.reqs[r])
  {
    var dst, k, p := s.reqs[r].dst, s.reqs[r].key, s.reqs[r].piece;
    assert PcOk(s.store, r, s.reqs[r]);
    assert RowOk(s.store, k) && RoleOk(s.store, p);
    if MKey(dst, p) in s.store.manifests { assert ManifestOk(s.store, MKey(dst, p)); }
    LostSharedIff(s, r, MKey(dst, p), k, p);
  }

  lemma LostRegisterIff(s: State, r: ReqId, o: Outcome)
    requires Inv(s) && r in s.reqs && s.reqs[r].PutRegister? && o.Lost?
    ensures Inv(After(s, r, o)) <==> LossCovered(s, s.reqs[r])
  {
    var k, p := s.reqs[r].key, s.reqs[r].piece;
    assert PcOk(s.store, r, s.reqs[r]);
    if k in s.store.index { RetireTo(s, r, Reclaim(p), p); } else { NotOk(After(s, r, o), r); }
  }

  lemma LostSoloFails(s: State, r: ReqId, o: Outcome)
    requires r in s.reqs && (s.reqs[r].PlainCommit? || s.reqs[r].MigrateSwitch?) && o.Lost?
    ensures !Inv(After(s, r, o))
  {
    NotOk(After(s, r, o), r);
  }

  lemma NotOk(s: State, r: ReqId)
    requires r in s.reqs && !PcOk(s.store, r, s.reqs[r])
    ensures !Inv(s)
  {}

  /** A publishing call whose acknowledgement is lost keeps the invariant exactly when the loss is covered. */
  lemma LostPublicationSoundIff(s: State, r: ReqId, o: Outcome)
    requires Inv(s) && r in s.reqs && Publishes(s.reqs[r]) && o.Lost? && Fresh(s.store, s.reqs[r], o)
    ensures Inv(After(s, r, o)) <==> LossCovered(s, s.reqs[r])
  {
    match s.reqs[r]
    case PutRegister(_, _, _) => LostRegisterIff(s, r, o);
    case PutCommit(_, _, _) => LostCommitIff(s, r, o);
    case CopyCommit(_, _, _) => LostCopyIff(s, r, o);
    case _ => LostSoloFails(s, r, o);
  }

  /** Where counts are exact nothing is to spare: a commit never survives, a copy only over its own earlier manifest. */
  lemma LostWhereExactIff(s: State, r: ReqId, o: Outcome)
    requires Inv(s) && Exact(s) && r in s.reqs && (s.reqs[r].PutCommit? || s.reqs[r].CopyCommit?)
    requires o.Lost? && Fresh(s.store, s.reqs[r], o)
    ensures Inv(After(s, r, o)) <==>
            s.reqs[r].CopyCommit? && MKey(s.reqs[r].dst, s.reqs[r].piece) in s.store.manifests
  {
    LostPublicationSoundIff(s, r, o);
    assert Refs(s, s.reqs[r].key) == RefCount(s.store, s.reqs[r].key);
  }
}
