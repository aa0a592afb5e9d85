/**
  Reclamation: what DELETE and migration take away, and when nothing is left behind.
  A stored piece is named by an index row or by a manifest without ContentHash, or some
  request still holds it; a step that takes a name away keeps this exactly when the
  piece is the one its request goes on to reclaim, or another request holds it.
 */
module DedupReclaim {
  import opened Wrappers
  import opened DedupProtocol
  import opened DedupSafety
  import opened DedupExact

  // ---------------------------------------------------------------- what each call leaves

  /** The manifests after a call that succeeds: under the version it concerns what it says, and nothing else changed. */
  function Leaves(ms: map<MKey, Manifest>, pc: Pc, v: Id): map<MKey, Manifest> {
    match pc
    case PutCommit(obj, k, p) => ms[MKey(obj, v) := Manifest(Some(k), p)]
    case PlainCommit(obj, p) => ms[MKey(obj, p) := Manifest(None, p)]
    case CopyCommit(dst, k, p) => ms[MKey(dst, p) := Manifest(Some(k), p)]
    case DeleteManifest(mk, _) => ms - {mk}
    case MigrateSwitch(mk, _, q) => ms[mk := Manifest(None, q)]
    case _ => ms
  }

  lemma ManifestCall(s: State, r: ReqId, o: Outcome)
    requires r in s.reqs && o.Ok? && Touches(s.reqs[r], o).Some?
    ensures After(s, r, o).store.manifests == Leaves(s.store.manifests, s.reqs[r], o.id)
  {}

  lemma OtherCall(s: State, r: ReqId, o: Outcome)
    requires r in s.reqs && o.Ok? && Touches(s.reqs[r], o).None?
    ensures After(s, r, o).store.manifests == s.store.manifests
  {}

  lemma ManifestsAfter(s: State, r: ReqId, o: Outcome)
    requires r in s.reqs && o.Ok?
    ensures After(s, r, o).store.manifests == Leaves(s.store.manifests, s.reqs[r], o.id)
  {
    if Touches(s.reqs[r], o).Some? { ManifestCall(s, r, o); } else { OtherCall(s, r, o); }
  }

  /** What a DELETE does next: a piece of its own is reclaimed, a shared one is uncounted. */
  lemma DeleteGoesOn(s: State, r: ReqId, o: Outcome)
    requires r in s.reqs && s.reqs[r].DeleteManifest? && o.Ok?
    ensures s.reqs[r].mkey !in After(s, r, o).store.manifests
    ensures var m := s.reqs[r].manifest;
            After(s, r, o).reqs[r] == match m.hash
                                      case None => Reclaim(m.piece)
                                      case Some(k) => DeleteDecrement(k, m.piece)
  {}

  // ---------------------------------------------------------------- who accounts for a piece

  ghost predicate InRow(st: Store, p: Id) { exists k :: k in st.index && st.index[k].piece == p }

  ghost predicate InManifest(st: Store, p: Id) {
    exists mk :: mk in st.manifests && st.manifests[mk] == Manifest(None, p)
  }

  /** The piece is named by an index row or by a manifest without ContentHash. */
  ghost predicate Named(st: Store, p: Id) { InRow(st, p) || InManifest(st, p) }

  /** The request goes on to publish or to reclaim the piece. */
  predicate Claims(pc: Pc, p: Id) {
    match pc
    case PutRegister(_, _, q) => q == p
    case PutRaceIncrement(_, _, q) => q == p
    case PutDropDuplicate(_, _, q) => q == p
    case PlainCommit(_, q) => q == p
    case Reclaim(q) => q == p
    case DeleteManifest(_, Manifest(None, q)) => q == p
    case MigrateWrite(_, q) => q == p
    case MigrateSwitch(_, old', q) => old' == p || q == p
    case _ => false
  }

  ghost predicate Claimed(s: State, p: Id) { exists r :: r in s.reqs && Claims(s.reqs[r], p) }

  ghost predicate Accounted(s: State) {
    forall p :: p in s.store.pieces ==> Named(s.store, p) || Claimed(s, p)
  }

  lemma NamedIff(st: Store, p: Id)
    requires StoreOk(st)
    ensures Named(st, p) <==> p in st.role && (st.role[p].Shared? || st.role[p].Solo?)
  {
    if p in st.role {
      assert RoleOk(st, p);
    }
    if k :| k in st.index && st.index[k].piece == p { assert RowOk(st, k); }
    if mk :| mk in st.manifests && st.manifests[mk] == Manifest(None, p) { assert ManifestOk(st, mk); }
  }

  /** The piece a call takes the name from, if any. */
  function Unnames(st: Store, pc: Pc): Option<Id> {
    match pc
    case DeleteManifest(mk, _) =>
      if mk in st.manifests && st.manifests[mk].hash.None? then Some(st.manifests[mk].piece) else None
    case MigrateSwitch(mk, _, _) =>
      if mk in st.manifests && st.manifests[mk].hash.None? then Some(st.manifests[mk].piece) else None
    case DeleteRow(k, _) => if k in st.index && st.index[k].refCount == 0 then Some(st.index[k].piece) else None
    case _ => None
  }

  /** The piece the request read, and goes on to reclaim. */
  function Read(pc: Pc): Option<Id> {
    match pc
    case DeleteManifest(_, m) => if m.hash.None? then Some(m.piece) else None
    case MigrateSwitch(_, p, _) => Some(p)
    case DeleteRow(_, p) => Some(p)
    case _ => None
  }

  /** Another request holds the piece. */
  ghost predicate HeldByOther(s: State, r: ReqId, p: Id) {
    exists r' :: r' in s.reqs && r' != r && Claims(s.reqs[r'], p)
  }

  /** The call takes no name away but from the piece its request reclaims, or one that another request holds. */
  ghost predicate LeavesNothing(s: State, r: ReqId)
    requires r in s.reqs
  {
    var x := Unnames(s.store, s.reqs[r]);
    x.None? || x == Read(s.reqs[r]) || HeldByOther(s, r, x.value)
  }

  lemma StaysNamed(s: State, r: ReqId, o: Outcome, p: Id)
    requires CanStep(s, r, o) && o.Ok? && Named(s.store, p) && Unnames(s.store, s.reqs[r]) != Some(p)
    ensures Named(After(s, r, o).store, p)
  {
    StepKeepsInv(s, r, o);
    NamedIff(s.store, p);
    NamedIff(After(s, r, o).store, p);
    assert PcOk(s.store, r, s.reqs[r]);
    assert RoleOk(s.store, p);
  }

  /** What the acting request claimed it still claims, or has published, or has dropped. */
  lemma ClaimMovesOn(s: State, r: ReqId, o: Outcome, p: Id)
    requires CanStep(s, r, o) && o.Ok? && p in s.store.pieces && Claims(s.reqs[r], p)
    ensures var s' := After(s, r, o);
            p !in s'.store.pieces || Named(s'.store, p) || Claims(s'.reqs[r], p)
  {
    StepKeepsInv(s, r, o);
    NamedIff(After(s, r, o).store, p);
    assert PcOk(s.store, r, s.reqs[r]);
  }

  predicate Stores(pc: Pc) { pc.PutWrite? || pc.PlainWrite? || pc.CopyBytes? || pc.MigrateWrite? }

  lemma PutStoresNothing(st: Store, r: ReqId, pc: Pc, o: Outcome, p: Id)
    requires !Stores(pc) && Held(pc).None? && p in Step(st, r, pc, o).0.pieces
    ensures p in st.pieces
  {}

  lemma HolderStoresNothing(st: Store, r: ReqId, pc: Pc, o: Outcome, p: Id)
    requires Held(pc).Some? && p in Step(st, r, pc, o).0.pieces
    ensures p in st.pieces
  {}

  /** A piece that appears is claimed by the request that wrote it. */
  lemma NewIsClaimed(s: State, r: ReqId, o: Outcome, p: Id)
    requires r in s.reqs && o.Ok? && p !in s.store.pieces && p in After(s, r, o).store.pieces
    ensures Claims(After(s, r, o).reqs[r], p)
  {
    if !Stores(s.reqs[r]) {
      if Held(s.reqs[r]).None? {
        PutStoresNothing(s.store, r, s.reqs[r], o, p);
      } else {
        HolderStoresNothing(s.store, r, s.reqs[r], o, p);
      }
    }
  }

  lemma AccountStays(s: State, r: ReqId, o: Outcome, p: Id)
    requires CanStep(s, r, o) && o.Ok? && Accounted(s) && p in After(s, r, o).store.pieces
    requires Unnames(s.store, s.reqs[r]) != Some(p) || HeldByOther(s, r, p) || Read(s.reqs[r]) == Some(p)
    ensures Named(After(s, r, o).store, p) || Claimed(After(s, r, o), p)
  {
    var s' := After(s, r, o);
    if p !in s.store.pieces {
      NewIsClaimed(s, r, o, p);
      assert r in s'.reqs;
    } else if HeldByOther(s, r, p) {
      var r' :| r' in s.reqs && r' != r && Claims(s.reqs[r'], p);
      assert r' in s'.reqs && s'.reqs[r'] == s.reqs[r'];
    } else if Claims(s.reqs[r], p) {
      ClaimMovesOn(s, r, o, p);
      assert r in s'.reqs;
    } else if Unnames(s.store, s.reqs[r]) == Some(p) {
      ReclaimsRead(s, r, o);
      assert r in s'.reqs;
    } else {
      StaysNamed(s, r, o, p);
    }
  }

  lemma ReclaimsRead(s: State, r: ReqId, o: Outcome)
    requires r in s.reqs && o.Ok? && Unnames(s.store, s.reqs[r]).Some? && Read(s.reqs[r]).Some?
    ensures After(s, r, o).reqs[r] == Reclaim(Read(s.reqs[r]).value)
  {}

  lemma LeftBehind(s: State, r: ReqId, o: Outcome)
    requires CanStep(s, r, o) && o.Ok? && !LeavesNothing(s, r)
    ensures !Accounted(After(s, r, o))
  {
    var s', x := After(s, r, o), Unnames(s.store, s.reqs[r]).value;
    assert PcOk(s.store, r, s.reqs[r]);
    assert x in s.store.pieces by {
      NamedIsStored(s.store, x);
    }
    LosesName(s, r, o);
    assert !Claimed(s', x);
  }

  lemma NamedIsStored(st: Store, p: Id)
    requires StoreOk(st) && Named(st, p)
    ensures p in st.pieces
  {
    if k :| k in st.index && st.index[k].piece == p { assert RowOk(st, k); }
    if mk :| mk in st.manifests && st.manifests[mk] == Manifest(None, p) { assert ManifestOk(st, mk); }
  }

  /** The piece is still stored and has lost its name. */
  lemma LosesName(s: State, r: ReqId, o: Outcome)
    requires CanStep(s, r, o) && o.Ok? && Unnames(s.store, s.reqs[r]).Some?
    ensures var x, s' := Unnames(s.store, s.reqs[r]).value, After(s, r, o);
            !Named(s'.store, x) && (x in s.store.pieces ==> x in s'.store.pieces)
  {
    var x := Unnames(s.store, s.reqs[r]).value;
    StepKeepsInv(s, r, o);
    NamedIff(After(s, r, o).store, x);
    assert PcOk(s.store, r, s.reqs[r]);
    match s.reqs[r]
    case DeleteManifest(mk, _) => assert ManifestOk(s.store, mk);
    case MigrateSwitch(mk, _, _) => assert ManifestOk(s.store, mk);
    case DeleteRow(k, _) => assert RowOk(s.store, k);
  }

  /** A call that succeeds keeps every stored piece accounted for exactly when it leaves nothing behind. */
  lemma AccountedIff(s: State, r: ReqId, o: Outcome)
    requires CanStep(s, r, o) && o.Ok? && Accounted(s)
    ensures Accounted(After(s, r, o)) <==> LeavesNothing(s, r)
  {
    if LeavesNothing(s, r) {
      forall p | p in After(s, r, o).store.pieces
        ensures Named(After(s, r, o).store, p) || Claimed(After(s, r, o), p)
      {
        AccountStays(s, r, o, p);
      }
    } else {
      LeftBehind(s, r, o);
    }
  }

  lemma BeginAccounts(s: State, r: ReqId, pc: Pc)
    requires Accounted(s) && r !in s.reqs
    ensures Accounted(s.(reqs := s.reqs[r := pc]))
  {
    var s' := s.(reqs := s.reqs[r := pc]);
    forall p | p in s'.store.pieces && !Named(s'.store, p)
      ensures Claimed(s', p)
    {
      var r' :| r' in s.reqs && Claims(s.reqs[r'], p);
      assert r' in s'.reqs && s'.reqs[r'] == s.reqs[r'];
    }
  }

  ghost predicate AlwaysAccounted(run: seq<Event>) {
    Accounted(Exec(run)) && (run != [] ==> AlwaysAccounted(run[..|run| - 1]))
  }

  predicate CallsSucceed(run: seq<Event>) {
    forall i :: 0 <= i < |run| && run[i].Call? ==> run[i].outcome.Ok?
  }

  /** No call of the run leaves a piece behind where it happens. */
  ghost predicate NeverLeaves(run: seq<Event>) {
    run == [] || (
      && NeverLeaves(run[..|run| - 1])
      && var e, s := run[|run| - 1], Exec(run[..|run| - 1]);
         e.Call? && e.req in s.reqs ==> LeavesNothing(s, e.req))
  }

  /**
    Over every run whose calls succeed, however its requests overlap: every stored piece is
    accounted for at every moment exactly when no call leaves a piece behind.
   */
  lemma {:induction false} AlwaysAccountedIff(run: seq<Event>)
    requires Run(run, All) && CallsSucceed(run)
    ensures AlwaysAccounted(run) <==> NeverLeaves(run)
  {
    if run != [] {
      var before, last := run[..|run| - 1], run[|run| - 1];
      AlwaysAccountedIff(before);
      if AlwaysAccounted(before) {
        RunKeepsInv(before);
        match last
        case Begin(r, pc) => BeginAccounts(Exec(before), r, pc);
        case Call(r, o) => AccountedIff(Exec(before), r, o);
      }
    }
  }

  // ---------------------------------------------------------------- requests that do not overlap

  datatype Subject = OfVersion(mkey: MKey) | OfRow(key: Key)

  /** The version a request is about to remove or replace, or the row it is about to drop. */
  function Concern(pc: Pc): Option<Subject> {
    match pc
    case DeleteManifest(mk, _) => Some(OfVersion(mk))
    case MigrateWrite(mk, _) => Some(OfVersion(mk))
    case MigrateSwitch(mk, _, _) => Some(OfVersion(mk))
    case DeleteRow(k, _) => Some(OfRow(k))
    case _ => None
  }

  /** A request takes up a version or a row only while no other request is at work on it. */
  predicate Alone(s: State, r: ReqId, o: Outcome)
    requires r in s.reqs
  {
    var next := Concern(Step(s.store, r, s.reqs[r], o).1);
    next.None? || forall r' :: r' in s.reqs && r' != r ==> Concern(s.reqs[r']) != next
  }

  /** What the request read is still so. */
  ghost predicate Current(st: Store, pc: Pc) {
    match pc
    case DeleteManifest(mk, m) => mk in st.manifests && st.manifests[mk] == m
    case MigrateWrite(mk, p) => mk in st.manifests && st.manifests[mk] == Manifest(None, p)
    case MigrateSwitch(mk, p, _) => mk in st.manifests && st.manifests[mk] == Manifest(None, p)
    case DeleteRow(k, p) => k in st.index && st.index[k].piece == p
    case _ => true
  }

  ghost predicate Steady(s: State) {
    && (forall r :: r in s.reqs ==> Current(s.store, s.reqs[r]))
    && (forall r, r' :: r in s.reqs && r' in s.reqs && r != r' && Concern(s.reqs[r]).Some? ==>
          Concern(s.reqs[r]) != Concern(s.reqs[r']))
  }

  lemma SteadyLeavesNothing(s: State, r: ReqId)
    requires Steady(s) && r in s.reqs
    ensures LeavesNothing(s, r)
  {
    assert Current(s.store, s.reqs[r]);
  }

  lemma OwnStaysCurrent(s: State, r: ReqId, o: Outcome)
    requires CanStep(s, r, o) && o.Ok? && Current(s.store, s.reqs[r])
    ensures Current(After(s, r, o).store, After(s, r, o).reqs[r])
  {
    assert PcOk(s.store, r, s.reqs[r]);
  }

  /** The calls on the content index that change it. */
  predicate Counts(pc: Pc) {
    || pc.PutIncrement? || pc.PutRaceIncrement? || pc.CopyIncrement? || pc.PutRegister?
    || pc.Rollback? || pc.DeleteDecrement? || pc.DeleteRow?
  }

  lemma IndexStays(st: Store, r: ReqId, pc: Pc, o: Outcome)
    requires !Counts(pc) && Touches(pc, o).None?
    ensures Step(st, r, pc, o).0.index == st.index
  {}

  lemma CommitKeepsIndex(st: Store, r: ReqId, pc: Pc, o: Outcome)
    requires Touches(pc, o).Some?
    ensures Step(st, r, pc, o).0.index == st.index
  {}

  lemma CountKeepsRow(st: Store, r: ReqId, pc: Pc, o: Outcome, k: Key)
    requires Counts(pc) && o.Ok? && k in st.index && Concern(pc) != Some(OfRow(k))
    ensures var st' := Step(st, r, pc, o).0;
            k in st'.index && st'.index[k].piece == st.index[k].piece
  {}

  /** A row keeps its piece until a request that is to drop it does. */
  lemma RowStays(s: State, r: ReqId, o: Outcome, k: Key)
    requires r in s.reqs && o.Ok? && k in s.store.index && Concern(s.reqs[r]) != Some(OfRow(k))
    ensures k in After(s, r, o).store.index && After(s, r, o).store.index[k].piece == s.store.index[k].piece
  {
    var pc := s.reqs[r];
    if Touches(pc, o).Some? { CommitKeepsIndex(s.store, r, pc, o); }
    else if Counts(pc) { CountKeepsRow(s.store, r, pc, o, k); }
    else { IndexStays(s.store, r, pc, o); }
  }

  /** A version keeps its manifest until a request that is to remove or replace it does. */
  lemma VersionStays(s: State, r: ReqId, o: Outcome, mk: MKey)
    requires CanStep(s, r, o) && o.Ok? && mk in s.store.manifests && Concern(s.reqs[r]) != Some(OfVersion(mk))
    ensures mk in After(s, r, o).store.manifests && After(s, r, o).store.manifests[mk] == s.store.manifests[mk]
  {
    ManifestsAfter(s, r, o);
    assert PcOk(s.store, r, s.reqs[r]) && ManifestOk(s.store, mk);
    if s.reqs[r].CopyCommit? {
      assert RowOk(s.store, s.reqs[r].key) && RoleOk(s.store, s.reqs[r].piece);
    }
  }

  lemma OtherStaysCurrent(s: State, r: ReqId, o: Outcome, r': ReqId)
    requires CanStep(s, r, o) && o.Ok? && Steady(s) && r' in s.reqs && r' != r
    ensures Current(After(s, r, o).store, s.reqs[r'])
  {
    assert Current(s.store, s.reqs[r']);
    match Concern(s.reqs[r'])
    case None =>
    case Some(OfVersion(mk)) => VersionStays(s, r, o, mk);
    case Some(OfRow(k)) => RowStays(s, r, o, k);
  }

  lemma StepKeepsSteady(s: State, r: ReqId, o: Outcome)
    requires CanStep(s, r, o) && o.Ok? && Steady(s) && Alone(s, r, o)
    ensures Steady(After(s, r, o))
  {
    var s' := After(s, r, o);
    OwnStaysCurrent(s, r, o);
    forall r' | r' in s'.reqs
      ensures Current(s'.store, s'.reqs[r'])
    {
      if r' != r { OtherStaysCurrent(s, r, o, r'); }
    }
  }

  /** Every call succeeds, and requests do not overlap on a version or on a row to be dropped. */
  predicate Orderly(run: seq<Event>) {
    run == [] || (
      && Orderly(run[..|run| - 1])
      && var e, s := run[|run| - 1], Exec(run[..|run| - 1]);
         e.Call? && e.req in s.reqs ==> e.outcome.Ok? && Alone(s, e.req, e.outcome))
  }

  lemma BeginKeepsSteady(s: State, r: ReqId, pc: Pc)
    requires Steady(s) && r !in s.reqs && Initial(pc)
    ensures Steady(s.(reqs := s.reqs[r := pc]))
  {}

  lemma {:induction false} OrderlyIsAccounted(run: seq<Event>)
    requires Run(run, All) && Orderly(run)
    ensures Accounted(Exec(run)) && Steady(Exec(run))
  {
    if run != [] {
      var s := Exec(run[..|run| - 1]);
      OrderlyIsAccounted(run[..|run| - 1]);
      RunKeepsInv(run[..|run| - 1]);
      match run[|run| - 1]
      case Begin(r, pc) =>
        BeginAccounts(s, r, pc);
        BeginKeepsSteady(s, r, pc);
      case Call(r, o) =>
        SteadyLeavesNothing(s, r);
        AccountedIff(s, r, o);
        StepKeepsSteady(s, r, o);
    }
  }

  ghost predicate AllDone(s: State) { forall r :: r in s.reqs ==> s.reqs[r].Done? }

  /**
    Reclamation: after every orderly run that has come to rest, the stored pieces are
    exactly those named by an index row or by a manifest without ContentHash.
   */
  lemma NothingLeftBehind(run: seq<Event>, p: Id)
    requires Run(run, All) && Orderly(run) && AllDone(Exec(run))
    ensures p in Exec(run).store.pieces <==> Named(Exec(run).store, p)
  {
    RunKeepsInv(run);
    OrderlyIsAccounted(run);
    if Named(Exec(run).store, p) { NamedIsStored(Exec(run).store, p); }
  }

  // ---------------------------------------------------------------- rows without references

  /** A row whose count has come to zero is about to be dropped, and no request rolls back. */
  ghost predicate Dropping(s: State) {
    && (forall r :: r in s.reqs ==> !s.reqs[r].Rollback?)
    && (forall k :: k in s.store.index && s.store.index[k].refCount == 0 ==> Pends(s, k))
  }

  ghost predicate Pends(s: State, k: Key) { exists r :: r in s.reqs && Concern(s.reqs[r]) == Some(OfRow(k)) }

  lemma HolderFindsRow(s: State, r: ReqId, k: Key)
    requires Inv(s) && r in s.reqs && Holds(s.reqs[r], k)
    ensures k in s.store.index && s.store.index[k].refCount > 0
  {
    assert r in HolderReqs(s.reqs, k);
    assert Refs(s, k) <= RefCount(s.store, k);
  }

  lemma NeverRollsBack(s: State, r: ReqId, o: Outcome)
    requires CanStep(s, r, o) && o.Ok? && !s.reqs[r].Rollback?
    ensures !After(s, r, o).reqs[r].Rollback?
  {
    if s.reqs[r].PutRelookup? { HolderFindsRow(s, r, s.reqs[r].key); }
  }

  lemma CountReachesZero(st: Store, r: ReqId, pc: Pc, o: Outcome, k: Key)
    requires o.Ok? && Counts(pc) && !pc.Rollback? && k in Step(st, r, pc, o).0.index
    requires Step(st, r, pc, o).0.index[k].refCount == 0
    ensures || Concern(Step(st, r, pc, o).1) == Some(OfRow(k))
            || (k in st.index && st.index[k].refCount == 0 && Concern(pc) != Some(OfRow(k)))
  {}

  lemma ZeroRowPends(s: State, r: ReqId, o: Outcome, k: Key)
    requires CanStep(s, r, o) && o.Ok? && Dropping(s)
    requires k in After(s, r, o).store.index && After(s, r, o).store.index[k].refCount == 0
    ensures Pends(After(s, r, o), k)
  {
    var pc, s' := s.reqs[r], After(s, r, o);
    if Touches(pc, o).Some? { CommitKeepsIndex(s.store, r, pc, o); }
    else if Counts(pc) { CountReachesZero(s.store, r, pc, o, k); }
    else { IndexStays(s.store, r, pc, o); }
    if Concern(s'.reqs[r]) != Some(OfRow(k)) {
      var r' :| r' in s.reqs && Concern(s.reqs[r']) == Some(OfRow(k));
      assert r' in s'.reqs && s'.reqs[r'] == s.reqs[r'];
    }
  }

  lemma {:induction false} OrderlyDrops(run: seq<Event>)
    requires Run(run, All) && Orderly(run)
    ensures Dropping(Exec(run))
  {
    if run != [] {
      var s, s' := Exec(run[..|run| - 1]), Exec(run);
      OrderlyDrops(run[..|run| - 1]);
      RunKeepsInv(run[..|run| - 1]);
      match run[|run| - 1]
      case Begin(r, pc) =>
        forall k | k in s'.store.index && s'.store.index[k].refCount == 0 ensures Pends(s', k) {
          var r' :| r' in s.reqs && Concern(s.reqs[r']) == Some(OfRow(k));
          assert r' in s'.reqs && s'.reqs[r'] == s.reqs[r'];
        }
      case Call(r, o) =>
        NeverRollsBack(s, r, o);
        forall k | k in s'.store.index && s'.store.index[k].refCount == 0 ensures Pends(s', k) {
          ZeroRowPends(s, r, o, k);
        }
    }
  }

  /** Where counts are exact, a row that is not about to be dropped has a manifest. */
  lemma RowIsServed(s: State, k: Key)
    requires Inv(s) && Exact(s) && Dropping(s) && AllDone(s) && k in s.store.index
    ensures exists mk :: mk in s.store.manifests && s.store.manifests[mk].piece == s.store.index[k].piece
  {
    assert s.store.index[k].refCount > 0;
    assert HolderReqs(s.reqs, k) == {};
    assert Refs(s, k) == RefCount(s.store, k);
    var mk :| mk in HolderManifests(s.store.manifests, k);
    assert ManifestOk(s.store, mk);
  }

  /**
    With exact counts as well, the stored pieces after an orderly run that has come to
    rest are exactly those some manifest names: nothing is lost, nothing is left over.
   */
  lemma EveryPieceIsServed(run: seq<Event>, p: Id)
    requires Run(run, All) && Orderly(run) && CleanRun(run) && AllDone(Exec(run))
    ensures var st := Exec(run).store;
            p in st.pieces <==> exists mk :: mk in st.manifests && st.manifests[mk].piece == p
  {
    var s := Exec(run);
    RunKeepsInv(run);
    RefCountIsExact(run);
    OrderlyDrops(run);
    NothingLeftBehind(run, p);
    InvIsSafe(s);
    if k :| k in s.store.index && s.store.index[k].piece == p { RowIsServed(s, k); }
  }
}
