/**
  The AAD migrator: which manifests it re-seals, the steps of one migration with
  every failure point, and the paging sweep with its counters.
 */
module AadMigrator {
  import opened Wrappers
  import opened ErasureCoding
  import opened ErasureRead
  import opened Sealing
  import opened ObjectBytes

  datatype Outcome = Migrated | NotMine | Already | Dedup | Multi | TooBig

  function Eligibility(m: Manifest, limit: nat): Outcome {
    if !IsGatewayEncrypted(m.enc.mode) then NotMine
    else if m.enc.aad == V1 then Already
    else if m.contentHash.Some? then Dedup
    else if !m.layout.Single? then Multi
    else if m.size > limit then TooBig
    else Migrated
  }

  /** The new ciphertext and manifest, or None when reading or opening the old piece fails. */
  function Resealed(g: Config, pieces: Pieces, m: Manifest, newID: PieceID, draw: Draw): Option<(Bytes, Manifest)>
    requires m.layout.Single?
  {
    if m.layout.piece.id !in pieces then None
    else
      match OpenFromStorage(g.suite, m.enc, m.id, pieces[m.layout.piece.id])
      case None => None
      case Some(plaintext) => Some(SealedManifest(g, m.id, m.enc.mode, plaintext, m.size, newID, draw))
  }

  /** Re-sealing keeps the identity, the mode and the bytes a GET returns. */
  lemma ResealedReads(g: Config, pieces: Pieces, m: Manifest, newID: PieceID, draw: Draw, bytes: Bytes)
    requires Sound(g) && Eligibility(m, g.bufferLimit) == Migrated && Get(g, pieces, m) == Some(bytes)
    ensures var r := Resealed(g, pieces, m, newID, draw);
            && r.Some? && r.value.1.id == m.id && r.value.1.enc.mode == m.enc.mode && r.value.1.enc.aad == V1
            && r.value.1.contentHash == None && r.value.1.layout.Single? && r.value.1.layout.piece.id == newID
            && Get(g, pieces[newID := r.value.0], r.value.1) == Some(bytes) && WellFormed(r.value.1)
            && Eligibility(r.value.1, g.bufferLimit) == Already
  {
    SealedIsRead(g, pieces, m.id, m.enc.mode, bytes, m.size, newID, draw);
  }

  // ---------------------------------------------------------------- one migration

  datatype Store = Store(pieces: Pieces, manifests: Manifests, latest: Latest)

  /** Which of migrateOne's calls fails, if any; a failed switch may or may not clean up its piece. */
  datatype Fault = NoFault | NoBackend | GetFails | SealFails | PutFails | SwitchFails(cleaned: bool) | DeleteFails

  /** What one migration draws from outside: its piece ID, its key material, its fault. */
  datatype Luck = Luck(newID: PieceID, draw: Draw, fault: Fault)

  datatype Result = Done(outcome: Outcome) | Errored

  function Migrate(g: Config, st: Store, k: Identity, m: Manifest, luck: Luck): (Store, Result) {
    var outcome := Eligibility(m, g.bufferLimit);
    if outcome != Migrated then (st, Done(outcome))
    else if luck.fault in {NoBackend, GetFails} || m.layout.piece.id !in st.pieces then (st, Errored)
    else if |st.pieces[m.layout.piece.id]| > g.bufferLimit then (st, Done(TooBig))
    else
      var made := Resealed(g, st.pieces, m, luck.newID, luck.draw);
      if made.None? || luck.fault in {SealFails, PutFails} then (st, Errored)
      else
        var written := st.pieces[luck.newID := made.value.0];
        if luck.fault.SwitchFails? then
          (st.(pieces := if luck.fault.cleaned then written - {luck.newID} else written), Errored)
        else
          (Store(if luck.fault == DeleteFails then written else written - {m.layout.piece.id},
                 st.manifests[k := made.value.1], st.latest[NameOf(k) := k]),
           Done(Migrated))
  }

  datatype Stats = Stats(scanned: nat, migrated: nat, notMine: nat, already: nat, dedup: nat, multi: nat, tooBig: nat,
                         errors: nat)

  const NoStats := Stats(0, 0, 0, 0, 0, 0, 0, 0)

  function Tally(stats: Stats, r: Result): Stats {
    var stats := stats.(scanned := stats.scanned + 1);
    match r
    case Errored => stats.(errors := stats.errors + 1)
    case Done(Migrated) => stats.(migrated := stats.migrated + 1)
    case Done(NotMine) => stats.(notMine := stats.notMine + 1)
    case Done(Already) => stats.(already := stats.already + 1)
    case Done(Dedup) => stats.(dedup := stats.dedup + 1)
    case Done(Multi) => stats.(multi := stats.multi + 1)
    case Done(TooBig) => stats.(tooBig := stats.tooBig + 1)
  }

  // ---------------------------------------------------------------- a sweep, as a value

  /** The listing names every object once. */
  ghost predicate Lists(order: seq<Identity>, manifests: Manifests) {
    && (forall k :: k in order <==> k in manifests)
    && (forall i, j :: 0 <= i < j < |order| ==> order[i] != order[j])
  }

  /** What the sweep does to one object: the i-th of the listing. */
  type Visit = (Store, nat) -> (Store, Result)

  function Visiting(g: Config, order: seq<Identity>, luck: nat -> Luck): Visit {
    (st: Store, i: nat) =>
      if i < |order| && order[i] in st.manifests then Migrate(g, st, order[i], st.manifests[order[i]], luck(i))
      else (st, Errored)
  }

  /** The store and counters after the first n visits. */
  function Visited(f: Visit, st: Store, n: nat): (Store, Stats) {
    if n == 0 then (st, NoStats)
    else
      var (before, stats) := Visited(f, st, n - 1);
      var (after, r) := f(before, n - 1);
      (after, Tally(stats, r))
  }

  function Swept(g: Config, st: Store, order: seq<Identity>, luck: nat -> Luck, n: nat): (Store, Stats) {
    Visited(Visiting(g, order, luck), st, n)
  }

  /** A claim about the store and counters that every visit keeps holds after any number of them. */
  ghost predicate Kept(f: Visit, p: (Store, Stats, nat) -> bool, top: nat) {
    forall st: Store, stats: Stats, i: nat :: i < top && p(st, stats, i) ==>
      p(f(st, i).0, Tally(stats, f(st, i).1), i + 1)
  }

  lemma {:induction false} VisitedKeeps(f: Visit, st: Store, p: (Store, Stats, nat) -> bool, top: nat, n: nat)
    requires p(st, NoStats, 0) && Kept(f, p, top) && n <= top
    ensures p(Visited(f, st, n).0, Visited(f, st, n).1, n)
  {
    if n > 0 {
      VisitedKeeps(f, st, p, top, n - 1);
      var (before, stats) := Visited(f, st, n - 1);
      assert p(f(before, n - 1).0, Tally(stats, f(before, n - 1).1), n - 1 + 1);
    }
  }

  /** The same for a claim q that every visit keeps where p holds. */
  ghost predicate KeptGiven(f: Visit, p: (Store, Stats, nat) -> bool, q: (Store, Stats, nat) -> bool, top: nat) {
    forall st: Store, stats: Stats, i: nat :: i < top && p(st, stats, i) && q(st, stats, i) ==>
      q(f(st, i).0, Tally(stats, f(st, i).1), i + 1)
  }

  lemma {:induction false} VisitedKeepsGiven(f: Visit, st: Store, p: (Store, Stats, nat) -> bool,
                                             q: (Store, Stats, nat) -> bool, top: nat, n: nat)
    requires p(st, NoStats, 0) && q(st, NoStats, 0) && Kept(f, p, top) && KeptGiven(f, p, q, top) && n <= top
    ensures q(Visited(f, st, n).0, Visited(f, st, n).1, n)
  {
    if n > 0 {
      VisitedKeepsGiven(f, st, p, q, top, n - 1);
      VisitedKeeps(f, st, p, top, n - 1);
      var (before, stats) := Visited(f, st, n - 1);
      assert q(f(before, n - 1).0, Tally(stats, f(before, n - 1).1), n - 1 + 1);
    }
  }

  ghost predicate Partition(stats: Stats) {
    stats.scanned
    == stats.migrated + stats.notMine + stats.already + stats.dedup + stats.multi + stats.tooBig + stats.errors
  }

  /** The counters partition the objects scanned, at every point of every sweep. */
  lemma CountersPartition(g: Config, st: Store, order: seq<Identity>, luck: nat -> Luck, n: nat)
    ensures var stats := Swept(g, st, order, luck, n).1;
            stats.scanned == n && Partition(stats)
  {
    VisitedPartition(Visiting(g, order, luck), st, n);
  }

  lemma {:induction false} VisitedPartition(f: Visit, st: Store, n: nat)
    ensures Visited(f, st, n).1.scanned == n && Partition(Visited(f, st, n).1)
  {
    if n > 0 {
      VisitedPartition(f, st, n - 1);
      var (before, stats) := Visited(f, st, n - 1);
      TallyPartitions(stats, f(before, n - 1).1);
    }
  }

  lemma TallyPartitions(stats: Stats, r: Result)
    requires Partition(stats)
    ensures Partition(Tally(stats, r)) && Tally(stats, r).scanned == stats.scanned + 1
  {}

  lemma SweptNext(g: Config, st: Store, order: seq<Identity>, luck: nat -> Luck, n: nat, before: Store, stats: Stats)
    requires Swept(g, st, order, luck, n) == (before, stats) && n < |order| && order[n] in before.manifests
    ensures var (after, r) := Migrate(g, before, order[n], before.manifests[order[n]], luck(n));
            Swept(g, st, order, luck, n + 1) == (after, Tally(stats, r))
  {}

  /** The migrator would not re-seal this object: not eligible, or its stored piece is over the limit. */
  predicate Settled(g: Config, pieces: Pieces, m: Manifest) {
    Eligibility(m, g.bufferLimit) == Migrated ==>
      m.layout.piece.id in pieces && |pieces[m.layout.piece.id]| > g.bufferLimit
  }

  lemma SettledStays(g: Config, st: Store, k: Identity, m: Manifest, luck: Luck)
    requires Settled(g, st.pieces, m)
    ensures var (after, r) := Migrate(g, st, k, m, luck);
            after == st && r != Done(Migrated)
  {}

  lemma MigrateSettles(g: Config, st: Store, k: Identity, m: Manifest, luck: Luck)
    requires k in st.manifests && st.manifests[k] == m
    ensures var (after, r) := Migrate(g, st, k, m, luck);
            r != Errored ==> Settled(g, after.pieces, after.manifests[k])
  {}

  // ---------------------------------------------------------------- ownership

  /** Every object is readable and a piece of an object without a content hash is its alone. */
  ghost predicate Tidy(g: Config, st: Store, used: set<PieceID>) {
    && (forall k :: k in st.manifests ==>
          st.manifests[k].id == k && Get(g, st.pieces, st.manifests[k]).Some? && IDs(st.manifests[k]) <= used)
    && (forall k, k' :: k in st.manifests && k' in st.manifests && k != k' && st.manifests[k].contentHash.None? ==>
          IDs(st.manifests[k]) !! IDs(st.manifests[k']))
  }

  /** Object k is not affected: same manifest, same bytes behind its pieces. */
  ghost predicate Apart(st: Store, after: Store, k: Identity)
    requires k in st.manifests
  {
    && k in after.manifests && after.manifests[k] == st.manifests[k]
    && Agree(st.pieces, after.pieces, IDs(st.manifests[k]))
  }

  /** Every manifest but k's is there unchanged. */
  ghost predicate SameBut(before: Manifests, after: Manifests, k: Identity) {
    forall k' :: k' in before && k' != k ==> k' in after && after[k'] == before[k']
  }

  /**
    A migration touches its new piece, the piece it replaces, its own manifest, and,
    since the switch is a Manifests.Put, the current version of its name.
   */
  lemma MigrateTouches(g: Config, st: Store, k: Identity, m: Manifest, luck: Luck, ids: set<PieceID>)
    requires luck.newID !in ids && (Eligibility(m, g.bufferLimit) == Migrated ==> m.layout.piece.id !in ids)
    ensures Agree(st.pieces, Migrate(g, st, k, m, luck).0.pieces, ids)
    ensures SameBut(st.manifests, Migrate(g, st, k, m, luck).0.manifests, k)
    ensures Migrate(g, st, k, m, luck).0.latest
         == if Migrate(g, st, k, m, luck).1 == Done(Migrated) then st.latest[NameOf(k) := k] else st.latest
  {}

  /** What a migration leaves on the backend: its new piece in place of the old, or what was there. */
  lemma MigrateStores(g: Config, st: Store, k: Identity, m: Manifest, luck: Luck)
    requires luck.newID !in st.pieces && (m.layout.Single? ==> luck.newID != m.layout.piece.id)
    ensures var (after, r) := Migrate(g, st, k, m, luck);
            && (r == Done(Migrated) ==>
                  && m.layout.Single? && luck.newID in after.pieces
                  && after.pieces.Keys - {luck.newID}
                  == (if luck.fault == DeleteFails then st.pieces.Keys else st.pieces.Keys - {m.layout.piece.id}))
            && (r != Done(Migrated) ==>
                  after.pieces.Keys
                  == if luck.fault == SwitchFails(false)
                        && Migrate(g, st, k, m, luck.(fault := NoFault)).1 == Done(Migrated)
                     then st.pieces.Keys + {luck.newID} else st.pieces.Keys)
  {}

  lemma MigrateApart(g: Config, st: Store, used: set<PieceID>, k: Identity, luck: Luck, k': Identity)
    requires Tidy(g, st, used) && k in st.manifests && luck.newID !in used && k' in st.manifests && k' != k
    ensures Apart(st, Migrate(g, st, k, st.manifests[k], luck).0, k')
  {
    var m, after := st.manifests[k], Migrate(g, st, k, st.manifests[k], luck).0;
    if Eligibility(m, g.bufferLimit) == Migrated { assert m.layout.piece.id in IDs(m); }
    MigrateTouches(g, st, k, m, luck, IDs(st.manifests[k']));
  }

  /** One migration keeps the bytes of the object it works on, at whatever point it fails. */
  lemma MigrateReads(g: Config, st: Store, used: set<PieceID>, k: Identity, luck: Luck)
    requires Sound(g) && Tidy(g, st, used) && k in st.manifests && luck.newID !in used
    ensures var after := Migrate(g, st, k, st.manifests[k], luck).0;
            && after.manifests[k].id == k && IDs(after.manifests[k]) <= used + {luck.newID}
            && (after.manifests[k] == st.manifests[k] || IDs(after.manifests[k]) == {luck.newID})
            && after.manifests[k].contentHash == st.manifests[k].contentHash
            && Get(g, after.pieces, after.manifests[k]) == Get(g, st.pieces, st.manifests[k])
  {
    var m, after := st.manifests[k], Migrate(g, st, k, st.manifests[k], luck).0;
    var bytes := Get(g, st.pieces, m).value;
    if after.manifests[k] == m {
      assert luck.newID !in IDs(m);
      if Eligibility(m, g.bufferLimit) == Migrated && after.manifests == st.manifests {
        GetFrame(g, after.pieces, st.pieces, m);
      }
    }
    if Eligibility(m, g.bufferLimit) == Migrated {
      assert m.layout.piece.id in IDs(m);
      ResealedReads(g, st.pieces, m, luck.newID, luck.draw, bytes);
      if after.manifests != st.manifests {
        var made := Resealed(g, st.pieces, m, luck.newID, luck.draw).value;
        GetFrame(g, after.pieces, st.pieces[luck.newID := made.0], made.1);
      }
    }
  }

  /** `after` is as tidy as `st` was, and every object reads the same. */
  ghost predicate Carried(g: Config, st: Store, after: Store, used: set<PieceID>) {
    && Tidy(g, after, used) && after.manifests.Keys == st.manifests.Keys
    && forall k :: k in st.manifests ==>
         Get(g, after.pieces, after.manifests[k]) == Get(g, st.pieces, st.manifests[k])
  }

  lemma CarriedChains(g: Config, a: Store, b: Store, c: Store, used: set<PieceID>, used': set<PieceID>)
    requires Carried(g, a, b, used) && Carried(g, b, c, used')
    ensures Carried(g, a, c, used')
  {
    forall k | k in a.manifests
      ensures Get(g, c.pieces, c.manifests[k]) == Get(g, a.pieces, a.manifests[k])
    {
      assert k in b.manifests;
    }
  }

  lemma MigrateCarries(g: Config, st: Store, used: set<PieceID>, k: Identity, luck: Luck)
    requires Sound(g) && Tidy(g, st, used) && k in st.manifests && luck.newID !in used
    ensures Carried(g, st, Migrate(g, st, k, st.manifests[k], luck).0, used + {luck.newID})
  {
    var after := Migrate(g, st, k, st.manifests[k], luck).0;
    assert after.manifests.Keys == st.manifests.Keys;
    MigrateReads(g, st, used, k, luck);
    forall k' | k' in st.manifests && k' != k
      ensures Apart(st, after, k') && Get(g, after.pieces, after.manifests[k']) == Get(g, st.pieces, st.manifests[k'])
    {
      MigrateApart(g, st, used, k, luck, k');
      GetFrame(g, st.pieces, after.pieces, st.manifests[k']);
    }
    CarriedOver(g, st, after, used, k, luck.newID);
  }

  lemma CarriedOver(g: Config, st: Store, after: Store, used: set<PieceID>, k: Identity, newID: PieceID)
    requires Tidy(g, st, used) && k in st.manifests && newID !in used && after.manifests.Keys == st.manifests.Keys
    requires forall k' :: k' in st.manifests && k' != k ==> after.manifests[k'] == st.manifests[k']
    requires forall k' :: k' in st.manifests ==>
      Get(g, after.pieces, after.manifests[k']) == Get(g, st.pieces, st.manifests[k'])
    requires after.manifests[k].id == k && after.manifests[k].contentHash == st.manifests[k].contentHash
    requires after.manifests[k] == st.manifests[k] || IDs(after.manifests[k]) == {newID}
    ensures Carried(g, st, after, used + {newID})
  {}

  /** Piece IDs drawn by a sweep are new, each its own. */
  ghost predicate FreshIDs(luck: nat -> Luck, used: set<PieceID>) {
    && (forall i: nat :: luck(i).newID !in used)
    && (forall i: nat, j: nat :: i != j ==> luck(i).newID != luck(j).newID)
  }

  function Drawn(luck: nat -> Luck, used: set<PieceID>, n: nat): set<PieceID> {
    if n == 0 then used else Drawn(luck, used, n - 1) + {luck(n - 1).newID}
  }

  lemma {:induction false} DrawnIsFresh(luck: nat -> Luck, used: set<PieceID>, n: nat, i: nat)
    requires FreshIDs(luck, used) && n <= i
    ensures luck(i).newID !in Drawn(luck, used, n)
  {
    if n > 0 { DrawnIsFresh(luck, used, n - 1, i); }
  }

  lemma StepCarries(g: Config, st: Store, before: Store, used: set<PieceID>, k: Identity, luck: Luck)
    requires Sound(g) && Carried(g, st, before, used) && k in before.manifests && luck.newID !in used
    ensures Carried(g, st, Migrate(g, before, k, before.manifests[k], luck).0, used + {luck.newID})
  {
    MigrateCarries(g, before, used, k, luck);
    CarriedChains(g, st, before, Migrate(g, before, k, before.manifests[k], luck).0, used, used + {luck.newID});
  }

  /** The stores that carry st over. */
  ghost function CarriedBy(g: Config, st: Store, used: set<PieceID>): Store -> bool {
    (s: Store) => Carried(g, st, s, used)
  }

  lemma VisitCarries(g: Config, st: Store, before: Store, used: set<PieceID>, order: seq<Identity>, luck: nat -> Luck,
                     i: nat)
    requires Sound(g) && CarriedBy(g, st, Drawn(luck, used, i))(before) && luck(i).newID !in Drawn(luck, used, i)
    ensures CarriedBy(g, st, Drawn(luck, used, i + 1))(Visiting(g, order, luck)(before, i).0)
  {
    var now := Drawn(luck, used, i);
    if i < |order| && order[i] in before.manifests {
      StepCarries(g, st, before, now, order[i], luck(i));
    } else {
      Widen(g, st, before, now, now + {luck(i).newID});
    }
  }

  lemma Widen(g: Config, st: Store, after: Store, used: set<PieceID>, more: set<PieceID>)
    requires Carried(g, st, after, used) && used <= more
    ensures Carried(g, st, after, more)
  {}

  lemma CarriedSelf(g: Config, st: Store, used: set<PieceID>)
    requires Tidy(g, st, used)
    ensures CarriedBy(g, st, used)(st)
  {
    assert Carried(g, st, st, used);
  }

  /** The claim every visit keeps. */
  ghost function Carrying(g: Config, st: Store, used: set<PieceID>, luck: nat -> Luck): (Store, Stats, nat) -> bool {
    (s: Store, stats: Stats, i: nat) => CarriedBy(g, st, Drawn(luck, used, i))(s)
  }

  lemma CarryingStep(g: Config, st: Store, used: set<PieceID>, order: seq<Identity>, luck: nat -> Luck,
                     s: Store, stats: Stats, i: nat)
    requires Sound(g) && luck(i).newID !in Drawn(luck, used, i) && Carrying(g, st, used, luck)(s, stats, i)
    ensures Carrying(g, st, used, luck)(Visiting(g, order, luck)(s, i).0,
                                        Tally(stats, Visiting(g, order, luck)(s, i).1), i + 1)
  {
    VisitCarries(g, st, s, used, order, luck, i);
  }

  lemma CarryingIsKept(g: Config, st: Store, used: set<PieceID>, order: seq<Identity>, luck: nat -> Luck, n: nat)
    requires Sound(g) && FreshIDs(luck, used)
    ensures Kept(Visiting(g, order, luck), Carrying(g, st, used, luck), n)
  {
    forall s: Store, stats: Stats, i: nat | i < n && Carrying(g, st, used, luck)(s, stats, i)
      ensures Carrying(g, st, used, luck)(Visiting(g, order, luck)(s, i).0,
                                          Tally(stats, Visiting(g, order, luck)(s, i).1), i + 1)
    {
      DrawnIsFresh(luck, used, i, i);
      CarryingStep(g, st, used, order, luck, s, stats, i);
    }
  }

  lemma SweepCarries(g: Config, st: Store, used: set<PieceID>, order: seq<Identity>, luck: nat -> Luck, n: nat)
    requires Sound(g) && CarriedBy(g, st, used)(st) && FreshIDs(luck, used)
    ensures CarriedBy(g, st, Drawn(luck, used, n))(Swept(g, st, order, luck, n).0)
  {
    CarryingStarts(g, st, used, luck);
    CarryingIsKept(g, st, used, order, luck, n);
    VisitedKeeps(Visiting(g, order, luck), st, Carrying(g, st, used, luck), n, n);
  }

  lemma CarryingStarts(g: Config, st: Store, used: set<PieceID>, luck: nat -> Luck)
    requires CarriedBy(g, st, used)(st)
    ensures Carrying(g, st, used, luck)(st, NoStats, 0)
  {
    assert Drawn(luck, used, 0) == used;
  }

  /** A sweep, complete or cut short, with any faults, changes what the GET of no version returns. */
  lemma SweepKeepsReads(g: Config, st: Store, used: set<PieceID>, order: seq<Identity>, luck: nat -> Luck, n: nat,
                        k: Identity)
    requires Sound(g) && Tidy(g, st, used) && FreshIDs(luck, used) && k in st.manifests
    ensures var after := Swept(g, st, order, luck, n).0;
            k in after.manifests && Get(g, after.pieces, after.manifests[k]) == Get(g, st.pieces, st.manifests[k])
  {
    CarriedSelf(g, st, used);
    SweepCarries(g, st, used, order, luck, n);
    CarriedReads(g, st, Drawn(luck, used, n), Swept(g, st, order, luck, n).0, k);
  }

  lemma CarriedReads(g: Config, st: Store, used: set<PieceID>, after: Store, k: Identity)
    requires CarriedBy(g, st, used)(after) && k in st.manifests
    ensures k in after.manifests && Get(g, after.pieces, after.manifests[k]) == Get(g, st.pieces, st.manifests[k])
  {
    assert Carried(g, st, after, used);
  }

  lemma SettledApart(g: Config, st: Store, after: Store, k: Identity)
    requires k in st.manifests && Apart(st, after, k) && Settled(g, st.pieces, st.manifests[k])
    ensures Settled(g, after.pieces, after.manifests[k])
  {
    var m := st.manifests[k];
    if m.layout.Single? { assert m.layout.piece.id in IDs(m); }
  }

  lemma KeepsSettled(g: Config, st: Store, used: set<PieceID>, k: Identity, luck: Luck, k': Identity)
    requires Tidy(g, st, used) && k in st.manifests && luck.newID !in used && k' in st.manifests && k' != k
    requires Settled(g, st.pieces, st.manifests[k'])
    ensures var after := Migrate(g, st, k, st.manifests[k], luck).0;
            k' in after.manifests && Settled(g, after.pieces, after.manifests[k'])
  {
    MigrateApart(g, st, used, k, luck, k');
    SettledApart(g, st, Migrate(g, st, k, st.manifests[k], luck).0, k');
  }

  /** The j-th object of the listing, once passed without errors, is settled. */
  ghost function SettledOnce(g: Config, order: seq<Identity>, j: nat): (Store, Stats, nat) -> bool
    requires j < |order|
  {
    (s: Store, stats: Stats, i: nat) =>
      j < i && stats.errors == 0 ==> order[j] in s.manifests && Settled(g, s.pieces, s.manifests[order[j]])
  }

  lemma VisitSettles(g: Config, st: Store, s: Store, stats: Stats, used: set<PieceID>, order: seq<Identity>,
                     luck: nat -> Luck, j: nat, i: nat)
    requires CarriedBy(g, st, used)(s) && luck(i).newID !in used && j < |order| && i < |order|
    requires (i != j ==> order[i] != order[j]) && order[i] in st.manifests && order[j] in st.manifests
    requires SettledOnce(g, order, j)(s, stats, i)
    ensures SettledOnce(g, order, j)(Visiting(g, order, luck)(s, i).0,
                                     Tally(stats, Visiting(g, order, luck)(s, i).1), i + 1)
  {
    CarriedKeys(g, st, used, s);
    if i == j {
      MigrateSettles(g, s, order[i], s.manifests[order[i]], luck(i));
    } else if j < i && stats.errors == 0 {
      KeepsSettled(g, s, used, order[i], luck(i), order[j]);
    }
  }

  lemma SettledIsKept(g: Config, st: Store, used: set<PieceID>, order: seq<Identity>, luck: nat -> Luck, j: nat)
    requires FreshIDs(luck, used) && Lists(order, st.manifests) && j < |order|
    ensures KeptGiven(Visiting(g, order, luck), Carrying(g, st, used, luck), SettledOnce(g, order, j), |order|)
  {
    forall s: Store, stats: Stats, i: nat |
      i < |order| && Carrying(g, st, used, luck)(s, stats, i) && SettledOnce(g, order, j)(s, stats, i)
      ensures SettledOnce(g, order, j)(Visiting(g, order, luck)(s, i).0,
                                       Tally(stats, Visiting(g, order, luck)(s, i).1), i + 1)
    {
      DrawnIsFresh(luck, used, i, i);
      assert order[i] in order && order[j] in order;
      VisitSettles(g, st, s, stats, Drawn(luck, used, i), order, luck, j, i);
    }
  }

  /** A complete sweep without errors leaves every object settled. */
  lemma SweepSettles(g: Config, st: Store, used: set<PieceID>, order: seq<Identity>, luck: nat -> Luck, j: nat)
    requires Sound(g) && CarriedBy(g, st, used)(st) && Lists(order, st.manifests) && FreshIDs(luck, used) && j < |order|
    ensures SettledOnce(g, order, j)(Swept(g, st, order, luck, |order|).0, Swept(g, st, order, luck, |order|).1,
      |order|)
  {
    CarryingStarts(g, st, used, luck);
    CarryingIsKept(g, st, used, order, luck, |order|);
    SettledIsKept(g, st, used, order, luck, j);
    assert SettledOnce(g, order, j)(st, NoStats, 0);
    VisitedKeepsGiven(Visiting(g, order, luck), st, Carrying(g, st, used, luck), SettledOnce(g, order, j), |order|,
      |order|);
  }

  lemma SettledSweepIsIdle(g: Config, st: Store, order: seq<Identity>, luck: nat -> Luck, n: nat)
    requires forall k :: k in st.manifests ==> Settled(g, st.pieces, st.manifests[k])
    ensures Swept(g, st, order, luck, n).0 == st && Swept(g, st, order, luck, n).1.migrated == 0
  {
    var p := (s: Store, stats: Stats, i: nat) => s == st && stats.migrated == 0;
    var f := Visiting(g, order, luck);
    forall s: Store, stats: Stats, i: nat | i < n && p(s, stats, i)
      ensures p(f(s, i).0, Tally(stats, f(s, i).1), i + 1)
    {
      if i < |order| && order[i] in st.manifests {
        SettledStays(g, st, order[i], st.manifests[order[i]], luck(i));
      }
    }
    VisitedKeeps(f, st, p, n, n);
  }

  /** After one complete sweep without errors, no later sweep migrates anything, whatever faults it meets. */
  lemma SecondSweepMigratesNothing(g: Config, st: Store, used: set<PieceID>, order: seq<Identity>, luck: nat -> Luck,
                                   again: seq<Identity>, luck': nat -> Luck, n: nat)
    requires Sound(g) && Tidy(g, st, used) && Lists(order, st.manifests) && FreshIDs(luck, used)
    requires Swept(g, st, order, luck, |order|).1.errors == 0
    ensures var after := Swept(g, st, order, luck, |order|).0;
            Swept(g, after, again, luck', n).0 == after && Swept(g, after, again, luck', n).1.migrated == 0
  {
    var after := Swept(g, st, order, luck, |order|).0;
    CarriedSelf(g, st, used);
    SweepCarries(g, st, used, order, luck, |order|);
    CarriedKeys(g, st, Drawn(luck, used, |order|), after);
    forall k | k in after.manifests
      ensures Settled(g, after.pieces, after.manifests[k])
    {
      var j :| 0 <= j < |order| && order[j] == k;
      SweepSettles(g, st, used, order, luck, j);
    }
    SettledSweepIsIdle(g, after, again, luck', n);
  }

  lemma CarriedKeys(g: Config, st: Store, used: set<PieceID>, after: Store)
    requires CarriedBy(g, st, used)(after)
    ensures Tidy(g, after, used) && after.manifests.Keys == st.manifests.Keys
  {
    assert Carried(g, st, after, used);
  }

  // ---------------------------------------------------------------- the worker

  /** The manifests of listing entries [lo, hi), as they are now. */
  function Page(order: seq<Identity>, manifests: Manifests, lo: nat, hi: nat): (page: seq<Manifest>)
    requires lo <= hi <= |order| && forall k :: k in order ==> k in manifests
    ensures |page| == hi - lo
    ensures forall j :: 0 <= j < |page| ==> order[lo + j] in manifests && page[j] == manifests[order[lo + j]]
    decreases hi - lo
  {
    if lo == hi then [] else [manifests[order[lo]]] + Page(order, manifests, lo + 1, hi)
  }

  /** Entry j of the page shows its manifest as it is. */
  ghost predicate Shows(order: seq<Identity>, cursor: nat, page: seq<Manifest>, manifests: Manifests, j: nat)
    requires cursor + |page| <= |order| && j < |page|
  {
    order[cursor + j] in manifests && manifests[order[cursor + j]] == page[j]
  }

  /** From its count-th entry on, the page shows the manifests as they are. */
  ghost predicate OnPage(order: seq<Identity>, cursor: nat, page: seq<Manifest>, count: nat, manifests: Manifests)
    requires cursor + |page| <= |order|
  {
    forall j: nat :: count <= j < |page| ==> Shows(order, cursor, page, manifests, j)
  }

  /** Changing the manifest of one entry leaves the later ones as the page shows them. */
  lemma PageStays(order: seq<Identity>, cursor: nat, page: seq<Manifest>, count: nat, before: Manifests,
                  after: Manifests)
    requires count < |page| && cursor + |page| <= |order| && OnPage(order, cursor, page, count, before)
    requires forall i, j :: 0 <= i < j < |order| ==> order[i] != order[j]
    requires SameBut(before, after, order[cursor + count])
    ensures OnPage(order, cursor, page, count + 1, after)
  {
    forall j: nat | count < j < |page|
      ensures Shows(order, cursor, page, after, j)
    {
      assert Shows(order, cursor, page, before, j);
      assert order[cursor + j] != order[cursor + count];
    }
  }

  /** The visit of the page's next entry. */
  lemma PageNext(g: Config, st: Store, order: seq<Identity>, luck: nat -> Luck, cursor: nat, page: seq<Manifest>,
                 count: nat, now: Store, stats: Stats)
    requires Lists(order, now.manifests) && cursor + |page| <= |order| && count < |page|
    requires OnPage(order, cursor, page, count, now.manifests)
    requires Swept(g, st, order, luck, cursor + count) == (now, stats)
    ensures var (after, r) := Migrate(g, now, order[cursor + count], page[count], luck(cursor + count));
            && Swept(g, st, order, luck, cursor + count + 1) == (after, Tally(stats, r))
            && OnPage(order, cursor, page, count + 1, after.manifests)
            && after.manifests.Keys == now.manifests.Keys && Tally(stats, r).scanned == stats.scanned + 1
  {
    var k := order[cursor + count];
    var after := Migrate(g, now, k, page[count], luck(cursor + count)).0;
    assert Shows(order, cursor, page, now.manifests, count);
    SweptNext(g, st, order, luck, cursor + count, now, stats);
    MigrateTouches(g, now, k, page[count], luck(cursor + count), {});
    PageStays(order, cursor, page, count, now.manifests, after.manifests);
  }

  class AADMigrator {
    var pieces: Pieces
    var manifests: Manifests
    var latest: Latest
    const config: Config

    constructor (config: Config, st: Store)
      ensures this.config == config && Contents() == st
    {
      this.config := config;
      pieces, manifests, latest := st.pieces, st.manifests, st.latest;
    }

    function Contents(): Store
      reads this
    {
      Store(pieces, manifests, latest)
    }

    /** migrateOne: read, re-seal, write under a new piece ID, switch the manifest, reclaim the old piece. */
    method MigrateOne(k: Identity, m: Manifest, luck: Luck) returns (r: Result)
      modifies this
      ensures (Contents(), r) == Migrate(config, old(Contents()), k, m, luck)
    {
      var outcome := Eligibility(m, config.bufferLimit);
      if outcome != Migrated { return Done(outcome); }
      var prior := m.layout.piece.id;
      if luck.fault == NoBackend || luck.fault == GetFails || prior !in pieces { return Errored; }
      if |pieces[prior]| > config.bufferLimit { return Done(TooBig); }
      var made := Resealed(config, pieces, m, luck.newID, luck.draw);
      if made.None? || luck.fault == SealFails || luck.fault == PutFails { return Errored; }
      pieces := pieces[luck.newID := made.value.0];
      if luck.fault.SwitchFails? {
        if luck.fault.cleaned { pieces := pieces - {luck.newID}; }
        return Errored;
      }
      manifests, latest := manifests[k := made.value.1], latest[NameOf(k) := k];
      if luck.fault != DeleteFails { pieces := pieces - {prior}; }
      r := Done(Migrated);
    }

    /** One page: its manifests are as they were when the page was read. */
    method SweepPage(order: seq<Identity>, cursor: nat, page: seq<Manifest>, luck: nat -> Luck, cancelled: nat -> bool,
                     before: Stats, ghost st: Store)
      returns (stats: Stats, count: nat)
      requires Lists(order, manifests) && cursor + |page| <= |order|
      requires OnPage(order, cursor, page, 0, manifests)
      requires Swept(config, st, order, luck, cursor) == (Contents(), before)
      modifies this
      ensures manifests.Keys == old(manifests.Keys) && count <= |page| && stats.scanned == before.scanned + count
      ensures Swept(config, st, order, luck, cursor + count) == (Contents(), stats)
    {
      stats, count := before, 0;
      while count < |page|
        invariant count <= |page| && manifests.Keys == old(manifests.Keys) && stats.scanned == before.scanned + count
        invariant Swept(config, st, order, luck, cursor + count) == (Contents(), stats)
        invariant OnPage(order, cursor, page, count, manifests)
      {
        if cancelled(cursor + count) { return; }
        var k := order[cursor + count];
        PageNext(config, st, order, luck, cursor, page, count, Contents(), stats);
        var r := MigrateOne(k, page[count], luck(cursor + count));
        stats, count := Tally(stats, r), count + 1;
      }
    }

    /**
      Sweep: page through the listing, taking each page's manifests as they are
      when the page is read.  It stops early when a scan fails or the context is
      cancelled.
     */
    method Sweep(order: seq<Identity>, pageSize: nat, luck: nat -> Luck, scanOk: nat -> bool, cancelled: nat -> bool)
      returns (stats: Stats, complete: bool)
      requires pageSize > 0 && Lists(order, manifests)
      modifies this
      ensures stats.scanned <= |order| && (complete ==> stats.scanned == |order|)
      ensures Swept(config, old(Contents()), order, luck, stats.scanned) == (Contents(), stats)
    {
      stats := NoStats;
      var cursor := 0;
      while true
        invariant stats.scanned == cursor <= |order| && manifests.Keys == old(manifests.Keys)
        invariant Swept(config, old(Contents()), order, luck, cursor) == (Contents(), stats)
        decreases |order| - cursor
      {
        if cancelled(cursor) || !scanOk(cursor) { return stats, false; }
        var end := if |order| - cursor <= pageSize then |order| else cursor + pageSize;
        var page := Page(order, manifests, cursor, end);
        var count;
        stats, count := SweepPage(order, cursor, page, luck, cancelled, stats, old(Contents()));
        cursor := cursor + count;
        if count < |page| { return stats, false; }
        if cursor == |order| { return stats, true; }
      }
    }
  }
}
