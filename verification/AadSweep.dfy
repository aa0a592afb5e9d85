/**
  What a sweep of the AAD migrator does to each object, said on the fields of its
  manifest: which counter counts it, and whether it ends with the v1 binding.
 */
module AadSweep {
  import opened Wrappers
  import opened ErasureCoding
  import opened ErasureRead
  import opened Sealing
  import opened ObjectBytes
  import opened AadMigrator

  // ---------------------------------------------------------------- what becomes of each object

  /** The versions the sweep has not come to are as they were. */
  ghost predicate Waiting(st: Store, s: Store, order: seq<Identity>, i: nat)
    requires forall k :: k in order ==> k in st.manifests
  {
    forall j {:trigger order[j]} :: i <= j < |order| ==> Apart(st, s, order[j])
  }

  lemma ApartChains(a: Store, b: Store, c: Store, k: Identity)
    requires k in a.manifests && Apart(a, b, k) && Apart(b, c, k)
    ensures Apart(a, c, k)
  {}

  lemma VisitWaits(g: Config, st: Store, s: Store, used: set<PieceID>, order: seq<Identity>, luck: Luck, i: nat)
    requires Lists(order, st.manifests) && i < |order| && Tidy(g, s, used) && luck.newID !in used
    requires s.manifests.Keys == st.manifests.Keys && Waiting(st, s, order, i) && order[i] in s.manifests
    ensures Waiting(st, Migrate(g, s, order[i], s.manifests[order[i]], luck).0, order, i + 1)
  {
    var after := Migrate(g, s, order[i], s.manifests[order[i]], luck).0;
    forall j {:trigger order[j]} | i < j < |order|
      ensures Apart(st, after, order[j])
    {
      assert order[j] in order && order[j] != order[i];
      assert Apart(st, s, order[j]);
      MigrateApart(g, s, used, order[i], luck, order[j]);
      ApartChains(st, s, after, order[j]);
    }
  }

  /** The object was sealed by the gateway, without the binding. */
  predicate LegacySealed(m: Manifest) {
    (m.enc.mode == Managed || m.enc.mode == PublicDistribution) && m.enc.aad == Legacy
  }

  /** ... and is its own single piece, of a size the migrator buffers. */
  predicate Migratable(g: Config, m: Manifest) {
    LegacySealed(m) && m.contentHash.None? && m.layout.Single? && m.size <= g.bufferLimit
  }

  /** The stored piece is within the limit as well. */
  predicate Fits(g: Config, pieces: Pieces, m: Manifest) {
    m.layout.Single? && m.layout.piece.id in pieces && |pieces[m.layout.piece.id]| <= g.bufferLimit
  }

  /** The objects each counter counts, by the fields of the manifest, the stored piece and the fault met. */
  predicate InClass(g: Config, pieces: Pieces, m: Manifest, fault: Fault, r: Result) {
    match r
    case Done(NotMine) => m.enc.mode == Plain || m.enc.mode == ClientSide
    case Done(Already) => (m.enc.mode == Managed || m.enc.mode == PublicDistribution) && m.enc.aad == V1
    case Done(Dedup) => LegacySealed(m) && m.contentHash.Some?
    case Done(Multi) => LegacySealed(m) && m.contentHash.None? && !m.layout.Single?
    case Done(TooBig) =>
      && LegacySealed(m) && m.contentHash.None? && m.layout.Single?
      && (m.size > g.bufferLimit || (fault != NoBackend && fault != GetFails && !Fits(g, pieces, m)))
    case Errored =>
      && Migratable(g, m)
      && (fault == NoBackend || fault == GetFails
          || (Fits(g, pieces, m) && (fault == SealFails || fault == PutFails || fault.SwitchFails?)))
    case Done(Migrated) => Migratable(g, m) && Fits(g, pieces, m) && (fault == NoFault || fault == DeleteFails)
  }

  /** A visit ends as the object's class says. */
  lemma MigrateEndsIff(g: Config, st: Store, k: Identity, luck: Luck, r: Result)
    requires Sound(g) && k in st.manifests && Get(g, st.pieces, st.manifests[k]).Some?
    ensures Migrate(g, st, k, st.manifests[k], luck).1 == r <==>
            InClass(g, st.pieces, st.manifests[k], luck.fault, r)
  {
    var m := st.manifests[k];
    if Eligibility(m, g.bufferLimit) == Migrated {
      ResealedReads(g, st.pieces, m, luck.newID, luck.draw, Get(g, st.pieces, m).value);
    }
  }

  /** A visit re-seals exactly the objects it counts as migrated. */
  lemma MigrateReseals(g: Config, st: Store, k: Identity, luck: Luck)
    requires Sound(g) && k in st.manifests && Get(g, st.pieces, st.manifests[k]).Some?
    ensures var after, m := Migrate(g, st, k, st.manifests[k], luck).0, st.manifests[k];
            && k in after.manifests
            && (if InClass(g, st.pieces, m, luck.fault, Done(Migrated))
                then after.manifests[k].enc.aad == V1 && after.manifests[k].enc.mode == m.enc.mode
                else after.manifests[k] == m)
  {
    var m := st.manifests[k];
    MigrateEndsIff(g, st, k, luck, Done(Migrated));
    if Eligibility(m, g.bufferLimit) == Migrated {
      ResealedReads(g, st.pieces, m, luck.newID, luck.draw, Get(g, st.pieces, m).value);
    }
  }

  lemma InClassApart(g: Config, st: Store, s: Store, k: Identity, fault: Fault, r: Result)
    requires k in st.manifests && Apart(st, s, k)
    ensures InClass(g, s.pieces, s.manifests[k], fault, r) == InClass(g, st.pieces, st.manifests[k], fault, r)
  {
    if st.manifests[k].layout.Single? { assert st.manifests[k].layout.piece.id in IDs(st.manifests[k]); }
  }

  // ---------------------------------------------------------------- the counters

  function Counter(stats: Stats, r: Result): nat {
    match r
    case Errored => stats.errors
    case Done(Migrated) => stats.migrated
    case Done(NotMine) => stats.notMine
    case Done(Already) => stats.already
    case Done(Dedup) => stats.dedup
    case Done(Multi) => stats.multi
    case Done(TooBig) => stats.tooBig
  }

  /** How many of the first n objects of the listing are of that class, as the sweep found them at its start. */
  function ClassCount(g: Config, st: Store, order: seq<Identity>, luck: nat -> Luck, r: Result, n: nat): nat
    requires n <= |order|
  {
    if n == 0 then 0
    else
      ClassCount(g, st, order, luck, r, n - 1)
      + (if order[n - 1] in st.manifests && InClass(g, st.pieces, st.manifests[order[n - 1]], luck(n - 1).fault, r)
         then 1 else 0)
  }

  ghost function Counting(g: Config, st: Store, order: seq<Identity>, luck: nat -> Luck, r: Result)
    : (Store, Stats, nat) -> bool
    requires forall k :: k in order ==> k in st.manifests
  {
    (s: Store, stats: Stats, i: nat) => CountedNow(g, st, order, luck, r, s, stats, i)
  }

  ghost predicate CountedNow(g: Config, st: Store, order: seq<Identity>, luck: nat -> Luck, r: Result, s: Store,
                             stats: Stats, i: nat)
    requires forall k :: k in order ==> k in st.manifests
  {
    i <= |order| && Waiting(st, s, order, i) && Counter(stats, r) == ClassCount(g, st, order, luck, r, i)
  }

  lemma VisitIsMigrate(g: Config, order: seq<Identity>, luck: nat -> Luck, s: Store, i: nat)
    requires i < |order| && order[i] in s.manifests
    ensures Visiting(g, order, luck)(s, i) == Migrate(g, s, order[i], s.manifests[order[i]], luck(i))
  {}

  lemma TallyCounts(stats: Stats, ended: Result, r: Result)
    ensures Counter(Tally(stats, ended), r) == Counter(stats, r) + (if ended == r then 1 else 0)
  {}

  lemma VisitEndsIff(g: Config, st: Store, s: Store, k: Identity, luck: Luck, r: Result)
    requires Sound(g) && k in st.manifests && Apart(st, s, k) && Get(g, s.pieces, s.manifests[k]).Some?
    ensures Migrate(g, s, k, s.manifests[k], luck).1 == r <==> InClass(g, st.pieces, st.manifests[k], luck.fault, r)
  {
    MigrateEndsIff(g, s, k, luck, r);
    InClassApart(g, st, s, k, luck.fault, r);
  }

  lemma MigrateCounts(g: Config, st: Store, s: Store, stats: Stats, used: set<PieceID>, order: seq<Identity>,
                      luck: nat -> Luck, r: Result, i: nat)
    requires Sound(g) && Tidy(g, s, used) && s.manifests.Keys == st.manifests.Keys && luck(i).newID !in used
    requires Lists(order, st.manifests) && i < |order| && order[i] in s.manifests
    requires CountedNow(g, st, order, luck, r, s, stats, i)
    ensures var (after, ended) := Migrate(g, s, order[i], s.manifests[order[i]], luck(i));
            CountedNow(g, st, order, luck, r, after, Tally(stats, ended), i + 1)
  {
    var k := order[i];
    assert Apart(st, s, k);
    VisitWaits(g, st, s, used, order, luck(i), i);
    VisitEndsIff(g, st, s, k, luck(i), r);
    TallyCounts(stats, Migrate(g, s, k, s.manifests[k], luck(i)).1, r);
  }

  lemma VisitCounts(g: Config, st: Store, s: Store, stats: Stats, used: set<PieceID>, order: seq<Identity>,
                    luck: nat -> Luck, r: Result, i: nat)
    requires Sound(g) && CarriedBy(g, st, used)(s) && luck(i).newID !in used
    requires Lists(order, st.manifests) && i < |order| && Counting(g, st, order, luck, r)(s, stats, i)
    ensures Counting(g, st, order, luck, r)(Visiting(g, order, luck)(s, i).0,
                                            Tally(stats, Visiting(g, order, luck)(s, i).1), i + 1)
  {
    CarriedKeys(g, st, used, s);
    assert order[i] in order;
    MigrateCounts(g, st, s, stats, used, order, luck, r, i);
    VisitIsMigrate(g, order, luck, s, i);
  }

  lemma CountingIsKept(g: Config, st: Store, used: set<PieceID>, order: seq<Identity>, luck: nat -> Luck, r: Result)
    requires Sound(g) && FreshIDs(luck, used) && Lists(order, st.manifests)
    ensures KeptGiven(Visiting(g, order, luck), Carrying(g, st, used, luck), Counting(g, st, order, luck, r), |order|)
  {
    forall s: Store, stats: Stats, i: nat |
      i < |order| && Carrying(g, st, used, luck)(s, stats, i) && Counting(g, st, order, luck, r)(s, stats, i)
      ensures Counting(g, st, order, luck, r)(Visiting(g, order, luck)(s, i).0,
                                              Tally(stats, Visiting(g, order, luck)(s, i).1), i + 1)
    {
      DrawnIsFresh(luck, used, i, i);
      VisitCounts(g, st, s, stats, Drawn(luck, used, i), order, luck, r, i);
    }
  }

  /** At every point of a sweep each counter is the number of objects of its class visited so far. */
  lemma CountersCount(g: Config, st: Store, used: set<PieceID>, order: seq<Identity>, luck: nat -> Luck, r: Result,
                      n: nat)
    requires Sound(g) && Tidy(g, st, used) && FreshIDs(luck, used) && Lists(order, st.manifests) && n <= |order|
    ensures Counter(Swept(g, st, order, luck, n).1, r) == ClassCount(g, st, order, luck, r, n)
  {
    CarriedSelf(g, st, used);
    CarryingStarts(g, st, used, luck);
    CarryingIsKept(g, st, used, order, luck, |order|);
    CountingIsKept(g, st, used, order, luck, r);
    assert Waiting(st, st, order, 0);
    VisitedKeepsGiven(Visiting(g, order, luck), st, Carrying(g, st, used, luck), Counting(g, st, order, luck, r),
                      |order|, n);
  }

  // ---------------------------------------------------------------- what a sweep leaves

  /** Once passed, the j-th object of the listing is re-sealed or as it was, as its class says. */
  ghost function Treated(g: Config, st: Store, order: seq<Identity>, luck: nat -> Luck, j: nat)
    : (Store, Stats, nat) -> bool
    requires j < |order| && forall k :: k in order ==> k in st.manifests
  {
    (s: Store, stats: Stats, i: nat) =>
      i <= |order| && Waiting(st, s, order, i) && (j < i ==> TreatedNow(g, st, s, order[j], luck(j).fault))
  }

  ghost predicate TreatedNow(g: Config, st: Store, s: Store, k: Identity, fault: Fault)
    requires k in st.manifests
  {
    var m := st.manifests[k];
    && k in s.manifests
    && (if InClass(g, st.pieces, m, fault, Done(Migrated))
        then s.manifests[k].enc.aad == V1 && s.manifests[k].enc.mode == m.enc.mode
        else s.manifests[k] == m)
  }

  lemma VisitTreats(g: Config, st: Store, s: Store, stats: Stats, used: set<PieceID>, order: seq<Identity>,
                    luck: nat -> Luck, j: nat, i: nat)
    requires Sound(g) && CarriedBy(g, st, used)(s) && luck(i).newID !in used && j < |order| && i < |order|
    requires Lists(order, st.manifests) && Treated(g, st, order, luck, j)(s, stats, i)
    ensures Treated(g, st, order, luck, j)(Visiting(g, order, luck)(s, i).0,
                                           Tally(stats, Visiting(g, order, luck)(s, i).1), i + 1)
  {
    CarriedKeys(g, st, used, s);
    var k := order[i];
    assert k in order && order[j] in order && Apart(st, s, k);
    VisitWaits(g, st, s, used, order, luck(i), i);
    if i == j {
      MigrateReseals(g, s, k, luck(i));
      InClassApart(g, st, s, k, luck(i).fault, Done(Migrated));
    } else if j < i {
      MigrateApart(g, s, used, k, luck(i), order[j]);
    }
  }

  lemma TreatedIsKept(g: Config, st: Store, used: set<PieceID>, order: seq<Identity>, luck: nat -> Luck, j: nat)
    requires Sound(g) && FreshIDs(luck, used) && Lists(order, st.manifests) && j < |order|
    ensures KeptGiven(Visiting(g, order, luck), Carrying(g, st, used, luck), Treated(g, st, order, luck, j), |order|)
  {
    forall s: Store, stats: Stats, i: nat |
      i < |order| && Carrying(g, st, used, luck)(s, stats, i) && Treated(g, st, order, luck, j)(s, stats, i)
      ensures Treated(g, st, order, luck, j)(Visiting(g, order, luck)(s, i).0,
                                             Tally(stats, Visiting(g, order, luck)(s, i).1), i + 1)
    {
      DrawnIsFresh(luck, used, i, i);
      VisitTreats(g, st, s, stats, Drawn(luck, used, i), order, luck, j, i);
    }
  }

  /** After n visits, with any faults, an object among them is re-sealed exactly when it is of the migrated class. */
  lemma SweepTreats(g: Config, st: Store, used: set<PieceID>, order: seq<Identity>, luck: nat -> Luck, j: nat, n: nat)
    requires Sound(g) && Tidy(g, st, used) && FreshIDs(luck, used) && Lists(order, st.manifests) && j < n <= |order|
    requires order[j] in st.manifests
    ensures TreatedNow(g, st, Swept(g, st, order, luck, n).0, order[j], luck(j).fault)
  {
    CarriedSelf(g, st, used);
    CarryingStarts(g, st, used, luck);
    CarryingIsKept(g, st, used, order, luck, |order|);
    TreatedIsKept(g, st, used, order, luck, j);
    assert Waiting(st, st, order, 0);
    VisitedKeepsGiven(Visiting(g, order, luck), st, Carrying(g, st, used, luck), Treated(g, st, order, luck, j),
                      |order|, n);
  }

  lemma {:induction false} NoneOfClass(g: Config, st: Store, order: seq<Identity>, luck: nat -> Luck, r: Result, n: nat,
                                       j: nat)
    requires j < n <= |order| && ClassCount(g, st, order, luck, r, n) == 0 && order[j] in st.manifests
    ensures !InClass(g, st.pieces, st.manifests[order[j]], luck(j).fault, r)
  {
    if j < n - 1 { NoneOfClass(g, st, order, luck, r, n - 1, j); }
  }

  /**
    After a complete sweep without errors an object has the v1 binding exactly when it
    had it before, or was sealed by the gateway, not deduplicated, a single piece, and
    within the limit by its recorded and by its stored size.
   */
  lemma SweepBinds(g: Config, st: Store, used: set<PieceID>, order: seq<Identity>, luck: nat -> Luck, k: Identity)
    requires Sound(g) && Tidy(g, st, used) && FreshIDs(luck, used) && Lists(order, st.manifests) && k in st.manifests
    requires Swept(g, st, order, luck, |order|).1.errors == 0
    ensures var m, after := st.manifests[k], Swept(g, st, order, luck, |order|).0;
            && k in after.manifests && after.manifests[k].enc.mode == m.enc.mode
            && (after.manifests[k].enc.aad == V1 <==>
                || m.enc.aad == V1
                || (&& (m.enc.mode == Managed || m.enc.mode == PublicDistribution)
                    && m.contentHash.None? && m.layout.Single? && m.size <= g.bufferLimit
                    && m.layout.piece.id in st.pieces && |st.pieces[m.layout.piece.id]| <= g.bufferLimit))
  {
    var j :| 0 <= j < |order| && order[j] == k;
    CountersCount(g, st, used, order, luck, Errored, |order|);
    NoneOfClass(g, st, order, luck, Errored, |order|, j);
    SweepTreats(g, st, used, order, luck, j, |order|);
  }
}
