/**
  GETs without a version ID.  Every Manifests.Put makes the version it writes the
  current one of its name, and the migrator switches with Put; so a migration keeps
  what every version reads as, but can change which version a name reads.  This says
  exactly when it does, for one migration, for sweeps and for whole runs.
 */
module NamedReads {
  import opened Wrappers
  import opened ErasureCoding
  import opened ErasureRead
  import opened Sealing
  import opened ObjectBytes
  import opened CopyObject
  import opened AadMigrator
  import opened AadSweep
  import opened ObjectRuns

  // ---------------------------------------------------------------- one migration

  ghost function ByName(g: Config, st: Store, name: Name): Option<Bytes> {
    GetByName(g, st.pieces, st.manifests, st.latest, name)
  }

  predicate Current(latest: Latest, k: Identity) { NameOf(k) in latest && latest[NameOf(k)] == k }

  /** The migration gets as far as its switch, and the switch succeeds. */
  predicate Switches(g: Config, pieces: Pieces, m: Manifest, luck: Luck) {
    InClass(g, pieces, m, luck.fault, Done(Migrated))
  }

  /** What a name reads after a migration of k: k, if that was switched, and otherwise what it read before. */
  lemma MigrateByName(g: Config, st: Store, used: set<PieceID>, k: Identity, luck: Luck, name: Name)
    requires Sound(g) && Tidy(g, st, used) && k in st.manifests && luck.newID !in used
    ensures ByName(g, Migrate(g, st, k, st.manifests[k], luck).0, name)
         == if name == NameOf(k) && Switches(g, st.pieces, st.manifests[k], luck)
            then Get(g, st.pieces, st.manifests[k]) else ByName(g, st, name)
  {
    MigrateCarries(g, st, used, k, luck);
    MigrateEndsIff(g, st, k, luck, Done(Migrated));
    MigrateTouches(g, st, k, st.manifests[k], luck, {});
  }

  /**
    A migration of version k keeps the GET of a name exactly when the name is another
    one, nothing was switched, or k was current already or reads the same bytes.
   */
  lemma MigrateKeepsNameIff(g: Config, st: Store, used: set<PieceID>, k: Identity, luck: Luck, name: Name)
    requires Sound(g) && Tidy(g, st, used) && k in st.manifests && luck.newID !in used
    ensures ByName(g, Migrate(g, st, k, st.manifests[k], luck).0, name) == ByName(g, st, name) <==>
            || name != NameOf(k) || !Switches(g, st.pieces, st.manifests[k], luck)
            || Current(st.latest, k) || ByName(g, st, name) == Get(g, st.pieces, st.manifests[k])
  {
    MigrateByName(g, st, used, k, luck, name);
  }

  // ---------------------------------------------------------------- sweeps

  /** The last of the first n versions of the listing that is of that name and is switched. */
  function LastSwitched(g: Config, st: Store, order: seq<Identity>, luck: nat -> Luck, name: Name, n: nat)
    : (r: Option<Identity>)
    requires n <= |order|
    ensures r.Some? ==> r.value in st.manifests
  {
    if n == 0 then None
    else if && NameOf(order[n - 1]) == name && order[n - 1] in st.manifests
            && Switches(g, st.pieces, st.manifests[order[n - 1]], luck(n - 1))
    then Some(order[n - 1])
    else LastSwitched(g, st, order, luck, name, n - 1)
  }

  function At(latest: Latest, name: Name): Option<Identity> { if name in latest then Some(latest[name]) else None }

  /** After i visits the name points to the last version of it that was switched. */
  ghost function Pointing(g: Config, st: Store, order: seq<Identity>, luck: nat -> Luck, name: Name)
    : (Store, Stats, nat) -> bool
    requires forall k :: k in order ==> k in st.manifests
  {
    (s: Store, stats: Stats, i: nat) =>
      && i <= |order| && Waiting(st, s, order, i)
      && At(s.latest, name) == (var last := LastSwitched(g, st, order, luck, name, i);
                                if last.Some? then last else At(st.latest, name))
  }

  lemma VisitMovesPointer(g: Config, st: Store, s: Store, k: Identity, luck: Luck, name: Name)
    requires Sound(g) && k in st.manifests && Apart(st, s, k) && Get(g, s.pieces, s.manifests[k]).Some?
    ensures At(Migrate(g, s, k, s.manifests[k], luck).0.latest, name)
         == if NameOf(k) == name && Switches(g, st.pieces, st.manifests[k], luck) then Some(k) else At(s.latest, name)
  {
    VisitEndsIff(g, st, s, k, luck, Done(Migrated));
    MigrateTouches(g, s, k, s.manifests[k], luck, {});
  }

  lemma VisitPoints(g: Config, st: Store, s: Store, stats: Stats, used: set<PieceID>, order: seq<Identity>,
                    luck: nat -> Luck, name: Name, i: nat)
    requires Sound(g) && CarriedBy(g, st, used)(s) && luck(i).newID !in used
    requires Lists(order, st.manifests) && i < |order| && Pointing(g, st, order, luck, name)(s, stats, i)
    ensures Pointing(g, st, order, luck, name)(Visiting(g, order, luck)(s, i).0,
                                               Tally(stats, Visiting(g, order, luck)(s, i).1), i + 1)
  {
    CarriedKeys(g, st, used, s);
    var k := order[i];
    assert k in order && Apart(st, s, k);
    VisitWaits(g, st, s, used, order, luck(i), i);
    VisitMovesPointer(g, st, s, k, luck(i), name);
  }

  lemma PointingIsKept(g: Config, st: Store, used: set<PieceID>, order: seq<Identity>, luck: nat -> Luck, name: Name)
    requires Sound(g) && FreshIDs(luck, used) && Lists(order, st.manifests)
    ensures KeptGiven(Visiting(g, order, luck), Carrying(g, st, used, luck), Pointing(g, st, order, luck, name),
                      |order|)
  {
    forall s: Store, stats: Stats, i: nat |
      && i < |order| && Carrying(g, st, used, luck)(s, stats, i)
      && Pointing(g, st, order, luck, name)(s, stats, i)
      ensures Pointing(g, st, order, luck, name)(Visiting(g, order, luck)(s, i).0,
                                                 Tally(stats, Visiting(g, order, luck)(s, i).1), i + 1)
    {
      DrawnIsFresh(luck, used, i, i);
      VisitPoints(g, st, s, stats, Drawn(luck, used, i), order, luck, name, i);
    }
  }

  lemma SweepPoints(g: Config, st: Store, used: set<PieceID>, order: seq<Identity>, luck: nat -> Luck, name: Name,
                    n: nat)
    requires Sound(g) && Tidy(g, st, used) && FreshIDs(luck, used) && Lists(order, st.manifests) && n <= |order|
    ensures Pointing(g, st, order, luck, name)(Swept(g, st, order, luck, n).0, Swept(g, st, order, luck, n).1, n)
  {
    CarriedSelf(g, st, used);
    CarryingStarts(g, st, used, luck);
    CarryingIsKept(g, st, used, order, luck, |order|);
    PointingIsKept(g, st, used, order, luck, name);
    assert Waiting(st, st, order, 0);
    VisitedKeepsGiven(Visiting(g, order, luck), st, Carrying(g, st, used, luck), Pointing(g, st, order, luck, name),
                      |order|, n);
  }

  /**
    After a sweep, complete or cut short, with any faults, a name reads as the last of
    its versions that was switched, and as before when none was; so the GET of the name
    is kept exactly when none was or that version read as the name did.
   */
  lemma SweepKeepsNameIff(g: Config, st: Store, used: set<PieceID>, order: seq<Identity>, luck: nat -> Luck,
                          name: Name, n: nat)
    requires Sound(g) && Tidy(g, st, used) && FreshIDs(luck, used) && Lists(order, st.manifests) && n <= |order|
    ensures var after, last := Swept(g, st, order, luck, n).0, LastSwitched(g, st, order, luck, name, n);
            && ByName(g, after, name)
            == (if last.None? then ByName(g, st, name) else Get(g, st.pieces, st.manifests[last.value]))
            && (ByName(g, after, name) == ByName(g, st, name) <==>
                last.None? || Get(g, st.pieces, st.manifests[last.value]) == ByName(g, st, name))
  {
    var after, last := Swept(g, st, order, luck, n).0, LastSwitched(g, st, order, luck, name, n);
    SweepPoints(g, st, used, order, luck, name, n);
    assert At(after.latest, name) == if last.Some? then last else At(st.latest, name);
    CarriedSelf(g, st, used);
    SweepCarries(g, st, used, order, luck, n);
    CarriedKeys(g, st, Drawn(luck, used, n), after);
    if At(after.latest, name).Some? && after.latest[name] in st.manifests {
      SweepKeepsReads(g, st, used, order, luck, n, after.latest[name]);
    }
  }

  lemma {:induction false} LastSwitchedIsSwitched(g: Config, st: Store, order: seq<Identity>, luck: nat -> Luck,
                                                  name: Name, n: nat)
    returns (i: nat)
    requires n <= |order| && LastSwitched(g, st, order, luck, name, n).Some?
    ensures i < n && LastSwitched(g, st, order, luck, name, n) == Some(order[i])
    ensures NameOf(order[i]) == name && order[i] in st.manifests
    ensures Switches(g, st.pieces, st.manifests[order[i]], luck(i))
  {
    var k := order[n - 1];
    if NameOf(k) == name && k in st.manifests && Switches(g, st.pieces, st.manifests[k], luck(n - 1)) {
      i := n - 1;
    } else {
      i := LastSwitchedIsSwitched(g, st, order, luck, name, n - 1);
    }
  }

  /** A sweep that switches current versions only changes the GET of no name. */
  lemma SweepOfCurrentKeepsNames(g: Config, st: Store, used: set<PieceID>, order: seq<Identity>, luck: nat -> Luck,
                                 name: Name, n: nat)
    requires Sound(g) && Tidy(g, st, used) && FreshIDs(luck, used) && Lists(order, st.manifests) && n <= |order|
    requires forall i: nat ::
               (i < n && order[i] in st.manifests && Switches(g, st.pieces, st.manifests[order[i]], luck(i)))
               ==> Current(st.latest, order[i])
    ensures ByName(g, Swept(g, st, order, luck, n).0, name) == ByName(g, st, name)
  {
    SweepKeepsNameIff(g, st, used, order, luck, name, n);
    if LastSwitched(g, st, order, luck, name, n).Some? {
      var i := LastSwitchedIsSwitched(g, st, order, luck, name, n);
    }
  }

  // ---------------------------------------------------------------- a superseded version

  const NAME := Name([1], [2], [3])
  const OLD := Named(NAME, PieceID([4]))
  const NEW := Named(NAME, PieceID([5]))

  function Example(): Config { Config(TransparentSuite(), ParityCode(1, 1), 10, 10) }

  function NoFaults(): nat -> Luck { (i: nat) => Luck(PieceID(Zeros(i + 2)), Draw([], 0), NoFault) }

  /** A version sealed without an AAD that reads [8]. */
  function OldVersion(): Manifest {
    Manifest(OLD, Encryption(Managed, [], Legacy), None, Single(Piece(OLD.version, Digest([1, 0, 8]), 0, 0)), 1)
  }

  function NewVersion(bytes: Bytes): Manifest {
    Manifest(NEW, NoEncryption, None, Single(Piece(NEW.version, Digest(bytes), 0, 0)), |bytes|)
  }

  /** It has been superseded by a plain version, or by a delete marker. */
  function Superseded(newer: Option<Bytes>): Store {
    match newer
    case None => Store(map[OLD.version := [1, 0, 8]], map[OLD := OldVersion()], map[NAME := NEW])
    case Some(bytes) =>
      Store(map[OLD.version := [1, 0, 8], NEW.version := bytes], map[OLD := OldVersion(), NEW := NewVersion(bytes)],
            map[NAME := NEW])
  }

  function Order(newer: Option<Bytes>): seq<Identity> { if newer.None? then [OLD] else [OLD, NEW] }

  lemma VersionsDiffer()
    ensures OLD.version != NEW.version
  {
    assert OLD.version.name[0] != NEW.version.name[0];
  }

  lemma OldReads(pieces: Pieces)
    requires OLD.version in pieces && pieces[OLD.version] == [1, 0, 8]
    ensures Get(Example(), pieces, OldVersion()) == Some([8])
  {
    assert Tag([], None) == [1, 0];
    assert [1, 0, 8][2..] == [8];
  }

  lemma NewReads(pieces: Pieces, bytes: Bytes)
    requires NEW.version in pieces && pieces[NEW.version] == bytes
    ensures Get(Example(), pieces, NewVersion(bytes)) == Some(bytes)
  {}

  lemma SupersededIsTidy(newer: Option<Bytes>)
    ensures Tidy(Example(), Superseded(newer), {OLD.version, NEW.version})
    ensures Lists(Order(newer), Superseded(newer).manifests)
    ensures ByName(Example(), Superseded(newer), NAME) == newer
  {
    VersionsDiffer();
    OldReads(Superseded(newer).pieces);
    if newer.Some? { NewReads(Superseded(newer).pieces, newer.value); }
  }

  lemma DrawsAreFresh()
    ensures FreshIDs(NoFaults(), {OLD.version, NEW.version})
  {
    forall i: nat
      ensures NoFaults()(i).newID.name == Zeros(i + 2) && |NoFaults()(i).newID.name| == i + 2
    {}
    assert |OLD.version.name| == 1 && |NEW.version.name| == 1;
  }

  lemma OldIsSwitched(newer: Option<Bytes>)
    ensures LastSwitched(Example(), Superseded(newer), Order(newer), NoFaults(), NAME, |Order(newer)|) == Some(OLD)
  {
    VersionsDiffer();
    var st := Superseded(newer);
    assert Switches(Example(), st.pieces, st.manifests[OLD], NoFaults()(0));
    assert LastSwitched(Example(), st, Order(newer), NoFaults(), NAME, 1) == Some(OLD);
  }

  /** After a sweep without faults the name reads the superseded version again. */
  lemma SupersededVersionReturns(newer: Option<Bytes>)
    ensures ByName(Example(), Superseded(newer), NAME) == newer
    ensures ByName(Example(), Swept(Example(), Superseded(newer), Order(newer), NoFaults(), |Order(newer)|).0, NAME)
         == Some([8])
  {
    TransparentIsLawful();
    SupersededIsTidy(newer);
    DrawsAreFresh();
    OldIsSwitched(newer);
    OldReads(Superseded(newer).pieces);
    SweepKeepsNameIff(Example(), Superseded(newer), {OLD.version, NEW.version}, Order(newer), NoFaults(), NAME,
                      |Order(newer)|);
  }

  // ---------------------------------------------------------------- runs of copies and migrations

  ghost function NameNow(g: Config, s: State, name: Name): Option<Bytes> {
    GetByName(g, s.pieces, s.manifests, s.latest, name)
  }

  /** A name points to versions of its own. */
  ghost predicate PointersOk(latest: Latest) { forall name :: name in latest ==> NameOf(latest[name]) == name }

  /** The step writes a version of the name: a copy's commit or a migration's switch. */
  predicate Publishes(s: State, step: Step, name: Name) {
    && (step.CommitCopy? || step.Switch?) && step.actor in s.pending
    && (s.pending[step.actor].Copying? || s.pending[step.actor].Switching?)
    && NameOf(s.pending[step.actor].made.id) == name
  }

  /** What it brings: the bytes the copy loaded, or what the migrated version reads as. */
  ghost function Brings(g: Config, s: State, step: Step): Option<Bytes> {
    if step.actor !in s.pending then None
    else match s.pending[step.actor]
      case Copying(_, bytes) => Some(bytes)
      case Switching(made, _) => ReadNow(g, s, made.id)
      case _ => None
  }

  lemma PublishByName(g: Config, s: State, step: Step, name: Name)
    requires Sound(g) && Inv(g, s) && Can(g, s, step) && Publishes(s, step, name)
    ensures NameNow(g, Do(g, s, step), name) == Brings(g, s, step)
  {
    assert PendingOk(g, s, step.actor);
  }

  lemma QuietByName(g: Config, s: State, step: Step, name: Name)
    requires Sound(g) && Inv(g, s) && PointersOk(s.latest) && Can(g, s, step) && !Publishes(s, step, name)
    ensures NameNow(g, Do(g, s, step), name) == NameNow(g, s, name)
  {
    QuietPointer(g, s, step, name);
    if name in s.latest && s.latest[name] in s.manifests { StepIsStable(g, s, step, s.latest[name]); }
    SameByName(g, s, Do(g, s, step), name);
  }

  lemma SameByName(g: Config, s: State, t: State, name: Name)
    requires At(t.latest, name) == At(s.latest, name)
    requires name in s.latest ==> (s.latest[name] in t.manifests <==> s.latest[name] in s.manifests)
    requires name in s.latest && s.latest[name] in s.manifests ==> SameRead(g, s, t, s.latest[name])
    ensures NameNow(g, t, name) == NameNow(g, s, name)
  {}

  lemma QuietPointer(g: Config, s: State, step: Step, name: Name)
    requires PointersOk(s.latest) && Can(g, s, step) && !Publishes(s, step, name)
    ensures At(Do(g, s, step).latest, name) == At(s.latest, name)
    ensures name in s.latest ==> (s.latest[name] in Do(g, s, step).manifests <==> s.latest[name] in s.manifests)
  {
    if step.CommitCopy? || step.Switch? { assert NameOf(s.pending[step.actor].made.id) != name; }
  }

  /** Any step: a name reads what the step brings to it, and otherwise as before. */
  lemma StepByName(g: Config, s: State, step: Step, name: Name)
    requires Sound(g) && Inv(g, s) && PointersOk(s.latest) && Can(g, s, step)
    ensures NameNow(g, Do(g, s, step), name)
         == if Publishes(s, step, name) then Brings(g, s, step) else NameNow(g, s, name)
  {
    if Publishes(s, step, name) { PublishByName(g, s, step, name); } else { QuietByName(g, s, step, name); }
  }

  lemma {:induction false} RunKeepsPointers(g: Config, states: seq<State>, steps: seq<Step>, n: nat)
    requires IsRun(g, states, steps) && PointersOk(states[0].latest) && n < |states|
    ensures PointersOk(states[n].latest)
  {
    if n > 0 {
      RunKeepsPointers(g, states, steps, n - 1);
      assert states[n] == Do(g, states[n - 1], steps[n - 1]);
    }
  }

  lemma RunStepByName(g: Config, states: seq<State>, steps: seq<Step>, n: nat, name: Name)
    requires Sound(g) && IsRun(g, states, steps) && Start(g, states[0]) && PointersOk(states[0].latest) && n < |steps|
    ensures NameNow(g, states[n + 1], name)
         == if Publishes(states[n], steps[n], name) then Brings(g, states[n], steps[n])
            else NameNow(g, states[n], name)
  {
    assert Can(g, states[n], steps[n]) && states[n + 1] == Do(g, states[n], steps[n]);
    RunKeepsInv(g, states, steps, n);
    RunKeepsPointers(g, states, steps, n);
    StepByName(g, states[n], steps[n], name);
  }

  /** What a name reads at every moment of a run. */
  ghost function NameReads(g: Config, states: seq<State>, name: Name): (f: seq<Option<Bytes>>)
    ensures |f| == |states| && forall n :: 0 <= n < |f| ==> f[n] == NameNow(g, states[n], name)
  {
    seq(|states|, n requires 0 <= n < |states| => NameNow(g, states[n], name))
  }

  /** What each step of a run brings to a name, if anything. */
  ghost function Brought(g: Config, states: seq<State>, steps: seq<Step>, name: Name): (w: seq<Option<Option<Bytes>>>)
    requires |states| == |steps| + 1
    ensures |w| == |steps|
    ensures forall n :: 0 <= n < |w| ==>
      w[n] == if Publishes(states[n], steps[n], name) then Some(Brings(g, states[n], steps[n])) else None
  {
    seq(|steps|, n requires 0 <= n < |steps| =>
      if Publishes(states[n], steps[n], name) then Some(Brings(g, states[n], steps[n])) else None)
  }

  /** f is a register and w the writes to it. */
  predicate Register<T(==)>(f: seq<T>, w: seq<Option<T>>) {
    |f| == |w| + 1 && forall n :: 0 <= n < |w| ==> f[n + 1] == if w[n].Some? then w[n].value else f[n]
  }

  lemma {:induction false} RegisterHoldsIff<T>(f: seq<T>, w: seq<Option<T>>, i: nat, j: nat)
    requires Register(f, w) && i <= j < |f|
    ensures (forall n :: i <= n <= j ==> f[n] == f[i]) <==>
            (forall n :: i <= n < j && w[n].Some? ==> w[n].value == f[i])
  {
    if i < j {
      RegisterHoldsIff(f, w, i, j - 1);
      assert f[j - 1 + 1] == if w[j - 1].Some? then w[j - 1].value else f[j - 1];
    }
  }

  lemma {:induction false} RegisterReadsLast<T>(f: seq<T>, w: seq<Option<T>>, n: nat, j: nat)
    requires Register(f, w) && n < j < |f| && w[n].Some? && forall i :: n < i < j ==> w[i].None?
    ensures f[j] == w[n].value
  {
    assert f[j - 1 + 1] == if w[j - 1].Some? then w[j - 1].value else f[j - 1];
    if n < j - 1 { RegisterReadsLast(f, w, n, j - 1); }
  }

  /** Over every run of interleaved copies and migrations, completed, failed or abandoned, a name is a register. */
  lemma NameIsRegister(g: Config, states: seq<State>, steps: seq<Step>, name: Name)
    requires Sound(g) && IsRun(g, states, steps) && Start(g, states[0]) && PointersOk(states[0].latest)
    ensures Register(NameReads(g, states, name), Brought(g, states, steps, name))
  {
    var f, w := NameReads(g, states, name), Brought(g, states, steps, name);
    forall n | 0 <= n < |w|
      ensures f[n + 1] == if w[n].Some? then w[n].value else f[n]
    {
      RunStepByName(g, states, steps, n, name);
    }
  }

  /**
    Over every such run: a name reads the same at every moment from i to j exactly when
    every copy committed to it and every migration of one of its versions in between
    brings the bytes it already read.
   */
  lemma NameHoldsIff(g: Config, states: seq<State>, steps: seq<Step>, i: nat, j: nat, name: Name)
    requires Sound(g) && IsRun(g, states, steps) && Start(g, states[0]) && PointersOk(states[0].latest)
    requires i <= j < |states|
    ensures var f, w := NameReads(g, states, name), Brought(g, states, steps, name);
            (forall n :: i <= n <= j ==> f[n] == f[i]) <==>
            (forall n :: i <= n < j && w[n].Some? ==> w[n].value == f[i])
  {
    NameIsRegister(g, states, steps, name);
    RegisterHoldsIff(NameReads(g, states, name), Brought(g, states, steps, name), i, j);
  }

  /** COPY by name: from its commit until the next write of the name, the name reads as the source did at the load. */
  lemma CopyServedByName(g: Config, states: seq<State>, steps: seq<Step>, a: nat, src: Identity, q: Request,
                         i: nat, j: nat, n: nat, m: nat)
    requires Sound(g) && IsRun(g, states, steps) && Start(g, states[0]) && PointersOk(states[0].latest)
    requires i < j < n < m < |states|
    requires steps[i] == Load(a, src) && steps[j] == WriteCopy(a, q) && steps[n] == CommitCopy(a)
    requires Idle(steps, a, i + 1, j) && Idle(steps, a, j + 1, n)
    requires forall l :: n < l < m ==> Brought(g, states, steps, q.dst)[l].None?
    ensures src in states[i].manifests
    ensures NameNow(g, states[m], q.dst) == Get(g, states[i].pieces, states[i].manifests[src])
  {
    CommitBrings(g, states, steps, a, src, q, i, j, n);
    NameIsRegister(g, states, steps, q.dst);
    RegisterReadsLast(NameReads(g, states, q.dst), Brought(g, states, steps, q.dst), n, m);
  }

  lemma CommitBrings(g: Config, states: seq<State>, steps: seq<Step>, a: nat, src: Identity, q: Request,
                     i: nat, j: nat, n: nat)
    requires Sound(g) && IsRun(g, states, steps) && Start(g, states[0]) && i < j < n < |steps|
    requires steps[i] == Load(a, src) && steps[j] == WriteCopy(a, q) && steps[n] == CommitCopy(a)
    requires Idle(steps, a, i + 1, j) && Idle(steps, a, j + 1, n)
    ensures src in states[i].manifests
    ensures Brought(g, states, steps, q.dst)[n] == Some(Get(g, states[i].pieces, states[i].manifests[src]))
  {
    RemembersUntilWrite(g, states, steps, a, src, i, j);
    RemembersUntilCommit(g, states, steps, a, q, j, n);
  }
}
