/**
  Object Lock on the versions of one object: amending a version's retention and
  legal hold, default retention on new versions, and what DELETE refuses.  Requests
  read a version's manifest and later write it back whole, and a COPY that shares a
  piece writes under that piece's version ID, so runs are modelled with the two
  halves of a request apart and with writes that replace an existing version.
 */
module ObjectLock {
  import opened Wrappers

  type VersionID = nat
  type Instant = int

  datatype Mode = NoMode | Governance | Compliance

  datatype Retention = Retention(mode: Mode, until: Instant) {
    predicate Active(now: Instant) { mode != NoMode && until > now }
  }

  datatype Version = Version(retention: Retention, hold: bool, marker: bool)

  /** The zero time, which no retention request may name. */
  const ZERO_TIME: Instant := 0

  const Unlocked := Retention(NoMode, ZERO_TIME)

  predicate Weakens(cur: Retention, next: Retention) {
    next.mode == NoMode || (cur.mode == Compliance && next.mode == Governance) || next.until < cur.until
  }

  predicate BlocksDelete(v: Version, now: Instant, bypass: bool) {
    v.hold || (v.retention.Active(now) && !(v.retention.mode == Governance && bypass))
  }

  /** What PutObjectRetention writes back, or None when it refuses. */
  function Amended(v: Version, next: Retention, bypass: bool, now: Instant): Option<Version> {
    if v.marker || next.mode == NoMode || next.until == ZERO_TIME then None
    else if v.retention.Active(now) && Weakens(v.retention, next) &&
      (v.retention.mode == Compliance || !bypass) then None
    else Some(v.(retention := next))
  }

  /** The bucket's default rule: no rule, or a mode and a positive span. */
  datatype Default = NoDefault | Rule(mode: Mode, span: nat)

  function Stamped(rule: Default, now: Instant): Retention {
    if rule.Rule? && rule.mode != NoMode && rule.span > 0 then Retention(rule.mode, now + rule.span) else Unlocked
  }

  type Versions = map<VersionID, Version>

  // ---------------------------------------------------------------- the handlers

  class Handler {
    var versions: Versions
    var latest: Option<VersionID>

    constructor ()
      ensures versions == map[] && latest == None
    {
      versions, latest := map[], None;
    }

    /**
      A PUT or COPY of version `id`.  The manifest store replaces a version that is
      already there.  Only an unversioned bucket asks whether the current version is
      locked.
     */
    method Put(id: VersionID, rule: Default, versioned: bool, bypass: bool, now: Instant) returns (ok: bool)
      modifies this
      ensures ok <==>
        versioned || (old(latest).Some? && old(latest).value in old(versions) ==>
                        var v := old(versions)[old(latest).value];
                        && !v.hold
                        && (v.retention.mode == NoMode || v.retention.until <= now
                            || (v.retention.mode == Governance && bypass)))
      ensures versions == if ok then old(versions)[id := Version(Stamped(rule, now), false, false)] else old(versions)
      ensures latest == if ok then Some(id) else old(latest)
    {
      if !versioned && latest.Some? && latest.value in versions {
        if BlocksDelete(versions[latest.value], now, bypass) { return false; }
      }
      var retention := Unlocked;
      if rule.Rule? && rule.mode != NoMode && rule.span > 0 { retention := Retention(rule.mode, now + rule.span); }
      versions, latest := versions[id := Version(retention, false, false)], Some(id);
      ok := true;
    }

    method PutObjectRetention(id: VersionID, next: Retention, bypass: bool, now: Instant) returns (ok: bool)
      modifies this`versions
      ensures ok <==> id in old(versions) && Amended(old(versions)[id], next, bypass, now).Some?
      ensures versions == if ok then old(versions)[id := Amended(old(versions)[id], next, bypass, now).value]
        else old(versions)
    {
      if next.mode == NoMode || next.until == ZERO_TIME { return false; }
      if id !in versions || versions[id].marker { return false; }
      var existing := versions[id].retention;
      if existing.Active(now) && Weakens(existing, next) {
        if existing.mode == Compliance { return false; }
        if existing.mode == Governance && !bypass { return false; }
      }
      versions := versions[id := versions[id].(retention := next)];
      ok := true;
    }

    method PutObjectLegalHold(id: VersionID, on: bool) returns (ok: bool)
      modifies this`versions
      ensures ok <==> id in old(versions) && !old(versions)[id].marker
      ensures versions == if ok then old(versions)[id := old(versions)[id].(hold := on)] else old(versions)
    {
      if id !in versions || versions[id].marker { return false; }
      versions := versions[id := versions[id].(hold := on)];
      ok := true;
    }

    /** Permanent DELETE of a version; a missing one is a success. */
    method Delete(id: VersionID, bypass: bool, now: Instant) returns (ok: bool)
      modifies this
      ensures ok <==> (id in old(versions) ==>
                         var v := old(versions)[id];
                         && !v.hold
                         && (v.retention.mode == NoMode || v.retention.until <= now
                             || (v.retention.mode == Governance && bypass)))
      ensures versions == if ok then old(versions) - {id} else old(versions)
      ensures latest == if id in old(versions) && ok && old(latest) == Some(id) then None else old(latest)
    {
      if id !in versions { return true; }
      if BlocksDelete(versions[id], now, bypass) { return false; }
      versions := versions - {id};
      if latest == Some(id) { latest := None; }
      ok := true;
    }
  }

  // ---------------------------------------------------------------- runs

  /** A request in flight remembers the version it loaded. */
  datatype State = State(versions: Versions, loaded: map<nat, (VersionID, Version)>)

  /**
    `Publish` is the manifest write of a PUT or COPY, which replaces a version with
    the same ID; `Mark` that of a delete marker; `Load` the read half of the three
    writes below it.
   */
  datatype Act =
    | Publish(id: VersionID, rule: Default)
    | Mark(id: VersionID)
    | Load(actor: nat, id: VersionID)
    | WriteRetention(actor: nat, next: Retention, bypass: bool)
    | WriteHold(actor: nat, on: bool)
    | WriteDelete(actor: nat, bypass: bool)

  datatype Event = Event(at: Instant, act: Act)

  predicate Writes(a: Act) { a.WriteRetention? || a.WriteHold? || a.WriteDelete? }

  /** What a write leaves of the version it loaded; None when it refuses, an absent version when it deletes. */
  function Verdict(v: Version, a: Act, now: Instant): Option<Option<Version>>
    requires Writes(a)
  {
    match a
    case WriteRetention(_, next, bypass) =>
      var amended := Amended(v, next, bypass, now);
      if amended.None? then None else Some(amended)
    case WriteHold(_, on) => if v.marker then None else Some(Some(v.(hold := on)))
    case WriteDelete(_, bypass) => if BlocksDelete(v, now, bypass) then None else Some(None)
  }

  /** A write acts on the loaded copy; on a version that is gone it does nothing. */
  function Do(s: State, e: Event): State {
    match e.act
    case Publish(id, rule) => s.(versions := s.versions[id := Version(Stamped(rule, e.at), false, false)])
    case Mark(id) => s.(versions := s.versions[id := Version(Unlocked, false, true)])
    case Load(a, id) => if id in s.versions then s.(loaded := s.loaded[a := (id, s.versions[id])]) else s
    case _ =>
      if e.act.actor !in s.loaded then s
      else
        var (id, v) := s.loaded[e.act.actor];
        var left := Verdict(v, e.act, e.at);
        State(if left.None? || id !in s.versions then s.versions
              else if left.value.None? then s.versions - {id}
              else s.versions[id := left.value.value],
              s.loaded - {e.act.actor})
  }

  /** A run: the states it passes through, at times that never go back. */
  ghost predicate IsRun(states: seq<State>, events: seq<Event>) {
    && |states| == |events| + 1
    && (forall i {:trigger events[i]} :: 0 <= i < |events| ==> states[i + 1] == Do(states[i], events[i]))
    && (forall i, j :: 0 <= i < j < |events| ==> events[i].at <= events[j].at)
  }

  // ---------------------------------------------------------------- what keeps a lock

  /** How strong a lock is asked for: a retention of either mode, or COMPLIANCE. */
  datatype Level = EitherMode | Strict

  /** The retention is of that level, until t at least. */
  predicate Meets(r: Retention, level: Level, t: Instant) {
    r.mode != NoMode && (level.Strict? ==> r.mode == Compliance) && r.until >= t
  }

  /** Version id is there and its retention meets the level until t. */
  predicate Locked(s: State, id: VersionID, level: Level, t: Instant) {
    id in s.versions && Meets(s.versions[id].retention, level, t)
  }

  /**
    The event leaves the lock on version id alone.  Everything it asks can be read
    off the request, the bucket's rule and the copy the request loaded.
   */
  predicate Harmless(s: State, e: Event, id: VersionID, level: Level, t: Instant) {
    match e.act
    case Publish(id', rule) => id' == id ==> Meets(Stamped(rule, e.at), level, t)
    case Mark(id') => id' != id
    case Load(_, _) => true
    case WriteRetention(a, next, bypass) =>
      a in s.loaded && s.loaded[a].0 == id ==>
        Amended(s.loaded[a].1, next, bypass, e.at).None? || Meets(next, level, t)
    case WriteHold(a, _) =>
      a in s.loaded && s.loaded[a].0 == id ==>
        s.loaded[a].1.marker || Meets(s.loaded[a].1.retention, level, t)
    case WriteDelete(a, bypass) =>
      a in s.loaded && s.loaded[a].0 == id ==>
        var v := s.loaded[a].1;
        v.hold || (v.retention.Active(e.at) && !(v.retention.mode == Governance && bypass))
  }

  /** A lock survives an event exactly when the event is harmless to it. */
  lemma StepKeepsIff(s: State, e: Event, id: VersionID, level: Level, t: Instant)
    requires Locked(s, id, level, t)
    ensures Locked(Do(s, e), id, level, t) <==> Harmless(s, e, id, level, t)
  {}

  /**
    Over every run: a lock is there at every moment from i to j exactly when every
    event in between is harmless to it.
   */
  lemma {:induction false} LockHoldsIff(states: seq<State>, events: seq<Event>, i: nat, j: nat, id: VersionID,
                                        level: Level, t: Instant)
    requires IsRun(states, events) && i <= j <= |events| && Locked(states[i], id, level, t)
    ensures (forall n :: i <= n <= j ==> Locked(states[n], id, level, t)) <==>
            (forall n {:trigger events[n]} :: i <= n < j ==> Harmless(states[n], events[n], id, level, t))
  {
    if i < j {
      LockHoldsIff(states, events, i, j - 1, id, level, t);
      assert states[j] == Do(states[j - 1], events[j - 1]);
      if Locked(states[j - 1], id, level, t) { StepKeepsIff(states[j - 1], events[j - 1], id, level, t); }
      assert (forall n :: i <= n <= j ==> Locked(states[n], id, level, t)) <==>
             (forall n :: i <= n <= j - 1 ==> Locked(states[n], id, level, t)) && Locked(states[j], id, level, t);
      assert (forall n {:trigger events[n]} :: i <= n < j ==> Harmless(states[n], events[n], id, level, t)) <==>
             (forall n {:trigger events[n]} :: i <= n < j - 1 ==> Harmless(states[n], events[n], id, level, t))
             && Harmless(states[j - 1], events[j - 1], id, level, t);
    }
  }

  // ---------------------------------------------------------------- legal hold

  /** Version id is there and under a legal hold. */
  predicate OnHold(s: State, id: VersionID) { id in s.versions && s.versions[id].hold }

  /** The copy of version id that the request of the event loaded, if it did. */
  function LoadedOf(s: State, e: Event, id: VersionID): Option<Version> {
    if Writes(e.act) && e.act.actor in s.loaded && s.loaded[e.act.actor].0 == id then Some(s.loaded[e.act.actor].1)
    else None
  }

  /**
    The event leaves the hold on version id alone: it neither replaces the version nor
    lifts the hold, and does not write back or delete from a copy without one, unless it
    is refused.
   */
  predicate SparesHold(s: State, e: Event, id: VersionID) {
    var v := LoadedOf(s, e, id);
    match e.act
    case Publish(id', _) => id' != id
    case Mark(id') => id' != id
    case Load(_, _) => true
    case WriteHold(_, on) => v.None? || on || v.value.marker
    case WriteRetention(_, next, bypass) => v.None? || v.value.hold || Amended(v.value, next, bypass, e.at).None?
    case WriteDelete(_, bypass) =>
      || v.None? || v.value.hold
      || (v.value.retention.Active(e.at) && !(v.value.retention.mode == Governance && bypass))
  }

  lemma StepSparesHoldIff(s: State, e: Event, id: VersionID)
    requires OnHold(s, id)
    ensures OnHold(Do(s, e), id) <==> SparesHold(s, e, id)
  {}

  /** Over every run: a version is on hold at every moment from i to j exactly when every event in between spares it. */
  lemma {:induction false} HoldHoldsIff(states: seq<State>, events: seq<Event>, i: nat, j: nat, id: VersionID)
    requires IsRun(states, events) && i <= j <= |events| && OnHold(states[i], id)
    ensures (forall n :: i <= n <= j ==> OnHold(states[n], id)) <==>
            (forall n {:trigger events[n]} :: i <= n < j ==> SparesHold(states[n], events[n], id))
  {
    if i < j {
      HoldHoldsIff(states, events, i, j - 1, id);
      assert states[j] == Do(states[j - 1], events[j - 1]);
      if OnHold(states[j - 1], id) { StepSparesHoldIff(states[j - 1], events[j - 1], id); }
      assert (forall n :: i <= n <= j ==> OnHold(states[n], id)) <==>
             (forall n :: i <= n <= j - 1 ==> OnHold(states[n], id)) && OnHold(states[j], id);
      assert (forall n {:trigger events[n]} :: i <= n < j ==> SparesHold(states[n], events[n], id)) <==>
             (forall n {:trigger events[n]} :: i <= n < j - 1 ==> SparesHold(states[n], events[n], id))
             && SparesHold(states[j - 1], events[j - 1], id);
    }
  }

  /** A request that loaded a held copy never removes the version, with or without bypass, at any time. */
  lemma LoadedHoldIsKept(s: State, e: Event, id: VersionID)
    requires id in s.versions && LoadedOf(s, e, id).Some? && LoadedOf(s, e, id).value.hold
    ensures id in Do(s, e).versions && (!e.act.WriteHold? ==> OnHold(Do(s, e), id) || Do(s, e).versions == s.versions)
  {}

  // ---------------------------------------------------------------- COMPLIANCE and GOVERNANCE

  /** What the event loaded of version id, if it writes it, met the level until t. */
  predicate LoadedLocked(s: State, e: Event, id: VersionID, level: Level, t: Instant) {
    Writes(e.act) && e.act.actor in s.loaded && s.loaded[e.act.actor].0 == id ==>
      Meets(s.loaded[e.act.actor].1.retention, level, t)
  }

  /** The event does not replace version id by one with a lesser lock. */
  predicate Republishes(e: Event, id: VersionID, level: Level, t: Instant) {
    && (e.act.Publish? && e.act.id == id ==> Meets(Stamped(e.act.rule, e.at), level, t))
    && (e.act.Mark? ==> e.act.id != id)
  }

  predicate Bypasses(s: State, e: Event, id: VersionID) {
    && (e.act.WriteRetention? || e.act.WriteDelete?) && e.act.bypass
    && e.act.actor in s.loaded && s.loaded[e.act.actor].0 == id
  }

  /** Before t, a request that loaded the lock cannot remove it, but for a GOVERNANCE bypass. */
  lemma LoadedLockIsKept(s: State, e: Event, id: VersionID, level: Level, t: Instant)
    requires e.at < t && LoadedLocked(s, e, id, level, t) && Republishes(e, id, level, t)
    requires level.Strict? || !Bypasses(s, e, id)
    ensures Harmless(s, e, id, level, t)
  {}

  /**
    A version under COMPLIANCE until t is there, in COMPLIANCE, with a date no earlier
    than t, at every moment before t, whatever amendments, bypass requests, holds, PUTs,
    COPYs and DELETEs come in between, provided that every request that writes it had
    loaded a copy under COMPLIANCE until t, and that a PUT or COPY that replaces it
    stamps as much.
   */
  lemma ComplianceHolds(states: seq<State>, events: seq<Event>, i: nat, j: nat, id: VersionID, t: Instant)
    requires IsRun(states, events) && i <= j <= |events| && Locked(states[i], id, Strict, t)
    requires i < j ==> events[j - 1].at < t
    requires forall n {:trigger events[n]} :: i <= n < j ==>
      LoadedLocked(states[n], events[n], id, Strict, t) && Republishes(events[n], id, Strict, t)
    ensures Locked(states[j], id, Strict, t)
  {
    forall n {:trigger events[n]} | i <= n < j
      ensures Harmless(states[n], events[n], id, Strict, t)
    {
      if n < j - 1 { assert events[n].at <= events[j - 1].at; }
      LoadedLockIsKept(states[n], events[n], id, Strict, t);
    }
    LockHoldsIff(states, events, i, j, id, Strict, t);
  }

  /** A retention of either mode weakens or disappears early only through a bypass request for that version. */
  lemma GovernanceNeedsBypass(states: seq<State>, events: seq<Event>, i: nat, j: nat, id: VersionID, t: Instant)
    requires IsRun(states, events) && i <= j <= |events| && Locked(states[i], id, EitherMode, t)
    requires i < j ==> events[j - 1].at < t
    requires forall n {:trigger events[n]} :: i <= n < j ==>
      && LoadedLocked(states[n], events[n], id, EitherMode, t) && Republishes(events[n], id, EitherMode, t)
      && !Bypasses(states[n], events[n], id)
    ensures Locked(states[j], id, EitherMode, t)
  {
    forall n {:trigger events[n]} | i <= n < j
      ensures Harmless(states[n], events[n], id, EitherMode, t)
    {
      if n < j - 1 { assert events[n].at <= events[j - 1].at; }
      LoadedLockIsKept(states[n], events[n], id, EitherMode, t);
    }
    LockHoldsIff(states, events, i, j, id, EitherMode, t);
  }

  /** A bucket's default rule locks a new version for exactly its span. */
  lemma DefaultStamps(rule: Default, now: Instant, level: Level, t: Instant)
    ensures Meets(Stamped(rule, now), level, t) <==>
            && rule.Rule? && rule.span > 0 && rule.mode != NoMode
            && (level == Strict ==> rule.mode == Compliance) && t <= now + rule.span
    ensures !(rule.Rule? && rule.span > 0 && rule.mode != NoMode) ==> Stamped(rule, now) == Unlocked
  {}

  /** So a version published under a COMPLIANCE default is protected for the span, under the same hypotheses. */
  lemma DefaultProtects(states: seq<State>, events: seq<Event>, i: nat, j: nat, id: VersionID, span: nat)
    requires IsRun(states, events) && i < j <= |events| && span > 0
    requires events[i].act == Publish(id, Rule(Compliance, span)) && events[j - 1].at < events[i].at + span
    requires forall n {:trigger events[n]} :: i < n < j ==>
      && LoadedLocked(states[n], events[n], id, Strict, events[i].at + span)
      && Republishes(events[n], id, Strict, events[i].at + span)
    ensures Locked(states[j], id, Strict, events[i].at + span)
  {
    DefaultStamps(events[i].act.rule, events[i].at, Strict, events[i].at + span);
    assert states[i + 1] == Do(states[i], events[i]);
    ComplianceHolds(states, events, i + 1, j, id, events[i].at + span);
  }

  // ---------------------------------------------------------------- serial runs with new versions

  /** The write finds the version as it was loaded: no other request wrote it in between. */
  predicate Exclusive(s: State, e: Event) {
    Writes(e.act) && e.act.actor in s.loaded ==>
      var (id, v) := s.loaded[e.act.actor];
      id in s.versions ==> s.versions[id] == v
  }

  /** A PUT, COPY or delete marker brings a version ID of its own. */
  predicate NewVersion(s: State, e: Event) { e.act.Publish? || e.act.Mark? ==> e.act.id !in s.versions }

  /**
    Requests that do not overlap, with new version IDs, meet the hypotheses: before t a
    COMPLIANCE lock holds, and a retention of either mode holds unless it is bypassed.
   */
  lemma {:induction false} SerialLockHolds(states: seq<State>, events: seq<Event>, i: nat, j: nat, id: VersionID,
                                           level: Level, t: Instant)
    requires IsRun(states, events) && i <= j <= |events| && Locked(states[i], id, level, t)
    requires i < j ==> events[j - 1].at < t
    requires forall n {:trigger events[n]} :: i <= n < j ==>
      && Exclusive(states[n], events[n]) && NewVersion(states[n], events[n])
      && (level.Strict? || !Bypasses(states[n], events[n], id))
    ensures Locked(states[j], id, level, t)
  {
    if i < j {
      if i < j - 1 { assert events[j - 2].at <= events[j - 1].at; }
      SerialLockHolds(states, events, i, j - 1, id, level, t);
      var s, e := states[j - 1], events[j - 1];
      assert Exclusive(s, e) && NewVersion(s, e) && states[j] == Do(s, e);
      LoadedLockIsKept(s, e, id, level, t);
      StepKeepsIff(s, e, id, level, t);
    }
  }

  // ---------------------------------------------------------------- how the lock is lost

  /**
    Without any overlap: version 7 is put under COMPLIANCE until 20, the same COPY is
    repeated and replaces it under the same version ID with the bucket's default, and
    the version is deleted at time 15.
   */
  lemma RecopyUnlocks()
    ensures var start := State(map[], map[]);
            var opens := Do(Do(start, Event(0, Publish(7, NoDefault))), Event(1, Load(1, 7)));
            var lock := Event(1, WriteRetention(1, Retention(Compliance, 20), false));
            var locked := Do(opens, lock);
            var recopied := Do(locked, Event(2, Publish(7, NoDefault)));
            var loaded := Do(recopied, Event(15, Load(2, 7)));
            var delete := Event(15, WriteDelete(2, false));
            && Locked(locked, 7, Strict, 20) && !Locked(recopied, 7, Strict, 20)
            && Exclusive(opens, lock) && Exclusive(loaded, delete) && 7 !in Do(loaded, delete).versions
  {
    var locked := Do(Do(Do(State(map[], map[]), Event(0, Publish(7, NoDefault))), Event(1, Load(1, 7))),
                     Event(1, WriteRetention(1, Retention(Compliance, 20), false)));
    assert locked.versions[7] == Version(Retention(Compliance, 20), false, false);
    var loaded := Do(Do(locked, Event(2, Publish(7, NoDefault))), Event(15, Load(2, 7)));
    assert loaded.loaded[2] == (7, Version(Unlocked, false, false));
  }

  /**
    With an overlap: a request that loaded the version before a COMPLIANCE extension to
    time 20 was accepted writes an earlier date back, whether it sets a legal hold or
    amends the retention to time 15, and the version can be deleted at time 16.
   */
  lemma OverlappingWriteUndoesExtension(write: Act)
    requires write == WriteHold(1, false) || write == WriteRetention(1, Retention(Compliance, 15), false)
    ensures var start := State(map[7 := Version(Retention(Compliance, 10), false, false)], map[]);
            var extended := Do(Do(Do(start, Event(0, Load(1, 7))), Event(0, Load(2, 7))),
                               Event(1, WriteRetention(2, Retention(Compliance, 20), false)));
            var after := Do(extended, Event(2, write));
            var gone := Do(Do(after, Event(16, Load(3, 7))), Event(16, WriteDelete(3, false)));
            Locked(extended, 7, Strict, 20) && !Locked(after, 7, Strict, 20) && 7 !in gone.versions
  {
    var version := Version(Retention(Compliance, 10), false, false);
    var start := State(map[7 := version], map[]);
    var both := Do(Do(start, Event(0, Load(1, 7))), Event(0, Load(2, 7)));
    assert both.loaded[1] == (7, version) && both.loaded[2] == (7, version);
    var extended := Do(both, Event(1, WriteRetention(2, Retention(Compliance, 20), false)));
    assert extended.loaded[1] == (7, version);
    var after := Do(extended, Event(2, write));
    assert after.versions[7].retention == if write.WriteHold? then Retention(Compliance, 10)
      else Retention(Compliance, 15);
    var loaded := Do(after, Event(16, Load(3, 7)));
    assert loaded.loaded[3] == (7, after.versions[7]);
  }

  // ---------------------------------------------------------------- the order amendments climb

  /** At least as strong. */
  predicate Climbs(cur: Retention, next: Retention) {
    next.mode != NoMode && (cur.mode == Compliance ==> next.mode == Compliance) && cur.until <= next.until
  }

  /**
    A proper retention is accepted exactly when the one in place is not in force, the new
    one is at least as strong, or a GOVERNANCE retention is bypassed; what is written then
    differs from the version in its retention only.
   */
  lemma AcceptedAmendmentClimbs(v: Version, next: Retention, bypass: bool, now: Instant)
    requires !v.marker && next.mode != NoMode && next.until != ZERO_TIME
    ensures Amended(v, next, bypass, now).Some? <==>
            || v.retention.mode == NoMode || v.retention.until <= now || Climbs(v.retention, next)
            || (v.retention.mode == Governance && bypass)
    ensures Amended(v, next, bypass, now).Some? ==> Amended(v, next, bypass, now).value == Version(next, v.hold, false)
  {}

  /** A delete marker, and a request without a mode or a date, are refused. */
  lemma ImproperAmendmentRefused(v: Version, next: Retention, bypass: bool, now: Instant)
    requires v.marker || next.mode == NoMode || next.until == ZERO_TIME
    ensures Amended(v, next, bypass, now).None?
  {}

  lemma ClimbsIsTransitive(a: Retention, b: Retention, c: Retention)
    requires Climbs(a, b) && Climbs(b, c)
    ensures Climbs(a, c)
  {}

  /** A chain of accepted amendments made while each retention was active ends at least as strong as it began. */
  lemma {:induction false} AmendmentsClimb(rs: seq<Retention>, times: seq<Instant>, v: Version)
    requires |rs| == |times| + 1 && !v.marker && rs[0].mode != NoMode
    requires forall i {:trigger times[i]} :: 0 <= i < |times| ==>
      && rs[i].Active(times[i])
      && Amended(v.(retention := rs[i]), rs[i + 1], false, times[i]).Some?
    ensures Climbs(rs[0], rs[|rs| - 1])
  {
    if |times| > 0 {
      var n := |times| - 1;
      forall i {:trigger times[..n][i]} | 0 <= i < n
        ensures rs[..n + 1][i].Active(times[..n][i])
        ensures Amended(v.(retention := rs[..n + 1][i]), rs[..n + 1][i + 1], false, times[..n][i]).Some?
      {
        assert times[..n][i] == times[i];
      }
      AmendmentsClimb(rs[..n + 1], times[..n], v);
      assert rs[n].Active(times[n]);
      assert rs[n + 1].until != ZERO_TIME;
      AcceptedAmendmentClimbs(v.(retention := rs[n]), rs[n + 1], false, times[n]);
      ClimbsIsTransitive(rs[0], rs[n], rs[n + 1]);
    }
  }
}
