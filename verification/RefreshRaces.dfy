/**
  The Postgres refresh-token store statement by statement, at READ COMMITTED: SELECT
  FOR UPDATE locks the presented row, what a transaction writes shows when it commits,
  and a DELETE removes the rows its snapshot saw, after waiting for their locks.
  Replicas interleave these steps in any order.
 */
module RefreshRaces {
  import opened Wrappers
  import opened RefreshTokens

  datatype Scope = Family(family: string) | Tenant(tenant: string)

  predicate Covers(scope: Scope, row: Row) {
    match scope
    case Family(f) => row.family == f
    case Tenant(t) => row.tenant == t
  }

  function Covered(rows: Rows, scope: Scope): set<string> { set t | t in rows && Covers(scope, rows[t]) }

  /** An open transaction: a replay found, a DELETE under way, a rotation with its successor drawn. */
  datatype Tx =
    | Reused(token: string, family: string)
    | Deleting(held: Option<string>, scope: Scope, seen: set<string>)
    | Rotating(token: string, raw: string, expiresAt: int)

  /** The row a transaction has locked. */
  function Locks(tx: Tx): Option<string> {
    match tx
    case Reused(token, _) => Some(token)
    case Deleting(held, _, _) => held
    case Rotating(token, _, _) => Some(token)
  }

  /** The committed rows and the open transactions; `minted` and `families` are history. */
  datatype State = State(rows: Rows, txs: map<nat, Tx>, minted: set<string>, families: set<string>)

  const Init := State(map[], map[], {}, {})

  datatype Step =
    | Insert(tenant: string, family: string, raw: string, expiresAt: int)   // Issue
    | Select(actor: nat, token: string, raw: string, now: int, ttl: int)    // Rotate: SELECT ... FOR UPDATE
    | Snapshot(actor: nat)                                                  // Rotate: DELETE by family begins
    | RevokeAll(actor: nat, tenant: string)                                 // DELETE by tenant begins
    | Delete(actor: nat)                                                    // a DELETE has its locks, and commits
    | Commit(actor: nat)                                                    // a rotation commits
    | Abort(actor: nat)
    | Revoke(token: string)

  /** No transaction but a's has locked the row. */
  predicate Unlocked(s: State, a: nat, token: string) {
    forall b :: b in s.txs && b != a ==> Locks(s.txs[b]) != Some(token)
  }

  predicate Can(s: State, step: Step) {
    match step
    case Insert(_, family, raw, _) => raw !in s.minted && family !in s.families
    case Select(a, token, raw, _, _) => a !in s.txs && Unlocked(s, a, token) && raw !in s.minted
    case Snapshot(a) => a in s.txs && s.txs[a].Reused?
    case RevokeAll(a, _) => a !in s.txs
    case Delete(a) => a in s.txs && s.txs[a].Deleting? && forall t :: t in s.txs[a].seen ==> Unlocked(s, a, t)
    case Commit(a) => a in s.txs && s.txs[a].Rotating?
    case Abort(a) => a in s.txs
    case Revoke(token) => forall a :: a in s.txs ==> Locks(s.txs[a]) != Some(token)
  }

  /** SELECT FOR UPDATE and what follows from the row it read. */
  function Selected(s: State, a: nat, token: string, raw: string, now: int, ttl: int): State {
    if token == "" || token !in s.rows then s
    else if now >= s.rows[token].expiresAt then s.(rows := s.rows - {token})
    else if s.rows[token].consumed then s.(txs := s.txs[a := Reused(token, s.rows[token].family)])
    else s.(txs := s.txs[a := Rotating(token, raw, now + ttl)], minted := s.minted + {raw})
  }

  function Without(rows: Rows, scope: Scope, seen: set<string>): Rows {
    map t | t in rows && !(t in seen && Covers(scope, rows[t])) :: rows[t]
  }

  function Do(s: State, step: Step): State
    requires Can(s, step)
  {
    match step
    case Insert(tenant, family, raw, expiresAt) =>
      s.(rows := s.rows[raw := Row(tenant, family, expiresAt, false)], minted := s.minted + {raw},
         families := s.families + {family})
    case Select(a, token, raw, now, ttl) => Selected(s, a, token, raw, now, ttl)
    case Snapshot(a) =>
      var scope := Family(s.txs[a].family);
      s.(txs := s.txs[a := Deleting(Some(s.txs[a].token), scope, Covered(s.rows, scope))])
    case RevokeAll(a, tenant) =>
      s.(txs := s.txs[a := Deleting(None, Tenant(tenant), Covered(s.rows, Tenant(tenant)))])
    case Delete(a) => s.(rows := Without(s.rows, s.txs[a].scope, s.txs[a].seen), txs := s.txs - {a})
    case Commit(a) =>
      var tx := s.txs[a];
      s.(rows := if tx.token in s.rows then Succeed(s.rows, tx.token, tx.raw, tx.expiresAt) else s.rows,
         txs := s.txs - {a})
    case Abort(a) => s.(txs := s.txs - {a})
    case Revoke(token) => s.(rows := s.rows - {token})
  }

  // ---------------------------------------------------------------- the invariant

  ghost predicate TxOk(s: State, a: nat)
    requires a in s.txs
  {
    match s.txs[a]
    case Reused(token, family) => token in s.rows && s.rows[token].family == family
    case Deleting(_, Family(f), _) => f in s.families
    case Deleting(_, _, _) => true
    case Rotating(token, raw, _) =>
      token in s.rows && !s.rows[token].consumed && raw in s.minted && raw !in s.rows
  }

  ghost predicate Apart(s: State, a: nat, b: nat)
    requires a in s.txs && b in s.txs
  {
    && (Locks(s.txs[a]).Some? ==> Locks(s.txs[a]) != Locks(s.txs[b]))
    && (s.txs[a].Rotating? && s.txs[b].Rotating? ==> s.txs[a].raw != s.txs[b].raw)
  }

  /** At most one token of a family is still to be rotated. */
  ghost predicate NoFork(rows: Rows) {
    forall t, t' ::
      (t in rows && t' in rows && !rows[t].consumed && !rows[t'].consumed && rows[t].family == rows[t'].family)
      ==> t == t'
  }

  ghost predicate Inv(s: State) {
    && (forall t :: t in s.rows ==> t in s.minted && s.rows[t].family in s.families)
    && (forall a :: a in s.txs ==> TxOk(s, a))
    && (forall a, b :: a in s.txs && b in s.txs && a != b ==> Apart(s, a, b))
    && NoFork(s.rows)
  }

  /** A transaction opens or moves on. */
  lemma MoveKeepsInv(s: State, t: State, a: nat)
    requires Inv(s) && a in t.txs && t == s.(txs := s.txs[a := t.txs[a]], minted := t.minted) && s.minted <= t.minted
    requires TxOk(t, a) && forall b :: b in s.txs && b != a ==> Apart(t, a, b) && Apart(t, b, a)
    ensures Inv(t)
  {
    forall b | b in t.txs ensures TxOk(t, b) { if b != a { assert TxOk(s, b); } }
    forall b, c | b in t.txs && c in t.txs && b != c ensures Apart(t, b, c) {
      if b != a && c != a { assert Apart(s, b, c); }
    }
  }

  /** Rows disappear that no remaining transaction has locked; transactions end. */
  lemma DropKeepsInv(s: State, t: State)
    requires Inv(s) && t == s.(rows := t.rows, txs := t.txs)
    requires forall k :: k in t.rows ==> k in s.rows && t.rows[k] == s.rows[k]
    requires forall a :: a in t.txs ==> a in s.txs && t.txs[a] == s.txs[a]
    requires forall a :: a in t.txs && Locks(t.txs[a]).Some? && Locks(t.txs[a]).value in s.rows ==>
      Locks(t.txs[a]).value in t.rows
    ensures Inv(t)
  {
    forall a | a in t.txs ensures TxOk(t, a) { assert TxOk(s, a); }
    forall a, b | a in t.txs && b in t.txs && a != b ensures Apart(t, a, b) { assert Apart(s, a, b); }
  }

  lemma InsertKeepsInv(s: State, step: Step)
    requires Inv(s) && step.Insert? && Can(s, step)
    ensures Inv(Do(s, step))
  {
    var t := Do(s, step);
    forall a | a in t.txs ensures TxOk(t, a) { assert TxOk(s, a); }
    forall a, b | a in t.txs && b in t.txs && a != b ensures Apart(t, a, b) { assert Apart(s, a, b); }
  }

  lemma SelectKeepsInv(s: State, step: Step)
    requires Inv(s) && step.Select? && Can(s, step)
    ensures Inv(Do(s, step))
  {
    var t := Do(s, step);
    if step.actor !in t.txs {
      DropKeepsInv(s, t);
    } else {
      forall b | b in s.txs && b != step.actor ensures Apart(t, step.actor, b) && Apart(t, b, step.actor) {
        assert TxOk(s, b);
      }
      MoveKeepsInv(s, t, step.actor);
    }
  }

  lemma BeginDeleteKeepsInv(s: State, step: Step)
    requires Inv(s) && (step.Snapshot? || step.RevokeAll?) && Can(s, step)
    ensures Inv(Do(s, step))
  {
    var t := Do(s, step);
    if step.Snapshot? {
      assert TxOk(s, step.actor);
      forall b | b in s.txs && b != step.actor ensures Apart(t, step.actor, b) && Apart(t, b, step.actor) {
        assert Apart(s, step.actor, b) && Apart(s, b, step.actor);
      }
    }
    MoveKeepsInv(s, t, step.actor);
  }

  lemma CommitKeepsInv(s: State, a: nat)
    requires Inv(s) && Can(s, Commit(a))
    ensures Inv(Do(s, Commit(a)))
  {
    var t, tx := Do(s, Commit(a)), s.txs[a];
    assert TxOk(s, a);
    forall b | b in t.txs ensures TxOk(t, b) { assert TxOk(s, b) && Apart(s, a, b); }
    forall b, c | b in t.txs && c in t.txs && b != c ensures Apart(t, b, c) { assert Apart(s, b, c); }
  }

  lemma StepKeepsInv(s: State, step: Step)
    requires Inv(s) && Can(s, step)
    ensures Inv(Do(s, step))
  {
    match step
    case Insert(_, _, _, _) => InsertKeepsInv(s, step);
    case Select(_, _, _, _, _) => SelectKeepsInv(s, step);
    case Snapshot(_) => BeginDeleteKeepsInv(s, step);
    case RevokeAll(_, _) => BeginDeleteKeepsInv(s, step);
    case Commit(a) => CommitKeepsInv(s, a);
    case _ => DropKeepsInv(s, Do(s, step));
  }

  // ---------------------------------------------------------------- whole runs

  /** A run: the states it passes through and the steps between them. */
  ghost predicate IsRun(states: seq<State>, steps: seq<Step>) {
    && |states| == |steps| + 1 && states[0] == Init
    && forall i {:trigger steps[i]} :: 0 <= i < |steps| ==>
         Can(states[i], steps[i]) && states[i + 1] == Do(states[i], steps[i])
  }

  lemma {:induction false} RunKeepsInv(states: seq<State>, steps: seq<Step>, i: nat)
    requires IsRun(states, steps) && i < |states|
    ensures Inv(states[i])
  {
    if i > 0 {
      RunKeepsInv(states, steps, i - 1);
      assert Can(states[i - 1], steps[i - 1]);
      StepKeepsInv(states[i - 1], steps[i - 1]);
    }
  }

  /** At every moment of every run at most one token of a family is still to be rotated. */
  lemma FamilyNeverForks(states: seq<State>, steps: seq<Step>, i: nat)
    requires IsRun(states, steps) && i < |states|
    ensures NoFork(states[i].rows)
  {
    RunKeepsInv(states, steps, i);
  }

  // ---------------------------------------------------------------- a token is rotated once

  /** The step answers a rotation of the token with a successor. */
  predicate Grants(s: State, step: Step, token: string) {
    step.Commit? && step.actor in s.txs && s.txs[step.actor].Rotating? && s.txs[step.actor].token == token
  }

  ghost predicate Spent(s: State, token: string) {
    && token in s.minted && (token in s.rows ==> s.rows[token].consumed)
    && forall a :: a in s.txs && s.txs[a].Rotating? ==> s.txs[a].raw != token
  }

  lemma GrantSpends(s: State, step: Step, token: string)
    requires Inv(s) && Can(s, step) && Grants(s, step, token)
    ensures Spent(Do(s, step), token)
  {
    assert TxOk(s, step.actor);
    forall a | a in s.txs && s.txs[a].Rotating? ensures s.txs[a].raw != token { assert TxOk(s, a); }
  }

  lemma SpentStays(s: State, step: Step, token: string)
    requires Inv(s) && Can(s, step) && Spent(s, token)
    ensures Spent(Do(s, step), token)
  {
    if step.Commit? { assert TxOk(s, step.actor); }
  }

  lemma {:induction false} SpentForever(states: seq<State>, steps: seq<Step>, i: nat, j: nat, token: string)
    requires IsRun(states, steps) && i <= j < |states| && Spent(states[i], token)
    ensures Spent(states[j], token)
  {
    if i < j {
      SpentForever(states, steps, i, j - 1, token);
      RunKeepsInv(states, steps, j - 1);
      assert Can(states[j - 1], steps[j - 1]);
      SpentStays(states[j - 1], steps[j - 1], token);
    }
  }

  /** However the statements of concurrent rotations interleave, a token is rotated at most once. */
  lemma RotatedOnce(states: seq<State>, steps: seq<Step>, i: nat, j: nat, token: string)
    requires IsRun(states, steps) && i < j < |steps| && Grants(states[i], steps[i], token)
    ensures !Grants(states[j], steps[j], token)
  {
    RunKeepsInv(states, steps, i);
    RunKeepsInv(states, steps, j);
    assert Can(states[i], steps[i]) && states[i + 1] == Do(states[i], steps[i]);
    GrantSpends(states[i], steps[i], token);
    SpentForever(states, steps, i + 1, j, token);
  }

  // ---------------------------------------------------------------- how a transaction began

  /** Step i selected a token that was there and had not expired. */
  predicate SelectsLive(states: seq<State>, steps: seq<Step>, i: nat, a: nat, token: string) {
    && i < |steps| < |states| && steps[i].Select? && steps[i].actor == a && steps[i].token == token
    && token in states[i].rows && steps[i].now < states[i].rows[token].expiresAt
  }

  /**
    Step i began actor a's transaction: a rotation by selecting a live token not yet rotated, an
    answer to a replay by selecting a live one that was, a revocation by its own DELETE.
   */
  ghost predicate Begun(states: seq<State>, steps: seq<Step>, i: nat, a: nat, tx: Tx) {
    i < |steps| < |states| &&
    match tx {
      case Rotating(token, raw, expiresAt) =>
        && SelectsLive(states, steps, i, a, token) && !states[i].rows[token].consumed
        && raw == steps[i].raw && expiresAt == steps[i].now + steps[i].ttl
      case Reused(token, family) =>
        && SelectsLive(states, steps, i, a, token) && states[i].rows[token].consumed
        && family == states[i].rows[token].family
      case Deleting(Some(token), scope, _) =>
        && SelectsLive(states, steps, i, a, token) && states[i].rows[token].consumed
        && scope == Family(states[i].rows[token].family)
      case Deleting(None, scope, _) => scope.Tenant? && steps[i] == Step.RevokeAll(a, scope.tenant)
    }
  }

  /** Over every run, every transaction that is open began in one of these ways. */
  lemma {:induction false} EveryTxWasBegun(states: seq<State>, steps: seq<Step>, n: nat, a: nat) returns (i: nat)
    requires IsRun(states, steps) && n < |states| && a in states[n].txs
    ensures i < n && Begun(states, steps, i, a, states[n].txs[a])
    decreases n
  {
    assert n > 0;
    var s, step := states[n - 1], steps[n - 1];
    assert Can(s, step) && states[n] == Do(s, step);
    if step.Insert? || step.Revoke? || step.actor != a {
      assert a in s.txs && s.txs[a] == states[n].txs[a];
      i := EveryTxWasBegun(states, steps, n - 1, a);
    } else if step.Snapshot? {
      i := EveryTxWasBegun(states, steps, n - 1, a);
    } else {
      i := n - 1;
    }
  }

  /**
    A rotation that is answered presented a live token not yet rotated; it leaves the token spent
    beside a successor in the same family and tenant, expiring one lifetime after the request.
   */
  lemma GrantSucceeds(states: seq<State>, steps: seq<Step>, j: nat, token: string) returns (i: nat)
    requires IsRun(states, steps) && j < |steps| && Grants(states[j], steps[j], token)
    ensures i < j && SelectsLive(states, steps, i, steps[j].actor, token) && !states[i].rows[token].consumed
    ensures token in states[j].rows
    ensures var row := states[j].rows[token];
            states[j + 1].rows
            == states[j].rows[token := row.(consumed := true)]
                 [steps[i].raw := Row(row.tenant, row.family, steps[i].now + steps[i].ttl, false)]
  {
    var a := steps[j].actor;
    i := EveryTxWasBegun(states, steps, j, a);
    RunKeepsInv(states, steps, j);
    assert Can(states[j], steps[j]) && states[j + 1] == Do(states[j], steps[j]) && TxOk(states[j], a);
  }

  // ---------------------------------------------------------------- what a revocation leaves

  /** A DELETE leaves no row of its scope exactly when its snapshot saw every row that is there when it commits. */
  lemma DeleteEmptiesIff(s: State, a: nat)
    requires Can(s, Delete(a))
    ensures Covered(Do(s, Delete(a)).rows, s.txs[a].scope) == {} <==> Covered(s.rows, s.txs[a].scope) <= s.txs[a].seen
  {
    var all, seen := Covered(s.rows, s.txs[a].scope), s.txs[a].seen;
    var left := Covered(Do(s, Delete(a)).rows, s.txs[a].scope);
    assert left == all - seen;
    if left == {} {
      forall t | t in all ensures t in seen { assert t !in left; }
    } else {
      var t :| t in left;
      assert t in all && t !in seen;
    }
  }

  /** The step commits a rotation inside the family. */
  predicate Extends(s: State, step: Step, family: string) {
    && step.Commit? && step.actor in s.txs && s.txs[step.actor].Rotating?
    && s.txs[step.actor].token in s.rows && s.rows[s.txs[step.actor].token].family == family
  }

  /** Nothing else adds to a family that was issued. */
  lemma FamilyGrowsByRotation(s: State, step: Step, family: string)
    requires Inv(s) && Can(s, step) && family in s.families && !Extends(s, step, family)
    ensures family in Do(s, step).families
    ensures Covered(Do(s, step).rows, Family(family)) <= Covered(s.rows, Family(family))
  {
    if step.Commit? { assert TxOk(s, step.actor); }
  }

  lemma EmptyStays(s: State, step: Step, family: string)
    requires Inv(s) && Can(s, step) && family in s.families && Covered(s.rows, Family(family)) == {}
    ensures family in Do(s, step).families && Covered(Do(s, step).rows, Family(family)) == {}
  {
    assert forall t :: t in s.rows && s.rows[t].family == family ==> t in Covered(s.rows, Family(family));
    FamilyGrowsByRotation(s, step, family);
  }

  lemma {:induction false} EmptyForever(states: seq<State>, steps: seq<Step>, i: nat, j: nat, family: string)
    requires IsRun(states, steps) && i <= j < |states| && family in states[i].families
    requires Covered(states[i].rows, Family(family)) == {}
    ensures family in states[j].families && Covered(states[j].rows, Family(family)) == {}
  {
    if i < j {
      EmptyForever(states, steps, i, j - 1, family);
      RunKeepsInv(states, steps, j - 1);
      assert Can(states[j - 1], steps[j - 1]);
      EmptyStays(states[j - 1], steps[j - 1], family);
    }
  }

  /** The step answers a replay: the DELETE by family commits. */
  predicate Answers(s: State, step: Step, family: string) {
    step.Delete? && step.actor in s.txs && s.txs[step.actor].Deleting? && s.txs[step.actor].scope == Family(family)
  }

  /**
    Over every run: after the answer to a replay the family is gone for good exactly
    when the DELETE's snapshot saw every row the family has when it commits.
   */
  lemma ReuseKillsFamilyIff(states: seq<State>, steps: seq<Step>, j: nat, family: string)
    requires IsRun(states, steps) && j < |steps| && Answers(states[j], steps[j], family)
    ensures (forall n {:trigger states[n]} :: j < n < |states| ==> Covered(states[n].rows, Family(family)) == {}) <==>
            Covered(states[j].rows, Family(family)) <= states[j].txs[steps[j].actor].seen
  {
    var a := steps[j].actor;
    RunKeepsInv(states, steps, j);
    assert Can(states[j], steps[j]) && states[j + 1] == Do(states[j], steps[j]) && TxOk(states[j], a);
    DeleteEmptiesIff(states[j], a);
    if Covered(states[j].rows, Family(family)) <= states[j].txs[a].seen {
      forall n {:trigger states[n]} | j < n < |states|
        ensures Covered(states[n].rows, Family(family)) == {}
      {
        EmptyForever(states, steps, j + 1, n, family);
      }
    }
  }

  lemma TxWaits(s: State, step: Step, a: nat)
    requires Can(s, step) && a in s.txs && (step.Insert? || step.Revoke? || step.actor != a)
    ensures a in Do(s, step).txs && Do(s, step).txs[a] == s.txs[a]
  {}

  /** Between i and j actor a rests and no rotation inside the family commits. */
  ghost predicate Undisturbed(states: seq<State>, steps: seq<Step>, i: nat, j: nat, a: nat, family: string)
    requires j <= |steps| < |states|
  {
    forall n {:trigger steps[n]} :: i <= n < j ==>
      (steps[n].Insert? || steps[n].Revoke? || steps[n].actor != a) && !Extends(states[n], steps[n], family)
  }

  lemma {:induction false} SnapshotLasts(states: seq<State>, steps: seq<Step>, i: nat, j: nat, a: nat, family: string)
    requires IsRun(states, steps) && i <= j < |states| && Undisturbed(states, steps, i, j, a, family)
    requires a in states[i].txs && states[i].txs[a].Deleting? && family in states[i].families
    requires Covered(states[i].rows, Family(family)) <= states[i].txs[a].seen
    ensures a in states[j].txs && states[j].txs[a] == states[i].txs[a] && family in states[j].families
    ensures Covered(states[j].rows, Family(family)) <= states[j].txs[a].seen
  {
    if i < j {
      SnapshotLasts(states, steps, i, j - 1, a, family);
      RunKeepsInv(states, steps, j - 1);
      assert Can(states[j - 1], steps[j - 1]) && states[j] == Do(states[j - 1], steps[j - 1]);
      TxWaits(states[j - 1], steps[j - 1], a);
      FamilyGrowsByRotation(states[j - 1], steps[j - 1], family);
    }
  }

  /** So a replay kills the family when no rotation inside it commits between the snapshot and the DELETE's commit. */
  lemma UndisturbedReuseKillsFamily(states: seq<State>, steps: seq<Step>, i: nat, j: nat, n: nat, family: string)
    requires IsRun(states, steps) && i < j < n < |states| && steps[i].Snapshot? && steps[j] == Delete(steps[i].actor)
    requires steps[i].actor in states[i].txs && states[i].txs[steps[i].actor].Reused?
    requires states[i].txs[steps[i].actor].family == family
    requires Undisturbed(states, steps, i + 1, j, steps[i].actor, family)
    ensures Covered(states[n].rows, Family(family)) == {}
  {
    var a := steps[i].actor;
    assert Can(states[i], steps[i]) && states[i + 1] == Do(states[i], steps[i]);
    RunKeepsInv(states, steps, i);
    assert TxOk(states[i], a);
    SnapshotLasts(states, steps, i + 1, j, a, family);
    ReuseKillsFamilyIff(states, steps, j, family);
    var shown := states[n];
  }

  // ---------------------------------------------------------------- a token is gone

  ghost predicate Gone(s: State, token: string) {
    && token in s.minted && token !in s.rows
    && forall a :: a in s.txs && s.txs[a].Rotating? ==> s.txs[a].raw != token
  }

  lemma GoneStays(s: State, step: Step, token: string)
    requires Inv(s) && Can(s, step) && Gone(s, token)
    ensures Gone(Do(s, step), token)
  {
    if step.Commit? { assert TxOk(s, step.actor); }
  }

  lemma {:induction false} GoneForever(states: seq<State>, steps: seq<Step>, i: nat, j: nat, token: string)
    requires IsRun(states, steps) && i <= j < |states| && Gone(states[i], token)
    ensures Gone(states[j], token)
  {
    if i < j {
      GoneForever(states, steps, i, j - 1, token);
      RunKeepsInv(states, steps, j - 1);
      assert Can(states[j - 1], steps[j - 1]);
      GoneStays(states[j - 1], steps[j - 1], token);
    }
  }

  lemma StoredIsNotPending(s: State, token: string)
    requires Inv(s) && token in s.rows
    ensures token in s.minted && forall a :: a in s.txs && s.txs[a].Rotating? ==> s.txs[a].raw != token
  {
    forall a | a in s.txs && s.txs[a].Rotating?
      ensures s.txs[a].raw != token
    {
      assert TxOk(s, a);
    }
  }

  /** A token that is revoked is gone for good. */
  lemma RevokedIsGone(states: seq<State>, steps: seq<Step>, i: nat, j: nat, token: string)
    requires IsRun(states, steps) && i < j < |states| && steps[i] == Step.Revoke(token) && token in states[i].rows
    ensures Gone(states[j], token)
  {
    RunKeepsInv(states, steps, i);
    StoredIsNotPending(states[i], token);
    assert Can(states[i], steps[i]) && states[i + 1] == Do(states[i], steps[i]);
    GoneForever(states, steps, i + 1, j, token);
  }

  /** The token is gone, or still in the tenant's hands. */
  ghost predicate OfTenantOrGone(s: State, token: string, tenant: string) {
    Gone(s, token) || (token in s.rows && s.rows[token].tenant == tenant)
  }

  lemma OfTenantStays(s: State, step: Step, token: string, tenant: string)
    requires Inv(s) && Can(s, step) && OfTenantOrGone(s, token, tenant)
    ensures OfTenantOrGone(Do(s, step), token, tenant)
  {
    if Gone(s, token) {
      GoneStays(s, step, token);
    } else {
      StoredIsNotPending(s, token);
      if step.Commit? { assert TxOk(s, step.actor); }
    }
  }

  lemma {:induction false} OfTenantLasts(states: seq<State>, steps: seq<Step>, i: nat, j: nat, a: nat, token: string,
                                         tenant: string)
    requires IsRun(states, steps) && i <= j < |states| && OfTenantOrGone(states[i], token, tenant)
    requires a in states[i].txs
    requires forall n {:trigger steps[n]} :: i <= n < j ==>
      steps[n].Insert? || steps[n].Revoke? || steps[n].actor != a
    ensures OfTenantOrGone(states[j], token, tenant)
    ensures a in states[j].txs && states[j].txs[a] == states[i].txs[a]
  {
    if i < j {
      OfTenantLasts(states, steps, i, j - 1, a, token, tenant);
      RunKeepsInv(states, steps, j - 1);
      assert Can(states[j - 1], steps[j - 1]) && states[j] == Do(states[j - 1], steps[j - 1]);
      TxWaits(states[j - 1], steps[j - 1], a);
      OfTenantStays(states[j - 1], steps[j - 1], token, tenant);
    }
  }

  /** Once a tenant's revocation is answered, every token the tenant had when it began is gone for good. */
  lemma TenantRevocationTakes(states: seq<State>, steps: seq<Step>, i: nat, j: nat, n: nat, a: nat, tenant: string,
                              token: string)
    requires IsRun(states, steps) && i < j < n < |states| && steps[i] == Step.RevokeAll(a, tenant)
    requires steps[j] == Delete(a)
    requires forall m {:trigger steps[m]} :: i < m < j ==> steps[m].Insert? || steps[m].Revoke? || steps[m].actor != a
    requires token in states[i].rows && states[i].rows[token].tenant == tenant
    ensures Gone(states[n], token)
  {
    assert Can(states[i], steps[i]) && states[i + 1] == Do(states[i], steps[i]);
    OfTenantLasts(states, steps, i + 1, j, a, token, tenant);
    RunKeepsInv(states, steps, j);
    assert Can(states[j], steps[j]) && states[j + 1] == Do(states[j], steps[j]);
    if token in states[j].rows { StoredIsNotPending(states[j], token); }
    GoneForever(states, steps, j + 1, n, token);
  }

  /** A DELETE takes no row but those its snapshot saw in its scope. */
  lemma DeleteSpares(s: State, a: nat, token: string)
    requires Can(s, Delete(a)) && token in s.rows
    requires token !in s.txs[a].seen ||
             match s.txs[a].scope
             case Family(f) => s.rows[token].family != f
             case Tenant(t) => s.rows[token].tenant != t
    ensures token in Do(s, Delete(a)).rows && Do(s, Delete(a)).rows[token] == s.rows[token]
  {}

  // ---------------------------------------------------------------- a sibling escapes

  /** A run and where it has come to. */
  datatype Trace = Trace(states: seq<State>, steps: seq<Step>)

  ghost predicate Reaches(r: Trace, s: State) { IsRun(r.states, r.steps) && r.states[|r.steps|] == s }

  lemma Extend(r: Trace, s: State, step: Step, t: State) returns (r': Trace)
    requires Reaches(r, s) && Can(s, step) && Do(s, step) == t
    ensures Reaches(r', t) && r' == Trace(r.states + [t], r.steps + [step])
  {
    r' := Trace(r.states + [t], r.steps + [step]);
    forall i {:trigger r'.steps[i]} | 0 <= i < |r'.steps|
      ensures Can(r'.states[i], r'.steps[i]) && r'.states[i + 1] == Do(r'.states[i], r'.steps[i])
    {
      if i < |r.steps| { assert r'.steps[i] == r.steps[i]; }
    }
  }

  function Token(consumed: bool): Row { Row("t", "f", 100, consumed) }

  /** Token A is issued and rotated to B. */
  lemma RotateA() returns (r: Trace, s: State)
    ensures Reaches(r, s) && |r.steps| == 3 && s.minted == {"A", "B"}
    ensures s.rows == map["A" := Token(true), "B" := Token(false)] && s.txs == map[]
  {
    var s1 := State(map["A" := Token(false)], map[], {"A"}, {"f"});
    r := Extend(Trace([Init], []), Init, Insert("t", "f", "A", 100), s1);
    var s2 := State(map["A" := Token(false)], map[0 := Rotating("A", "B", 100)], {"A", "B"}, {"f"});
    r := Extend(r, s1, Select(0, "A", "B", 0, 100), s2);
    s := State(map["A" := Token(true), "B" := Token(false)], map[], {"A", "B"}, {"f"});
    r := Extend(r, s2, Commit(0), s);
  }

  /** A is presented again while B is being rotated to C; the DELETE takes its snapshot. */
  lemma ReplayA() returns (r: Trace, s: State)
    ensures Reaches(r, s) && |r.steps| == 6 && s.minted == {"A", "B", "C"}
    ensures s.rows == map["A" := Token(true), "B" := Token(false)]
    ensures s.txs == map[1 := Deleting(Some("A"), Family("f"), {"A", "B"}), 2 := Rotating("B", "C", 100)]
  {
    var s3, s4, s5;
    r, s3 := RotateA();
    s4 := s3.(txs := map[1 := Reused("A", "f")]);
    r := Extend(r, s3, Select(1, "A", "X", 0, 100), s4);
    s5 := s4.(txs := map[1 := Reused("A", "f"), 2 := Rotating("B", "C", 100)], minted := {"A", "B", "C"});
    r := Extend(r, s4, Select(2, "B", "C", 0, 100), s5);
    assert Covered(s5.rows, Family("f")) == {"A", "B"};
    s := s5.(txs := map[1 := Deleting(Some("A"), Family("f"), {"A", "B"}), 2 := Rotating("B", "C", 100)]);
    r := Extend(r, s5, Snapshot(1), s);
  }

  /** The rotation commits; then the DELETE, which had to wait for it, does. */
  lemma AnswerReplay() returns (r: Trace, s: State)
    ensures Reaches(r, s) && |r.steps| == 8 && r.steps[7] == Delete(1) && Answers(r.states[7], r.steps[7], "f")
    ensures !Can(r.states[6], r.steps[7])
    ensures s.rows == map["C" := Token(false)] && s.txs == map[] && s.minted == {"A", "B", "C"}
  {
    var s6, s7;
    r, s6 := ReplayA();
    assert 2 in s6.txs && !Unlocked(s6, 1, "B");
    s7 := s6.(rows := map["A" := Token(true), "B" := Token(true), "C" := Token(false)],
              txs := map[1 := Deleting(Some("A"), Family("f"), {"A", "B"})]);
    r := Extend(r, s6, Commit(2), s7);
    s := s7.(rows := map["C" := Token(false)], txs := map[]);
    r := Extend(r, s7, Delete(1), s);
  }

  /**
    A family that outlives its revocation: token A has been rotated to B and is
    presented again while B is being rotated to C.  The DELETE waits for B's lock,
    removes A and B, and answers Reuse; C, which its snapshot did not see, is then
    rotated.
   */
  lemma SiblingEscapes() returns (states: seq<State>, steps: seq<Step>)
    ensures IsRun(states, steps) && |steps| == 10
    ensures Answers(states[7], steps[7], "f") && !Can(states[6], steps[7])
    ensures Covered(states[8].rows, Family("f")) == {"C"} && Grants(states[9], steps[9], "C")
  {
    var r, s8 := AnswerReplay();
    var s9 := s8.(txs := map[0 := Rotating("C", "D", 100)], minted := s8.minted + {"D"});
    r := Extend(r, s8, Select(0, "C", "D", 0, 100), s9);
    r := Extend(r, s9, Commit(0), Do(s9, Commit(0)));
    states, steps := r.states, r.steps;
  }
}
