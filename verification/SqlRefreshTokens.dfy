/**
  The Postgres and SQLite refresh-token stores: the same statements inside a
  transaction, any of which may fail.  They give the same answers as the
  memory store.
 */
module SqlRefreshTokens {
  import opened Wrappers
  import opened RefreshTokens

  /** Which database call of an operation fails, if any. */
  datatype Faults = Faults(begin: bool, select: bool, delete: bool, update: bool, insert: bool, commit: bool)

  datatype SqlReply = Answer(reply: Reply) | DatabaseError

  class SqlRefreshTokenStore {
    var table: Rows
    const ttl: int

    constructor (ttl: int)
      ensures table == map[] && this.ttl == ttl
    {
      table := map[];
      this.ttl := ttl;
    }

    method IssueToken(tenant: string, family: Option<string>, raw: Option<string>, now: int,
        f: Faults) returns (reply: SqlReply)
      modifies this
      ensures (table, reply) == SqlApply(old(table), Issue(tenant, family, raw), now, ttl, f)
    {
      if tenant == "" || family.None? || raw.None? {
        return Answer(Error);
      }
      var expiresAt := now + ttl;
      if f.insert {
        return DatabaseError;
      }
      table := table[raw.value := Row(tenant, family.value, expiresAt, false)];
      return Answer(Granted(raw.value, tenant, expiresAt));
    }

    /** Works on a transaction; leaving without commit rolls back. */
    method RotateToken(token: string, raw: Option<string>, now: int, f: Faults) returns (reply: SqlReply)
      modifies this
      ensures (table, reply) == SqlApply(old(table), Rotate(token, raw), now, ttl, f)
    {
      if token == "" {
        return Answer(Invalid);
      }
      if f.begin {
        return DatabaseError;
      }
      var tx := table;
      if f.select {
        return DatabaseError;
      }
      if token !in tx {
        return Answer(Invalid);
      }
      var row := tx[token];
      if now >= row.expiresAt {
        if !f.delete {
          tx := tx - {token};
          if !f.commit {
            table := tx;
          }
        }
        return Answer(Invalid);
      }
      if row.consumed {
        if f.delete {
          return DatabaseError;
        }
        tx := map t | t in tx && tx[t].family != row.family :: tx[t];
        if f.commit {
          return DatabaseError;
        }
        table := tx;
        return Answer(Reuse);
      }
      if f.update {
        return DatabaseError;
      }
      tx := tx[token := row.(consumed := true)];
      if raw.None? {
        return Answer(Error);
      }
      var expiresAt := now + ttl;
      if f.insert {
        return DatabaseError;
      }
      tx := tx[raw.value := Row(row.tenant, row.family, expiresAt, false)];
      if f.commit {
        return DatabaseError;
      }
      table := tx;
      return Answer(Granted(raw.value, row.tenant, expiresAt));
    }

    method RevokeToken(token: string, f: Faults) returns (reply: SqlReply)
      modifies this
      ensures (table, reply) == SqlApply(old(table), Revoke(token), 0, ttl, f)
    {
      if token == "" {
        return Answer(Done);
      }
      if f.delete {
        return DatabaseError;
      }
      table := table - {token};
      return Answer(Done);
    }

    method RevokeAllForTenant(tenant: string, f: Faults) returns (reply: SqlReply)
      modifies this
      ensures (table, reply) == SqlApply(old(table), RevokeAll(tenant), 0, ttl, f)
    {
      if tenant == "" {
        return Answer(Done);
      }
      if f.delete {
        return DatabaseError;
      }
      table := map t | t in table && table[t].tenant != tenant :: table[t];
      return Answer(Done);
    }
  }

  /** Whether the faults make the operation report a database error. */
  predicate Breaks(t: Rows, op: Op, now: int, f: Faults) {
    match op
    case Issue(tenant, family, raw) => tenant != "" && family.Some? && raw.Some? && f.insert
    case Rotate(token, raw) =>
      token != "" && (f.begin || f.select || (
        token in t && now < t[token].expiresAt &&
        if t[token].consumed then f.delete || f.commit
        else f.update || (raw.Some? && (f.insert || f.commit))))
    case Revoke(token) => token != "" && f.delete
    case RevokeAll(tenant) => tenant != "" && f.delete
  }

  /**
    An operation either breaks, leaving the table alone, or does what the
    memory store does; only the removal of an expired row may be skipped.
   */
  function SqlApply(t: Rows, op: Op, now: int, ttl: int, f: Faults): (Rows, SqlReply) {
    if Breaks(t, op, now, f) then (t, DatabaseError)
    else if op.Rotate? && op.token in t && now >= t[op.token].expiresAt &&
      (f.delete || f.commit) then (t, Answer(Invalid))
    else
      var (t', reply) := Apply(t, op, now, ttl);
      (t', Answer(reply))
  }

  // ---------------------------------------------------------------- which faults are felt

  datatype Statement = BeginTx | SelectRow | DeleteRows | UpdateRow | InsertRow | CommitTx

  predicate Hit(f: Faults, s: Statement) {
    match s
    case BeginTx => f.begin
    case SelectRow => f.select
    case DeleteRows => f.delete
    case UpdateRow => f.update
    case InsertRow => f.insert
    case CommitTx => f.commit
  }

  /**
    The statements whose failure an operation reports, given the row it finds.  The failed
    removal of an expired row is not reported.
   */
  function Reported(row: Option<Row>, op: Op, now: int): set<Statement> {
    match op
    case Issue(tenant, family, raw) => if tenant == "" || family.None? || raw.None? then {} else {InsertRow}
    case Rotate(token, raw) =>
      if token == "" then {}
      else if row.None? || row.value.expiresAt <= now then {BeginTx, SelectRow}
      else if row.value.consumed then {BeginTx, SelectRow, DeleteRows, CommitTx}
      else if raw.None? then {BeginTx, SelectRow, UpdateRow}
      else {BeginTx, SelectRow, UpdateRow, InsertRow, CommitTx}
    case Revoke(token) => if token == "" then {} else {DeleteRows}
    case RevokeAll(tenant) => if tenant == "" then {} else {DeleteRows}
  }

  /**
    An operation fails exactly when one of those statements does, so never without a fault.  A presented token
    that has expired is refused, and removed unless the removal fails.
   */
  lemma FailsIff(t: Rows, op: Op, now: int, ttl: int, f: Faults)
    ensures var row := if op.Rotate? && op.token in t then Some(t[op.token]) else None;
            SqlApply(t, op, now, ttl, f).1 == DatabaseError <==> exists s :: s in Reported(row, op, now) && Hit(f, s)
    ensures && op.Rotate? && op.token != "" && op.token in t && t[op.token].expiresAt <= now && !f.begin && !f.select
            ==> SqlApply(t, op, now, ttl, f) == (if f.delete || f.commit then t else t - {op.token}, Answer(Invalid))
  {
    assert Hit(f, BeginTx) == f.begin && Hit(f, SelectRow) == f.select && Hit(f, DeleteRows) == f.delete;
    assert Hit(f, UpdateRow) == f.update && Hit(f, InsertRow) == f.insert && Hit(f, CommitTx) == f.commit;
  }

  // ---------------------------------------------------------------- same answers

  /** The table holds the memory store's rows, plus rows that have expired. */
  ghost predicate Matches(t: Rows, rows: Rows, now: int) {
    && (forall k :: k in rows ==> k in t && t[k] == rows[k])
    && (forall k :: k in t && k !in rows ==> t[k].expiresAt <= now)
  }

  lemma SameAnswer(t: Rows, rows: Rows, before: int, op: Op, now: int, ttl: int, f: Faults)
    requires Matches(t, rows, before) && before <= now
    requires (op.Issue? || op.Rotate?) && op.raw.Some? ==> op.raw.value !in t
    ensures var (t', reply) := SqlApply(t, op, now, ttl, f);
            if reply.DatabaseError? then t' == t && Matches(t', rows, now)
            else reply.reply == Apply(rows, op, now, ttl).1 && Matches(t', Apply(rows, op, now, ttl).0, now)
  {
  }
  datatype Event = Event(op: Op, now: int, faults: Faults)

  /** A table and a memory store fed the same calls, except that the memory store never sees the broken ones. */
  function Exec(run: seq<Event>, ttl: int, n: nat): (Rows, Rows)
    requires n <= |run|
  {
    if n == 0 then (map[], map[])
    else
      var (t, rows) := Exec(run, ttl, n - 1);
      var e := run[n - 1];
      var (t', reply) := SqlApply(t, e.op, e.now, ttl, e.faults);
      (t', if reply.DatabaseError? then rows else Apply(rows, e.op, e.now, ttl).0)
  }

  ghost predicate FreshTokens(run: seq<Event>, ttl: int) {
    forall i :: 0 <= i < |run| && (run[i].op.Issue? || run[i].op.Rotate?) && run[i].op.raw.Some? ==>
      run[i].op.raw.value !in Exec(run, ttl, i).0
  }

  predicate Clocked(run: seq<Event>) {
    forall i, j :: 0 <= i <= j < |run| ==> run[i].now <= run[j].now
  }

  /** Over any run with any failing statements, every answer the SQL store gives is the memory store's answer. */
  lemma {:induction false} SqlAnswersAsMemory(run: seq<Event>, ttl: int, n: nat)
    requires Clocked(run) && FreshTokens(run, ttl) && n < |run|
    ensures var (t, rows) := Exec(run, ttl, n);
            var reply := SqlApply(t, run[n].op, run[n].now, ttl, run[n].faults).1;
            reply.Answer? ==> reply.reply == Apply(rows, run[n].op, run[n].now, ttl).1
    ensures Matches(Exec(run, ttl, n + 1).0, Exec(run, ttl, n + 1).1, run[n].now)
  {
    var before := if n == 0 then run[0].now else run[n - 1].now;
    if n > 0 { SqlAnswersAsMemory(run, ttl, n - 1); }
    var (t, rows) := Exec(run, ttl, n);
    SameAnswer(t, rows, before, run[n].op, run[n].now, ttl, run[n].faults);
  }
}
