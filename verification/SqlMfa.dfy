/**
  The SQLite and Postgres MFA stores: credentials and recovery codes in two
  tables, every operation one transaction.  They refine the memory store.
  Secrets are sealed before they are stored; sealing is taken as invisible.
 */
module SqlMfa {
  import opened Mfa

  datatype Cred = Cred(secret: string, active: bool, lastStep: int)

  datatype Tables = Tables(creds: map<string, Cred>, codes: set<(string, string)>)

  function DropCodes(codes: set<(string, string)>, tenant: string): set<(string, string)> {
    set c | c in codes && c.0 != tenant
  }

  /** The tables stand for the records; a pending enrolment has no codes, and no code is the empty string. */
  ghost predicate Refines(t: Tables, rec: Records) {
    && t.creds.Keys == rec.Keys
    && (forall tenant :: tenant in rec ==> t.creds[tenant] == Cred(rec[tenant].secret, rec[tenant].active,
      rec[tenant].lastStep))
    && (forall tenant, h :: (tenant, h) in t.codes <==> tenant in rec && h in rec[tenant].recovery)
    && (forall tenant :: tenant in rec && !rec[tenant].active ==> rec[tenant].recovery == {})
    && (forall tenant :: tenant in rec ==> "" !in rec[tenant].recovery)
  }

  predicate Distinct(hs: seq<string>) {
    forall i, j :: 0 <= i < j < |hs| ==> hs[i] != hs[j]
  }

  datatype SqlReply = Answer(reply: Reply) | DatabaseError

  /**
    One operation; `faulty` says that one of its statements or its commit
    fails, which rolls everything back.
   */
  function SqlApply(t: Tables, op: Op, faulty: bool): (Tables, SqlReply) {
    match op
    case Begin(tenant, secret) =>
      if tenant == "" || secret == "" then (t, Answer(BadArgument))
      else if faulty then (t, DatabaseError)
      else if tenant in t.creds && t.creds[tenant].active then (t, Answer(AlreadyActive))
      else (Tables(t.creds[tenant := Cred(secret, false, 0)], DropCodes(t.codes, tenant)), Answer(Yes))
    case Activate(tenant, secret, step, hashes) =>
      if faulty then (t, DatabaseError)
      else if tenant !in t.creds || t.creds[tenant].active ||
        t.creds[tenant].secret != secret then (t, Answer(NotEnrolled))
      else if !Distinct(hashes) then (t, DatabaseError) // primary key (tenant_id, code_hash)
      else (Tables(t.creds[tenant := Cred(secret, true, step)],
                   DropCodes(t.codes, tenant) + (set h | h in hashes :: (tenant, h))), Answer(Yes))
    case Mark(tenant, step) =>
      if faulty then (t, DatabaseError)
      else if tenant in t.creds && t.creds[tenant].active && t.creds[tenant].lastStep < step
      then (t.(creds := t.creds[tenant := t.creds[tenant].(lastStep := step)]), Answer(Yes))
      else (t, Answer(No))
    case Consume(tenant, hash) =>
      if hash == "" then (t, Answer(No))
      else if faulty then (t, DatabaseError)
      else if (tenant, hash) in t.codes && tenant in t.creds && t.creds[tenant].active
      then (t.(codes := t.codes - {(tenant, hash)}), Answer(Yes))
      else (t, Answer(No))
    case Disable(tenant) =>
      if faulty then (t, DatabaseError) else (Tables(t.creds - {tenant}, DropCodes(t.codes, tenant)), Answer(Yes))
    case DisablePending(tenant) =>
      if faulty then (t, DatabaseError)
      else if tenant in t.creds && !t.creds[tenant].active
      then (Tables(t.creds - {tenant}, DropCodes(t.codes, tenant)), Answer(Yes))
      else (t, Answer(No))
  }

  class SqlMFAStore {
    var creds: map<string, Cred>
    var codes: set<(string, string)>

    function Model(): Tables
      reads this
    {
      Tables(creds, codes)
    }

    constructor ()
      ensures Model() == Tables(map[], {})
    {
      creds, codes := map[], {};
    }

    method BeginEnrollment(tenant: string, secret: string, faulty: bool) returns (reply: SqlReply)
      modifies this
      ensures (Model(), reply) == SqlApply(old(Model()), Begin(tenant, secret), faulty)
    {
      if tenant == "" || secret == "" {
        return Answer(BadArgument);
      }
      if faulty {
        return DatabaseError;
      }
      if tenant in creds && creds[tenant].active {
        return Answer(AlreadyActive);
      }
      creds := creds[tenant := Cred(secret, false, 0)];
      codes := DropCodes(codes, tenant);
      return Answer(Yes);
    }

    method ActivateMFA(tenant: string, secret: string, step: int, hashes: seq<string>,
        faulty: bool) returns (reply: SqlReply)
      modifies this
      ensures (Model(), reply) == SqlApply(old(Model()), Activate(tenant, secret, step, hashes), faulty)
    {
      if faulty {
        return DatabaseError;
      }
      if tenant !in creds || creds[tenant].active {
        return Answer(NotEnrolled);
      }
      if creds[tenant].secret != secret {
        return Answer(NotEnrolled);
      }
      // The transaction: nothing is visible until both tables are assigned.
      var newCodes := DropCodes(codes, tenant);
      for i := 0 to |hashes|
        invariant Distinct(hashes[..i])
        invariant newCodes == DropCodes(codes, tenant) + set h | h in hashes[..i] :: (tenant, h)
      {
        if (tenant, hashes[i]) in newCodes {
          assert hashes[i] in hashes[..i];
          return DatabaseError;
        }
        assert hashes[..i + 1] == hashes[..i] + [hashes[i]];
        newCodes := newCodes + {(tenant, hashes[i])};
      }
      assert hashes[..|hashes|] == hashes;
      creds, codes := creds[tenant := Cred(secret, true, step)], newCodes;
      return Answer(Yes);
    }

    method MarkTOTPStep(tenant: string, step: int, faulty: bool) returns (reply: SqlReply)
      modifies this
      ensures (Model(), reply) == SqlApply(old(Model()), Mark(tenant, step), faulty)
    {
      if faulty {
        return DatabaseError;
      }
      var affected := 0;
      if tenant in creds && creds[tenant].active && creds[tenant].lastStep < step {
        creds := creds[tenant := creds[tenant].(lastStep := step)];
        affected := 1;
      }
      return Answer(if affected == 1 then Yes else No);
    }

    method ConsumeRecoveryCode(tenant: string, hash: string, faulty: bool) returns (reply: SqlReply)
      modifies this
      ensures (Model(), reply) == SqlApply(old(Model()), Consume(tenant, hash), faulty)
    {
      if hash == "" {
        return Answer(No);
      }
      if faulty {
        return DatabaseError;
      }
      var affected := 0;
      if (tenant, hash) in codes && tenant in creds && creds[tenant].active {
        codes := codes - {(tenant, hash)};
        affected := 1;
      }
      return Answer(if affected == 1 then Yes else No);
    }

    method DisableMFA(tenant: string, faulty: bool) returns (reply: SqlReply)
      modifies this
      ensures (Model(), reply) == SqlApply(old(Model()), Disable(tenant), faulty)
    {
      if faulty {
        return DatabaseError;
      }
      codes := DropCodes(codes, tenant);
      creds := creds - {tenant};
      return Answer(Yes);
    }

    method DisablePendingMFA(tenant: string, faulty: bool) returns (reply: SqlReply)
      modifies this
      ensures (Model(), reply) == SqlApply(old(Model()), DisablePending(tenant), faulty)
    {
      if faulty {
        return DatabaseError;
      }
      if tenant !in creds || creds[tenant].active {
        return Answer(No);
      }
      creds := creds - {tenant};
      codes := DropCodes(codes, tenant);
      return Answer(Yes);
    }
  }

  // ---------------------------------------------------------------- refinement

  /** The hashes a caller may hand to Activate: distinct, and none empty (they are SHA-256 digests). */
  predicate GoodHashes(op: Op) {
    op.Activate? ==> Distinct(op.hashes) && "" !in op.hashes
  }

  ghost predicate Agree(t: Tables, rec: Records, op: Op, faulty: bool) {
    var (t', reply) := SqlApply(t, op, faulty);
    if reply.DatabaseError? then t' == t
    else reply.reply == Apply(rec, op).1 && Refines(t', Apply(rec, op).0)
  }

  lemma EnrolRefines(t: Tables, rec: Records, op: Op, faulty: bool)
    requires Refines(t, rec) && (op.Begin? || op.Disable? || op.DisablePending?)
    ensures Agree(t, rec, op, faulty)
  {
  }

  lemma ActivateRefines(t: Tables, rec: Records, op: Op, faulty: bool)
    requires Refines(t, rec) && op.Activate? && GoodHashes(op)
    ensures Agree(t, rec, op, faulty)
  {
    assert forall h :: h in Hashes(op.hashes) <==> h in op.hashes;
  }

  lemma UseRefines(t: Tables, rec: Records, op: Op, faulty: bool)
    requires Refines(t, rec) && (op.Mark? || op.Consume?)
    ensures Agree(t, rec, op, faulty)
  {
  }

  /** Every answer the SQL store gives is the memory store's answer; a database error changes nothing. */
  lemma StepRefines(t: Tables, rec: Records, op: Op, faulty: bool)
    requires Refines(t, rec) && GoodHashes(op)
    ensures Agree(t, rec, op, faulty)
  {
    if op.Activate? { ActivateRefines(t, rec, op, faulty); }
    else if op.Mark? || op.Consume? { UseRefines(t, rec, op, faulty); }
    else { EnrolRefines(t, rec, op, faulty); }
  }

  /** Activation of a verified pending enrolment agrees with the memory store exactly when the hashes are distinct. */
  lemma ActivateAgreesIff(t: Tables, rec: Records, op: Op)
    requires Refines(t, rec) && op.Activate? && IsPending(rec, op.tenant) && rec[op.tenant].secret == op.secret
    ensures SqlApply(t, op, false).1 == Answer(Apply(rec, op).1) <==>
            !exists i, j :: 0 <= i < j < |op.hashes| && op.hashes[i] == op.hashes[j]
  {
  }

  /**
    An operation fails exactly when a statement of it does, or a verified activation brings one hash twice; a
    call without a tenant, a secret or a code, where it needs one, does not reach the database.
   */
  lemma FailsIff(t: Tables, op: Op, faulty: bool)
    ensures SqlApply(t, op, faulty).1 == DatabaseError <==>
            if faulty then !(op.Begin? && (op.tenant == "" || op.secret == "")) && !(op.Consume? && op.hash == "")
            else
              && op.Activate? && op.tenant in t.creds && !t.creds[op.tenant].active
              && t.creds[op.tenant].secret == op.secret
              && exists i, j :: 0 <= i < j < |op.hashes| && op.hashes[i] == op.hashes[j]
  {}

  datatype Event = Event(op: Op, faulty: bool)

  /** The tables and a memory store fed the same calls, except those that broke. */
  function Exec(run: seq<Event>, n: nat): (Tables, Records)
    requires n <= |run|
  {
    if n == 0 then (Tables(map[], {}), map[])
    else
      var (t, rec) := Exec(run, n - 1);
      var (t', reply) := SqlApply(t, run[n - 1].op, run[n - 1].faulty);
      (t', if reply.DatabaseError? then rec else Apply(rec, run[n - 1].op).0)
  }

  lemma {:induction false} SqlRefinesMemory(run: seq<Event>, n: nat)
    requires n < |run| && forall i :: 0 <= i < |run| ==> GoodHashes(run[i].op)
    ensures var (t, rec) := Exec(run, n);
            var reply := SqlApply(t, run[n].op, run[n].faulty).1;
            reply.Answer? ==> reply.reply == Apply(rec, run[n].op).1
    ensures Refines(Exec(run, n + 1).0, Exec(run, n + 1).1)
  {
    if n > 0 { SqlRefinesMemory(run, n - 1); }
    var (t, rec) := Exec(run, n);
    StepRefines(t, rec, run[n].op, run[n].faulty);
  }
}
