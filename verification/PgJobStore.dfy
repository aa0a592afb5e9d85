/**
  The Postgres job store as conditional updates on one table, and the proof
  that it cannot be told apart from the in-memory store.
 */
module PgJobStore {
  import opened Wrappers
  import opened JobStore
  import JobLeases

  /** A row of migration_jobs; None is NULL. */
  datatype Row = Row(
    tenant: string, bucket: string, sourceBackend: string, cell: string, destBackend: string, bytesPerSecond: int,
    state: JobState, claimedBy: Option<string>, claimedUntil: Option<int>, startedAt: Option<int>,
    completedAt: Option<int>, error: Option<string>, bytesCopied: int, piecesCopied: int)

  type Table = map<string, Row>

  function OrZero(t: Option<int>): int { if t.Some? then t.value else 0 }

  function OrEmpty(t: Option<string>): string { if t.Some? then t.value else "" }

  /** scanJobRow: the job a row is read back as. */
  function ScanRow(id: string, r: Row): Job {
    Job(id, r.tenant, r.bucket, r.sourceBackend, r.cell, r.destBackend, r.bytesPerSecond, r.state,
        OrZero(r.startedAt), OrZero(r.completedAt), OrEmpty(r.error), r.bytesCopied, r.piecesCopied)
  }

  function InsertedRow(job: Job): Row {
    Row(job.tenant, job.bucket, job.sourceBackend, job.cell, job.destBackend, job.bytesPerSecond,
        Pending, None, None, None, None, None, 0, 0)
  }

  /** The WHERE clause of AcquireJob; a comparison with NULL is not true. */
  predicate Claimable(r: Row, node: string, now: int) {
    Active(r.state) && (r.claimedBy.None? || (r.claimedUntil.Some? && r.claimedUntil.value <= now) ||
      r.claimedBy == Some(node))
  }

  function ClaimedRow(r: Row, node: string, ttl: int, now: int): Row {
    r.(claimedBy := Some(node), claimedUntil := Some(now + ttl), state := Running,
       startedAt := if r.startedAt.Some? then r.startedAt else Some(now))
  }

  function FinishedRow(r: Row, op: Op, now: int): Row
    requires op.Release?
  {
    r.(state := op.terminal, bytesCopied := op.bytes, piecesCopied := op.pieces, completedAt := Some(now),
       error := op.failure, claimedBy := None, claimedUntil := None)
  }

  /** One call: the conditional statement, then the existence check when no row was affected. */
  function PgApply(t: Table, op: Op, now: int): (Table, Reply) {
    match op
    case Put(job) =>
      if job.id == "" then (t, Rejected(BadArgument))
      else if job.id in t then (t, Rejected(DuplicateJob))
      else (t[job.id := InsertedRow(job)], Accepted)
    case Acquire(id, node, ttl) =>
      if id == "" || node == "" || ttl <= 0 then (t, Rejected(BadArgument))
      else if id in t && Claimable(t[id], node, now) then (t[id := ClaimedRow(t[id], node, ttl, now)], Accepted)
      else (t, if id in t then Refused else Rejected(JobNotFound))
    case Heartbeat(id, node, ttl) =>
      if ttl <= 0 then (t, Rejected(BadArgument))
      else if id in t && t[id].claimedBy == Some(node) then (t[id := t[id].(claimedUntil := Some(now + ttl))], Accepted)
      else (t, Rejected(if id in t then ClaimNotHeld else JobNotFound))
    case Release(id, node, terminal, _, _, _) =>
      if !Terminal(terminal) then (t, Rejected(BadArgument))
      else if id in t && t[id].claimedBy == Some(node) then (t[id := FinishedRow(t[id], op, now)], Accepted)
      else (t, Rejected(if id in t then ClaimNotHeld else JobNotFound))
  }

  class PgStore {
    var table: Table

    constructor ()
      ensures table == map[]
    {
      table := map[];
    }

    method GetJob(id: string) returns (job: Option<Job>)
      ensures job == if id in table then Some(ScanRow(id, table[id])) else None
    {
      if id in table {
        job := Some(ScanRow(id, table[id]));
      } else {
        job := None;
      }
    }

    method PutJob(job: Job) returns (reply: Reply)
      modifies this
      ensures (table, reply) == PgApply(old(table), Put(job), 0)
    {
      if job.id == "" {
        return Rejected(BadArgument);
      }
      var affected := 0;
      if job.id !in table { // ON CONFLICT (job_id) DO NOTHING
        table := table[job.id := InsertedRow(job)];
        affected := 1;
      }
      return if affected == 0 then Rejected(DuplicateJob) else Accepted;
    }

    method AcquireJob(id: string, node: string, ttl: int, now: int) returns (reply: Reply)
      modifies this
      ensures (table, reply) == PgApply(old(table), Acquire(id, node, ttl), now)
    {
      if id == "" || node == "" || ttl <= 0 {
        return Rejected(BadArgument);
      }
      var affected := 0;
      if id in table && Claimable(table[id], node, now) {
        table := table[id := ClaimedRow(table[id], node, ttl, now)];
        affected := 1;
      }
      if affected > 0 {
        return Accepted;
      }
      var job := GetJob(id);
      return if job.None? then Rejected(JobNotFound) else Refused;
    }

    method HeartbeatJob(id: string, node: string, ttl: int, now: int) returns (reply: Reply)
      modifies this
      ensures (table, reply) == PgApply(old(table), Heartbeat(id, node, ttl), now)
    {
      if ttl <= 0 {
        return Rejected(BadArgument);
      }
      var affected := 0;
      if id in table && table[id].claimedBy == Some(node) {
        table := table[id := table[id].(claimedUntil := Some(now + ttl))];
        affected := 1;
      }
      if affected > 0 {
        return Accepted;
      }
      var job := GetJob(id);
      return Rejected(if job.None? then JobNotFound else ClaimNotHeld);
    }

    method ReleaseJob(id: string, node: string, terminal: JobState, bytes: int, pieces: int, error: Option<string>,
        now: int)
      returns (reply: Reply)
      modifies this
      ensures (table, reply) == PgApply(old(table), Release(id, node, terminal, bytes, pieces, error), now)
    {
      if terminal != Done && terminal != Failed {
        return Rejected(BadArgument);
      }
      var affected := 0;
      if id in table && table[id].claimedBy == Some(node) {
        table := table[id := FinishedRow(table[id], Release(id, node, terminal, bytes, pieces, error), now)];
        affected := 1;
      }
      if affected > 0 {
        return Accepted;
      }
      var job := GetJob(id);
      return Rejected(if job.None? then JobNotFound else ClaimNotHeld);
    }
  }

  // ---------------------------------------------------------------- simulation

  /** A row and an entry that stand for the same job in the same state. */
  ghost predicate Matches(id: string, r: Row, e: Entry) {
    && ScanRow(id, r) == e.job
    && (r.claimedBy.Some? ==> r.claimedBy.value != "") && OrEmpty(r.claimedBy) == e.claimedBy
    && (r.claimedBy.Some? <==> r.claimedUntil.Some?) && OrZero(r.claimedUntil) == e.claimedUntil
    && (r.startedAt.Some? ==> r.startedAt.value != 0)
    && (r.claimedBy.Some? <==> r.state.Running?) && (Active(r.state) ==> r.error.None?)
  }

  ghost predicate Simulates(t: Table, s: Store) {
    t.Keys == s.jobs.Keys && forall id :: id in t ==> Matches(id, t[id], s.jobs[id])
  }

  /** A job as Enqueue hands it over: never run, nothing copied. */
  predicate FreshJob(job: Job) {
    job.startedAt == 0 && job.completedAt == 0 && job.error == "" && job.bytesCopied == 0 && job.piecesCopied == 0
  }

  /** Calls for which the two stores promise the same: named nodes, fresh jobs, a clock past the zero time. */
  predicate Ordinary(op: Op, now: int) {
    now != 0 && (op.Put? ==> FreshJob(op.job)) && (!op.Put? ==> op.node != "")
  }

  lemma ClaimMatches(id: string, r: Row, e: Entry, node: string, ttl: int, now: int)
    requires Matches(id, r, e) && node != "" && now != 0 && Active(r.state)
    ensures Claimable(r, node, now) <==> !(e.claimedBy != "" && e.claimedUntil > now && e.claimedBy != node)
    ensures Matches(id, ClaimedRow(r, node, ttl, now), Claim(e, node, ttl, now))
  {
  }

  lemma FinishMatches(id: string, r: Row, e: Entry, op: Op, now: int)
    requires Matches(id, r, e) && op.Release? && Terminal(op.terminal) && r.claimedBy.Some?
    ensures Matches(id, FinishedRow(r, op, now), Finish(e, op, now))
  {
  }

  lemma Replace(t: Table, s: Store, id: string, r: Row, e: Entry, queue: seq<string>)
    requires Simulates(t, s) && Matches(id, r, e)
    ensures Simulates(t[id := r], Store(s.jobs[id := e], queue))
  {
  }

  lemma StepSimulates(t: Table, s: Store, op: Op, now: int)
    requires Simulates(t, s) && Ordinary(op, now)
    ensures PgApply(t, op, now).1 == Apply(s, op, now).1
    ensures Simulates(PgApply(t, op, now).0, Apply(s, op, now).0)
  {
    match op
    case Put(job) =>
      if job.id != "" && job.id !in t {
        Replace(t, s, job.id, InsertedRow(job), Entry(job.(state := Pending), "", 0), s.queue + [job.id]);
      }
    case Acquire(id, node, ttl) =>
      if id in t {
        assert Matches(id, t[id], s.jobs[id]);
        if Active(t[id].state) {
          ClaimMatches(id, t[id], s.jobs[id], node, ttl, now);
          Replace(t, s, id, ClaimedRow(t[id], node, ttl, now), Claim(s.jobs[id], node, ttl, now), s.queue);
        }
      }
    case Heartbeat(id, node, ttl) =>
      if id in t {
        assert Matches(id, t[id], s.jobs[id]);
        if t[id].claimedBy == Some(node) {
          Replace(t, s, id, t[id].(claimedUntil := Some(now + ttl)), s.jobs[id].(claimedUntil := now + ttl), s.queue);
        }
      }
    case Release(id, node, terminal, _, _, _) =>
      if id in t {
        assert Matches(id, t[id], s.jobs[id]);
        if t[id].claimedBy == Some(node) && Terminal(terminal) {
          FinishMatches(id, t[id], s.jobs[id], op, now);
          Replace(t, s, id, FinishedRow(t[id], op, now), Finish(s.jobs[id], op, now), s.queue);
        }
      }
  }

  function PgExec(run: seq<JobLeases.Event>): Table {
    if run == [] then map[]
    else PgApply(PgExec(run[..|run| - 1]), run[|run| - 1].op, run[|run| - 1].now).0
  }

  function PgReplyAt(run: seq<JobLeases.Event>, i: nat): Reply
    requires i < |run|
  {
    PgApply(PgExec(run[..i]), run[i].op, run[i].now).1
  }

  predicate OrdinaryRun(run: seq<JobLeases.Event>) {
    forall i :: 0 <= i < |run| ==> Ordinary(run[i].op, run[i].now)
  }

  /** Every sequence of ordinary calls gets the same replies from both stores and leaves them in matching states. */
  lemma {:induction false} PgSimulatesMemory(run: seq<JobLeases.Event>)
    requires OrdinaryRun(run)
    ensures Simulates(PgExec(run), JobLeases.Exec(run))
    ensures forall i :: 0 <= i < |run| ==> PgReplyAt(run, i) == JobLeases.ReplyAt(run, i)
  {
    if run != [] {
      var n := |run| - 1;
      PgSimulatesMemory(run[..n]);
      StepSimulates(PgExec(run[..n]), JobLeases.Exec(run[..n]), run[n].op, run[n].now);
      forall i | 0 <= i < |run| ensures PgReplyAt(run, i) == JobLeases.ReplyAt(run, i) {
        if i < n {
          assert run[..n][..i] == run[..i];
          assert PgReplyAt(run[..n], i) == JobLeases.ReplyAt(run[..n], i);
        }
      }
    }
  }

  /** The jobs ListActiveJobs reads from the table, in any order. */
  function PgActive(t: Table): set<Job> {
    set id | id in t && Active(t[id].state) :: ScanRow(id, t[id])
  }

  lemma {:induction false} ActiveJobsAre(jobs: map<string, Entry>, queue: seq<string>, job: Job)
    ensures job in ActiveJobs(jobs, queue) <==>
            exists id :: id in queue && id in jobs && Active(jobs[id].job.state) && jobs[id].job == job
  {
    if queue != [] {
      ActiveJobsAre(jobs, queue[..|queue| - 1], job);
      assert queue == queue[..|queue| - 1] + [queue[|queue| - 1]];
    }
  }

  /** Both stores list the same active jobs; only the order differs. */
  lemma ListingsAgree(run: seq<JobLeases.Event>)
    requires OrdinaryRun(run)
    ensures var s := JobLeases.Exec(run);
            PgActive(PgExec(run)) == set job | job in ActiveJobs(s.jobs, s.queue)
  {
    var t, s := PgExec(run), JobLeases.Exec(run);
    PgSimulatesMemory(run);
    JobLeases.RunOk(run);
    forall job ensures job in PgActive(t) <==> job in ActiveJobs(s.jobs, s.queue) {
      ActiveJobsAre(s.jobs, s.queue, job);
      if job in ActiveJobs(s.jobs, s.queue) {
        var id :| id in s.queue && id in s.jobs && Active(s.jobs[id].job.state) && s.jobs[id].job == job;
        assert Matches(id, t[id], s.jobs[id]);
      }
    }
  }

  /**
    The stores disagree on an empty node ID exactly when the job is unclaimed:
    the memory store takes the empty owner for the caller, SQL never equates
    NULL with anything.
   */
  lemma EmptyNodeAgreesIff(t: Table, s: Store, op: Op, now: int)
    requires Simulates(t, s) && now != 0 && (op.Heartbeat? || op.Release?) && op.node == ""
    requires if op.Heartbeat? then op.ttl > 0 else Terminal(op.terminal)
    ensures PgApply(t, op, now).1 == Apply(s, op, now).1 <==> (op.id !in s.jobs || s.jobs[op.id].claimedBy != "")
  {
    if op.id in t { assert Matches(op.id, t[op.id], s.jobs[op.id]); }
  }
}
