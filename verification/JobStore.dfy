/**
  The migration job store: claims with a time-to-live, heartbeats and releases
  fenced by node ID.  `InMemoryJobStore` is the mutex-guarded store; each of its
  methods is one atomic step, so a run of the store is a sequence of steps.
 */
module JobStore {
  import opened Wrappers

  datatype JobState = Pending | Running | Done | Failed

  /** Times are clock readings; zero is the zero time. */
  datatype Job = Job(
    id: string, tenant: string, bucket: string, sourceBackend: string, cell: string, destBackend: string,
    bytesPerSecond: int, state: JobState, startedAt: int, completedAt: int, error: string,
    bytesCopied: int, piecesCopied: int)

  /** `claimedBy` is empty when nobody holds the job. */
  datatype Entry = Entry(job: Job, claimedBy: string, claimedUntil: int)

  datatype Error = BadArgument | JobNotFound | ClaimNotHeld | DuplicateJob

  /** AcquireJob answers Accepted (true), Refused (false) or an error; the other calls Accepted or an error. */
  datatype Reply = Accepted | Refused | Rejected(error: Error)

  datatype Op =
    | Put(job: Job)
    | Acquire(id: string, node: string, ttl: int)
    | Heartbeat(id: string, node: string, ttl: int)
    | Release(id: string, node: string, terminal: JobState, bytes: int, pieces: int, failure: Option<string>)

  datatype Store = Store(jobs: map<string, Entry>, queue: seq<string>)

  const Empty := Store(map[], [])

  predicate Active(s: JobState) { s.Pending? || s.Running? }

  predicate Terminal(s: JobState) { s.Done? || s.Failed? }

  // ---------------------------------------------------------------- what one call does

  function Claim(e: Entry, node: string, ttl: int, now: int): Entry {
    Entry(e.job.(state := Running, startedAt := if e.job.startedAt == 0 then now else e.job.startedAt), node, now + ttl)
  }

  function Finish(e: Entry, op: Op, now: int): Entry
    requires op.Release?
  {
    Entry(e.job.(state := op.terminal, bytesCopied := op.bytes, piecesCopied := op.pieces, completedAt := now,
                 error := if op.failure.Some? then op.failure.value else e.job.error), "", 0)
  }

  function Apply(s: Store, op: Op, now: int): (Store, Reply) {
    match op
    case Put(job) =>
      if job.id == "" then (s, Rejected(BadArgument))
      else if job.id in s.jobs then (s, Rejected(DuplicateJob))
      else (Store(s.jobs[job.id := Entry(job.(state := Pending), "", 0)], s.queue + [job.id]), Accepted)
    case Acquire(id, node, ttl) =>
      if id == "" || node == "" || ttl <= 0 then (s, Rejected(BadArgument))
      else if id !in s.jobs then (s, Rejected(JobNotFound))
      else if !Active(s.jobs[id].job.state) then (s, Refused)
      else if s.jobs[id].claimedBy != "" && s.jobs[id].claimedUntil > now &&
        s.jobs[id].claimedBy != node then (s, Refused)
      else (s.(jobs := s.jobs[id := Claim(s.jobs[id], node, ttl, now)]), Accepted)
    case Heartbeat(id, node, ttl) =>
      if ttl <= 0 then (s, Rejected(BadArgument))
      else if id !in s.jobs then (s, Rejected(JobNotFound))
      else if s.jobs[id].claimedBy != node then (s, Rejected(ClaimNotHeld))
      else (s.(jobs := s.jobs[id := s.jobs[id].(claimedUntil := now + ttl)]), Accepted)
    case Release(id, node, terminal, _, _, _) =>
      if !Terminal(terminal) then (s, Rejected(BadArgument))
      else if id !in s.jobs then (s, Rejected(JobNotFound))
      else if s.jobs[id].claimedBy != node then (s, Rejected(ClaimNotHeld))
      else (s.(jobs := s.jobs[id := Finish(s.jobs[id], op, now)]), Accepted)
  }

  /** The jobs still pending or running, in submission order. */
  function ActiveJobs(jobs: map<string, Entry>, queue: seq<string>): seq<Job> {
    if queue == [] then []
    else
      var rest := ActiveJobs(jobs, queue[..|queue| - 1]);
      var id := queue[|queue| - 1];
      if id in jobs && Active(jobs[id].job.state) then rest + [jobs[id].job] else rest
  }

  class InMemoryJobStore {
    var jobs: map<string, Entry>
    var queue: seq<string>

    constructor ()
      ensures Model() == Empty
    {
      jobs := map[];
      queue := [];
    }

    function Model(): Store
      reads this
    {
      Store(jobs, queue)
    }

    method PutJob(job: Job) returns (reply: Reply)
      modifies this
      ensures (Model(), reply) == Apply(old(Model()), Put(job), 0)
    {
      if job.id == "" {
        return Rejected(BadArgument);
      }
      if job.id in jobs {
        return Rejected(DuplicateJob);
      }
      jobs := jobs[job.id := Entry(job.(state := Pending), "", 0)];
      queue := queue + [job.id];
      return Accepted;
    }

    method AcquireJob(id: string, node: string, ttl: int, now: int) returns (reply: Reply)
      modifies this`jobs
      ensures (Model(), reply) == Apply(old(Model()), Acquire(id, node, ttl), now)
    {
      if id == "" || node == "" || ttl <= 0 {
        return Rejected(BadArgument);
      }
      if id !in jobs {
        return Rejected(JobNotFound);
      }
      var entry := jobs[id];
      if entry.job.state != Pending && entry.job.state != Running {
        return Refused;
      }
      if entry.claimedBy != "" && entry.claimedUntil > now && entry.claimedBy != node {
        return Refused;
      }
      entry := entry.(claimedBy := node, claimedUntil := now + ttl);
      entry := entry.(job := entry.job.(state := Running));
      if entry.job.startedAt == 0 {
        entry := entry.(job := entry.job.(startedAt := now));
      }
      jobs := jobs[id := entry];
      return Accepted;
    }

    method HeartbeatJob(id: string, node: string, ttl: int, now: int) returns (reply: Reply)
      modifies this`jobs
      ensures (Model(), reply) == Apply(old(Model()), Heartbeat(id, node, ttl), now)
    {
      if ttl <= 0 {
        return Rejected(BadArgument);
      }
      if id !in jobs {
        return Rejected(JobNotFound);
      }
      if jobs[id].claimedBy != node {
        return Rejected(ClaimNotHeld);
      }
      jobs := jobs[id := jobs[id].(claimedUntil := now + ttl)];
      return Accepted;
    }

    method ReleaseJob(id: string, node: string, terminal: JobState, bytes: int, pieces: int, error: Option<string>,
        now: int)
      returns (reply: Reply)
      modifies this`jobs
      ensures (Model(), reply) == Apply(old(Model()), Release(id, node, terminal, bytes, pieces, error), now)
    {
      if terminal != Done && terminal != Failed {
        return Rejected(BadArgument);
      }
      if id !in jobs {
        return Rejected(JobNotFound);
      }
      var entry := jobs[id];
      if entry.claimedBy != node {
        return Rejected(ClaimNotHeld);
      }
      var job := entry.job.(state := terminal, bytesCopied := bytes, piecesCopied := pieces, completedAt := now);
      if error.Some? {
        job := job.(error := error.value);
      }
      jobs := jobs[id := Entry(job, "", 0)];
      return Accepted;
    }

    method ListActiveJobs() returns (out: seq<Job>)
      ensures out == ActiveJobs(jobs, queue)
    {
      out := [];
      for i := 0 to |queue|
        invariant out == ActiveJobs(jobs, queue[..i])
      {
        assert queue[..i + 1][..i] == queue[..i];
        var id := queue[i];
        if id in jobs && (jobs[id].job.state == Pending || jobs[id].job.state == Running) {
          out := out + [jobs[id].job];
        }
      }
      assert queue[..|queue|] == queue;
    }
  }
}
