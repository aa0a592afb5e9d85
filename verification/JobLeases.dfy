/**
  What the job store promises over whole runs: leases of different nodes on one
  job never overlap, a job is released at most once and by its latest acquirer,
  and a terminal job never changes again.
 */
module JobLeases {
  import opened Wrappers
  import opened JobStore

  datatype Event = Event(op: Op, now: int)

  function Exec(run: seq<Event>): Store {
    if run == [] then Empty
    else Apply(Exec(run[..|run| - 1]), run[|run| - 1].op, run[|run| - 1].now).0
  }

  /** The reply the i-th call of the run gets. */
  function ReplyAt(run: seq<Event>, i: nat): Reply
    requires i < |run|
  {
    Apply(Exec(run[..i]), run[i].op, run[i].now).1
  }

  predicate Clocked(run: seq<Event>) {
    forall i, j :: 0 <= i <= j < |run| ==> run[i].now <= run[j].now
  }

  /** Every node has a name, as NewFleetOrchestratorWithStore insists. */
  predicate NamedNodes(run: seq<Event>) {
    forall i :: 0 <= i < |run| && !run[i].op.Put? ==> run[i].op.node != ""
  }

  /** The i-th call granted a lease on job id: an accepted acquire or heartbeat. */
  predicate Grants(run: seq<Event>, i: nat, id: string) {
    i < |run| && (run[i].op.Acquire? || run[i].op.Heartbeat?) && run[i].op.id == id && ReplyAt(run, i) == Accepted
  }

  predicate Acquires(run: seq<Event>, i: nat, id: string) {
    Grants(run, i, id) && run[i].op.Acquire?
  }

  predicate Releases(run: seq<Event>, i: nat, id: string) {
    i < |run| && run[i].op.Release? && run[i].op.id == id && ReplyAt(run, i) == Accepted
  }

  /** The lease granted by call i runs from its clock reading up to, not including, LeaseEnd. */
  function LeaseEnd(run: seq<Event>, i: nat): int
    requires i < |run| && (run[i].op.Acquire? || run[i].op.Heartbeat?)
  {
    run[i].now + run[i].op.ttl
  }

  /** Each node always asks for the same TTL. */
  predicate FixedTtl(run: seq<Event>) {
    forall i, j :: 0 <= i < |run| && 0 <= j < |run| && (run[i].op.Acquire? || run[i].op.Heartbeat?)
              && (run[j].op.Acquire? || run[j].op.Heartbeat?) && run[i].op.node == run[j].op.node
              ==> run[i].op.ttl == run[j].op.ttl
  }

  /** No node ever shortens a lease it was granted earlier. */
  ghost predicate NeverShortens(run: seq<Event>) {
    forall i, j, id {:trigger Grants(run, i, id), Grants(run, j, id)} ::
      0 <= i <= j && Grants(run, i, id) && Grants(run, j, id) && run[i].op.node == run[j].op.node ==>
        LeaseEnd(run, i) <= LeaseEnd(run, j)
  }

  lemma FixedTtlNeverShortens(run: seq<Event>)
    requires Clocked(run) && FixedTtl(run)
    ensures NeverShortens(run)
  {
  }

  // ---------------------------------------------------------------- invariants of single states

  ghost predicate QueueOk(s: Store) {
    && (forall id :: id in s.jobs <==> id in s.queue)
    && (forall i, j :: 0 <= i < j < |s.queue| ==> s.queue[i] != s.queue[j])
    && (forall id :: id in s.jobs ==> id != "" && s.jobs[id].job.id == id)
  }

  /** A job is claimed exactly while it is running. */
  ghost predicate ClaimsOk(s: Store) {
    forall id :: id in s.jobs ==> (s.jobs[id].claimedBy != "" <==> s.jobs[id].job.state.Running?)
  }

  lemma StepOk(s: Store, op: Op, now: int)
    requires QueueOk(s) && ClaimsOk(s) && (op.Put? || op.node != "")
    ensures QueueOk(Apply(s, op, now).0) && ClaimsOk(Apply(s, op, now).0)
  {
    match op
    case Put(job) => if job.id != "" && job.id !in s.jobs { PutOk(s, job); }
    case Acquire(id, node, ttl) => if id in s.jobs { UpdateOk(s, id, Claim(s.jobs[id], node, ttl, now)); }
    case Heartbeat(_, _, _) => HeartbeatOk(s, op, now);
    case Release(_, _, _, _, _, _) => ReleaseOk(s, op, now);
  }

  lemma HeartbeatOk(s: Store, op: Op, now: int)
    requires QueueOk(s) && ClaimsOk(s) && op.Heartbeat?
    ensures QueueOk(Apply(s, op, now).0) && ClaimsOk(Apply(s, op, now).0)
  {
    if op.id in s.jobs { UpdateOk(s, op.id, s.jobs[op.id].(claimedUntil := now + op.ttl)); }
  }

  lemma ReleaseOk(s: Store, op: Op, now: int)
    requires QueueOk(s) && ClaimsOk(s) && op.Release?
    ensures QueueOk(Apply(s, op, now).0) && ClaimsOk(Apply(s, op, now).0)
  {
    if op.id in s.jobs && Terminal(op.terminal) { UpdateOk(s, op.id, Finish(s.jobs[op.id], op, now)); }
  }

  lemma UpdateOk(s: Store, id: string, e: Entry)
    requires QueueOk(s) && ClaimsOk(s) && id in s.jobs && e.job.id == id &&
      (e.claimedBy != "" <==> e.job.state.Running?)
    ensures QueueOk(s.(jobs := s.jobs[id := e])) && ClaimsOk(s.(jobs := s.jobs[id := e]))
  {
  }

  lemma PutOk(s: Store, job: Job)
    requires QueueOk(s) && ClaimsOk(s) && job.id != "" && job.id !in s.jobs
    ensures var s' := Store(s.jobs[job.id := Entry(job.(state := Pending), "", 0)], s.queue + [job.id]);
            QueueOk(s') && ClaimsOk(s')
  {
  }

  lemma {:induction false} RunOk(run: seq<Event>)
    requires NamedNodes(run)
    ensures QueueOk(Exec(run)) && ClaimsOk(Exec(run))
  {
    if run != [] {
      RunOk(run[..|run| - 1]);
      StepOk(Exec(run[..|run| - 1]), run[|run| - 1].op, run[|run| - 1].now);
    }
  }

  lemma ExecStep(run: seq<Event>, n: nat)
    requires n < |run|
    ensures Exec(run[..n + 1]) == Apply(Exec(run[..n]), run[n].op, run[n].now).0
  {
    assert run[..n + 1][..n] == run[..n];
  }

  // ---------------------------------------------------------------- disjoint leases

  /** What still binds the store at time t to a lease on job id granted to `node` until `end`. */
  ghost predicate Honours(s: Store, id: string, node: string, end: int, t: int) {
    && id in s.jobs
    && var e := s.jobs[id];
       || Terminal(e.job.state)
       || (e.claimedBy == node && end <= e.claimedUntil)
       || end <= t
  }

  predicate GrantsNow(s: Store, op: Op, now: int, id: string) {
    (op.Acquire? || op.Heartbeat?) && op.id == id && Apply(s, op, now).1 == Accepted
  }

  lemma StepHonours(s: Store, op: Op, now: int, id: string, node: string, end: int, t: int)
    requires ClaimsOk(s) && (op.Put? || op.node != "") && node != "" && t <= now && Honours(s, id, node, end, t)
    requires GrantsNow(s, op, now, id) && op.node == node ==> end <= now + op.ttl
    ensures Honours(Apply(s, op, now).0, id, node, end, now)
  {
  }

  lemma GrantHonours(s: Store, op: Op, now: int, id: string)
    requires ClaimsOk(s) && GrantsNow(s, op, now, id)
    ensures Honours(Apply(s, op, now).0, id, op.node, now + op.ttl, now)
  {
  }

  lemma RegrantKeepsEnd(run: seq<Event>, i: nat, id: string, n: nat)
    requires NeverShortens(run) && Grants(run, i, id) && i < n < |run|
    requires GrantsNow(Exec(run[..n]), run[n].op, run[n].now, id) && run[n].op.node == run[i].op.node
    ensures LeaseEnd(run, i) <= run[n].now + run[n].op.ttl
  {
    assert Grants(run, n, id);
  }

  lemma PrefixOk(run: seq<Event>, n: nat)
    requires NamedNodes(run) && n <= |run|
    ensures ClaimsOk(Exec(run[..n]))
  {
    RunOk(run[..n]);
  }

  /** The lease granted by call i still binds the store after n calls. */
  ghost predicate BindsAfter(run: seq<Event>, i: nat, id: string, n: nat) {
    && Grants(run, i, id) && i < n <= |run|
    && Honours(Exec(run[..n]), id, run[i].op.node, LeaseEnd(run, i), run[n - 1].now)
  }

  lemma LeaseStep(run: seq<Event>, i: nat, id: string, n: nat)
    requires Clocked(run) && NamedNodes(run) && NeverShortens(run) && n < |run| && BindsAfter(run, i, id, n)
    ensures BindsAfter(run, i, id, n + 1)
  {
    var s, op, now := Exec(run[..n]), run[n].op, run[n].now;
    PrefixOk(run, n);
    if GrantsNow(s, op, now, id) && op.node == run[i].op.node { RegrantKeepsEnd(run, i, id, n); }
    StepHonours(s, op, now, id, run[i].op.node, LeaseEnd(run, i), run[n - 1].now);
    ExecStep(run, n);
  }

  lemma LeaseBegins(run: seq<Event>, i: nat, id: string)
    requires NamedNodes(run) && Grants(run, i, id)
    ensures BindsAfter(run, i, id, i + 1)
  {
    PrefixOk(run, i);
    ExecStep(run, i);
    GrantHonours(Exec(run[..i]), run[i].op, run[i].now, id);
  }

  lemma {:induction false} LeaseHonoured(run: seq<Event>, i: nat, id: string, n: nat)
    requires Clocked(run) && NamedNodes(run) && NeverShortens(run)
    requires Grants(run, i, id) && i < n <= |run|
    ensures BindsAfter(run, i, id, n)
  {
    if n > i + 1 {
      LeaseHonoured(run, i, id, n - 1);
      LeaseStep(run, i, id, n - 1);
    } else {
      LeaseBegins(run, i, id);
    }
  }

  /**
    Two nodes never hold a job at the same time: with a nondecreasing clock,
    the lease of one ends no later than any later lease of another begins.
   */
  lemma LeasesDisjoint(run: seq<Event>, id: string, i: nat, j: nat)
    requires Clocked(run) && NamedNodes(run) && NeverShortens(run)
    requires i < j && Grants(run, i, id) && Grants(run, j, id) && run[i].op.node != run[j].op.node
    ensures LeaseEnd(run, i) <= run[j].now
  {
    LeaseHonoured(run, i, id, j);
    RunOk(run[..j]);
    assert run[j - 1].now <= run[j].now;
  }

  /** A heartbeat that shortens its own lease lets another node in while the first grant still runs. */
  lemma ShortenedLeaseOverlaps(job: Job, a: string, b: string)
    requires job.id != "" && a != "" && b != "" && a != b
    ensures exists run: seq<Event>, i: nat, j: nat ::
              && Clocked(run) && NamedNodes(run) && Grants(run, i, job.id) && Grants(run, j, job.id)
              && i < j && run[i].op.node != run[j].op.node && LeaseEnd(run, i) > run[j].now
  {
    var e0, e1 := Event(Put(job), 1), Event(Acquire(job.id, a, 10), 1);
    var e2, e3 := Event(Heartbeat(job.id, a, 1), 1), Event(Acquire(job.id, b, 10), 2);
    var run := [e0, e1, e2, e3];
    assert run[..0] == [] && run[..1] == [e0] && run[..2] == [e0, e1] && run[..3] == [e0, e1, e2];
    ExecStep(run, 0);
    ExecStep(run, 1);
    ExecStep(run, 2);
    assert Grants(run, 1, job.id) && Grants(run, 3, job.id);
    assert LeaseEnd(run, 1) == 11;
  }

  // ---------------------------------------------------------------- releases

  lemma StepKeepsTerminal(s: Store, op: Op, now: int, id: string)
    requires ClaimsOk(s) && (op.Put? || op.node != "") && id in s.jobs && Terminal(s.jobs[id].job.state)
    ensures id in Apply(s, op, now).0.jobs && Apply(s, op, now).0.jobs[id].job == s.jobs[id].job
  {
  }

  /** A terminal job keeps its state, counts, times and error for ever. */
  lemma {:induction false} TerminalIsFinal(run: seq<Event>, m: nat, n: nat, id: string)
    requires NamedNodes(run) && m <= n <= |run|
    requires id in Exec(run[..m]).jobs && Terminal(Exec(run[..m]).jobs[id].job.state)
    ensures id in Exec(run[..n]).jobs && Exec(run[..n]).jobs[id].job == Exec(run[..m]).jobs[id].job
  {
    if m < n {
      TerminalIsFinal(run, m, n - 1, id);
      RunOk(run[..n - 1]);
      ExecStep(run, n - 1);
      StepKeepsTerminal(Exec(run[..n - 1]), run[n - 1].op, run[n - 1].now, id);
    }
  }

  lemma ReleasedOnce(run: seq<Event>, id: string, i: nat, j: nat)
    requires NamedNodes(run) && i < j && Releases(run, i, id)
    ensures !Releases(run, j, id) && !Grants(run, j, id)
  {
    if j < |run| {
      ExecStep(run, i);
      TerminalIsFinal(run, i + 1, j, id);
      RunOk(run[..j]);
    }
  }

  /** Call i is the latest accepted acquire of job id before call n. */
  ghost predicate LatestAcquire(run: seq<Event>, i: nat, id: string, n: nat) {
    i < n <= |run| && Acquires(run, i, id) && forall j :: i < j < n ==> !Acquires(run, j, id)
  }

  /** Unless the call acquires job id, a claimant after it was the claimant before it. */
  lemma ClaimantStays(s: Store, op: Op, now: int, id: string)
    requires op.Put? || op.node != ""
    requires var s' := Apply(s, op, now).0; id in s'.jobs && s'.jobs[id].claimedBy != ""
    ensures (GrantsNow(s, op, now, id) && op.Acquire? && Apply(s, op, now).0.jobs[id].claimedBy == op.node)
            || (id in s.jobs && s.jobs[id].claimedBy == Apply(s, op, now).0.jobs[id].claimedBy)
  {
  }

  lemma LatestAcquireStays(run: seq<Event>, i: nat, id: string, n: nat)
    requires LatestAcquire(run, i, id, n) && n < |run| && !Acquires(run, n, id)
    ensures LatestAcquire(run, i, id, n + 1)
  {
  }

  lemma {:induction false} ClaimantIsLatestAcquirer(run: seq<Event>, id: string, n: nat) returns (i: nat)
    requires NamedNodes(run) && n <= |run|
    requires id in Exec(run[..n]).jobs && Exec(run[..n]).jobs[id].claimedBy != ""
    ensures LatestAcquire(run, i, id, n) && run[i].op.node == Exec(run[..n]).jobs[id].claimedBy
  {
    assert n > 0;
    ExecStep(run, n - 1);
    ClaimantStays(Exec(run[..n - 1]), run[n - 1].op, run[n - 1].now, id);
    if Acquires(run, n - 1, id) {
      i := n - 1;
      AcquireClaims(Exec(run[..n - 1]), run[n - 1].op, run[n - 1].now);
    } else {
      i := ClaimantIsLatestAcquirer(run, id, n - 1);
      LatestAcquireStays(run, i, id, n - 1);
    }
  }

  lemma AcquireClaims(s: Store, op: Op, now: int)
    requires op.Acquire? && Apply(s, op, now).1 == Accepted
    ensures op.id in Apply(s, op, now).0.jobs && Apply(s, op, now).0.jobs[op.id].claimedBy == op.node
  {
  }

  /** Only the node that acquired the job last can release it. */
  lemma ReleaserIsLatestAcquirer(run: seq<Event>, id: string, n: nat) returns (i: nat)
    requires NamedNodes(run) && Releases(run, n, id)
    ensures LatestAcquire(run, i, id, n) && run[i].op.node == run[n].op.node
  {
    i := ClaimantIsLatestAcquirer(run, id, n);
  }

  // ---------------------------------------------------------------- who is served

  /** Call g is the latest grant on job id before call n. */
  ghost predicate LatestGrant(run: seq<Event>, g: nat, id: string, n: nat) {
    g < n <= |run| && Grants(run, g, id) && forall j :: g < j < n ==> !Grants(run, j, id)
  }

  lemma GrantSets(s: Store, op: Op, now: int, id: string)
    requires GrantsNow(s, op, now, id)
    ensures var s' := Apply(s, op, now).0;
            id in s'.jobs && s'.jobs[id].claimedBy == op.node && s'.jobs[id].claimedUntil == now + op.ttl
  {}

  lemma ClaimStays(s: Store, op: Op, now: int, id: string)
    requires !GrantsNow(s, op, now, id) && id in Apply(s, op, now).0.jobs
    requires Apply(s, op, now).0.jobs[id].claimedBy != ""
    ensures id in s.jobs && s.jobs[id].claimedBy == Apply(s, op, now).0.jobs[id].claimedBy
    ensures s.jobs[id].claimedUntil == Apply(s, op, now).0.jobs[id].claimedUntil
  {}

  lemma LatestGrantStays(run: seq<Event>, g: nat, id: string, n: nat)
    requires LatestGrant(run, g, id, n) && n < |run| && !Grants(run, n, id)
    ensures LatestGrant(run, g, id, n + 1)
  {}

  lemma GrantTakesHold(run: seq<Event>, id: string, n: nat)
    requires Grants(run, n, id)
    ensures var s' := Exec(run[..n + 1]);
            id in s'.jobs && s'.jobs[id].claimedBy == run[n].op.node && s'.jobs[id].claimedUntil == LeaseEnd(run, n)
  {
    ExecStep(run, n);
    GrantSets(Exec(run[..n]), run[n].op, run[n].now, id);
  }

  lemma ClaimCarriesOver(run: seq<Event>, id: string, n: nat)
    requires n < |run| && !Grants(run, n, id)
    requires id in Exec(run[..n + 1]).jobs && Exec(run[..n + 1]).jobs[id].claimedBy != ""
    ensures var s, s' := Exec(run[..n]), Exec(run[..n + 1]);
            && id in s.jobs && s.jobs[id].claimedBy == s'.jobs[id].claimedBy
            && s.jobs[id].claimedUntil == s'.jobs[id].claimedUntil
  {
    ExecStep(run, n);
    ClaimStays(Exec(run[..n]), run[n].op, run[n].now, id);
  }

  /** A claim is that of the latest grant: its node, until its lease ends. */
  lemma {:induction false} ClaimIsLatestGrant(run: seq<Event>, id: string, n: nat) returns (g: nat)
    requires n <= |run| && id in Exec(run[..n]).jobs && Exec(run[..n]).jobs[id].claimedBy != ""
    ensures LatestGrant(run, g, id, n) && run[g].op.node == Exec(run[..n]).jobs[id].claimedBy
    ensures LeaseEnd(run, g) == Exec(run[..n]).jobs[id].claimedUntil
  {
    assert n > 0;
    if Grants(run, n - 1, id) {
      g := n - 1;
      GrantTakesHold(run, id, n - 1);
    } else {
      ClaimCarriesOver(run, id, n - 1);
      g := ClaimIsLatestGrant(run, id, n - 1);
      LatestGrantStays(run, g, id, n - 1);
    }
  }

  /**
    After any run a job that is not finished is acquired exactly when it is pending, or
    the latest grant on it was to the same node, or that lease has ended.
   */
  lemma AcquiredIff(run: seq<Event>, id: string, node: string, ttl: int, now: int)
    requires NamedNodes(run) && id in Exec(run).jobs && node != "" && ttl > 0
    ensures Apply(Exec(run), Acquire(id, node, ttl), now).1 == Accepted <==>
            || Exec(run).jobs[id].job.state == Pending
            || (&& Exec(run).jobs[id].job.state == Running
                && exists g: nat ::
                     LatestGrant(run, g, id, |run|) && (run[g].op.node == node || LeaseEnd(run, g) <= now))
  {
    RunOk(run);
    assert run[..|run|] == run;
    if Exec(run).jobs[id].claimedBy != "" {
      var g := ClaimIsLatestGrant(run, id, |run|);
      assert forall g': nat :: LatestGrant(run, g', id, |run|) ==> g' == g;
    }
  }

  /** A heartbeat or release is accepted exactly from the node of the latest grant, while the job runs. */
  lemma HolderServedIff(run: seq<Event>, op: Op, now: int)
    requires NamedNodes(run) && (op.Heartbeat? || op.Release?) && op.id in Exec(run).jobs && op.node != ""
    requires (op.Heartbeat? ==> op.ttl > 0) && (op.Release? ==> Terminal(op.terminal))
    ensures Apply(Exec(run), op, now).1 == Accepted <==>
            && Exec(run).jobs[op.id].job.state == Running
            && exists g: nat :: LatestGrant(run, g, op.id, |run|) && run[g].op.node == op.node
  {
    RunOk(run);
    assert run[..|run|] == run;
    if Exec(run).jobs[op.id].claimedBy != "" {
      var g := ClaimIsLatestGrant(run, op.id, |run|);
      assert forall g': nat :: LatestGrant(run, g', op.id, |run|) ==> g' == g;
    }
  }

  // ---------------------------------------------------------------- what a job's record says

  /** The calls that shaped a job's record: its submission, its first acquire, its release. */
  datatype Life = Life(put: nat, start: Option<nat>, end: Option<nat>)

  predicate Submits(run: seq<Event>, i: nat, id: string) {
    i < |run| && run[i].op.Put? && run[i].op.job.id == id && ReplyAt(run, i) == Accepted
  }

  /** The life of job id over the first n calls. */
  ghost predicate Lived(run: seq<Event>, id: string, n: nat, l: Life) {
    && n <= |run| && l.put < n && Submits(run, l.put, id)
    && match l.start {
         case None => forall i :: 0 <= i < n ==> !Acquires(run, i, id)
         case Some(a) => a < n && Acquires(run, a, id) && forall i :: 0 <= i < a ==> !Acquires(run, i, id)
       }
    && match l.end {
         case None => forall i :: 0 <= i < n ==> !Releases(run, i, id)
         case Some(r) => r < n && Releases(run, r, id)
       }
  }

  function Started(job: Job, now: int): Job {
    if job.startedAt == 0 then job.(state := Running, startedAt := now) else job.(state := Running)
  }

  function Ended(job: Job, op: Op, now: int): Job
    requires op.Release?
  {
    var counted := job.(state := op.terminal, bytesCopied := op.bytes, piecesCopied := op.pieces, completedAt := now);
    if op.failure.None? then counted else counted.(error := op.failure.value)
  }

  /** The record a life leaves: as submitted, started by the first acquire, ended by the release. */
  ghost function RecordOf(run: seq<Event>, id: string, n: nat, l: Life): Job
    requires Lived(run, id, n, l)
  {
    var submitted := run[l.put].op.job.(state := Pending);
    var started := if l.start.None? then submitted else Started(submitted, run[l.start.value].now);
    if l.end.None? then started else Ended(started, run[l.end.value].op, run[l.end.value].now)
  }

  /** The clock reads past the zero time. */
  predicate PastZero(run: seq<Event>) { forall i :: 0 <= i < |run| ==> run[i].now > 0 }

  lemma NotBeforeSubmission(run: seq<Event>, id: string, n: nat)
    requires n < |run| && id !in Exec(run[..n]).jobs
    ensures !Acquires(run, n, id) && !Releases(run, n, id)
    ensures id in Exec(run[..n + 1]).jobs ==>
              Submits(run, n, id) && Exec(run[..n + 1]).jobs[id].job == run[n].op.job.(state := Pending)
  {
    ExecStep(run, n);
  }

  lemma {:induction false} AbsentIsUntouched(run: seq<Event>, id: string, n: nat)
    requires n <= |run| && id !in Exec(run[..n]).jobs
    ensures forall i :: 0 <= i < n ==> !Acquires(run, i, id) && !Releases(run, i, id)
  {
    if n > 0 {
      ExecStep(run, n - 1);
      AbsentIsUntouched(run, id, n - 1);
      NotBeforeSubmission(run, id, n - 1);
    }
  }

  lemma FirstRecord(run: seq<Event>, id: string, n: nat)
    requires n < |run| && id !in Exec(run[..n]).jobs && id in Exec(run[..n + 1]).jobs
    ensures Lived(run, id, n + 1, Life(n, None, None))
    ensures Exec(run[..n + 1]).jobs[id].job == RecordOf(run, id, n + 1, Life(n, None, None))
  {
    AbsentIsUntouched(run, id, n);
    NotBeforeSubmission(run, id, n);
  }

  /** The record after one more call, as a job. */
  function Recorded(job: Job, op: Op, now: int, id: string, reply: Reply): Job {
    if reply != Accepted || op.Put? || op.Heartbeat? || op.id != id then job
    else if op.Acquire? then Started(job, now)
    else Ended(job, op, now)
  }

  lemma StepRecords(s: Store, op: Op, now: int, id: string)
    requires id in s.jobs
    ensures id in Apply(s, op, now).0.jobs
    ensures Apply(s, op, now).0.jobs[id].job == Recorded(s.jobs[id].job, op, now, id, Apply(s, op, now).1)
  {}

  /** The life one call later. */
  ghost function LongerLife(run: seq<Event>, id: string, n: nat, l: Life): Life
    requires n < |run|
  {
    Life(l.put, if l.start.None? && Acquires(run, n, id) then Some(n) else l.start,
         if Releases(run, n, id) then Some(n) else l.end)
  }

  lemma LifeGoesOn(run: seq<Event>, id: string, n: nat, l: Life)
    requires n < |run| && Lived(run, id, n, l)
    ensures Lived(run, id, n + 1, LongerLife(run, id, n, l))
  {}

  lemma LivedState(run: seq<Event>, id: string, n: nat, l: Life)
    requires Lived(run, id, n, l)
    ensures RecordOf(run, id, n, l).state
         == if l.end.Some? then run[l.end.value].op.terminal else if l.start.Some? then Running else Pending
    ensures l.end.Some? ==> Terminal(run[l.end.value].op.terminal)
    ensures PastZero(run) && l.start.Some? ==> RecordOf(run, id, n, l).startedAt != 0
  {}

  /** Of a named node's calls, only a running job is released and no finished job is acquired. */
  lemma ServedState(s: Store, op: Op, now: int)
    requires ClaimsOk(s) && !op.Put? && op.node != "" && Apply(s, op, now).1 == Accepted && op.id in s.jobs
    ensures op.Release? ==> s.jobs[op.id].job.state == Running
    ensures op.Acquire? ==> !Terminal(s.jobs[op.id].job.state)
  {}

  lemma RecordNext(run: seq<Event>, id: string, n: nat, l: Life)
    requires n < |run| && PastZero(run) && NamedNodes(run) && Lived(run, id, n, l)
    requires Acquires(run, n, id) ==> l.end.None?
    requires Releases(run, n, id) ==> l.start.Some? && l.end.None?
    ensures Lived(run, id, n + 1, LongerLife(run, id, n, l))
    ensures RecordOf(run, id, n + 1, LongerLife(run, id, n, l))
         == Recorded(RecordOf(run, id, n, l), run[n].op, run[n].now, id, ReplyAt(run, n))
  {
    LifeGoesOn(run, id, n, l);
    LivedState(run, id, n, l);
  }

  lemma RecordStep(run: seq<Event>, id: string, n: nat, l: Life)
    requires n < |run| && PastZero(run) && NamedNodes(run) && Lived(run, id, n, l)
    requires id in Exec(run[..n]).jobs && Exec(run[..n]).jobs[id].job == RecordOf(run, id, n, l)
    ensures Lived(run, id, n + 1, LongerLife(run, id, n, l)) && id in Exec(run[..n + 1]).jobs
    ensures Exec(run[..n + 1]).jobs[id].job == RecordOf(run, id, n + 1, LongerLife(run, id, n, l))
  {
    var s, op, now := Exec(run[..n]), run[n].op, run[n].now;
    PrefixOk(run, n);
    LivedState(run, id, n, l);
    if Acquires(run, n, id) || Releases(run, n, id) { ServedState(s, op, now); }
    ExecStep(run, n);
    StepRecords(s, op, now, id);
    RecordNext(run, id, n, l);
  }

  /**
    After every run the record of a job is what its life says, whoever held it in between: the
    submitted job, started at the first acquire unless submitted with a start time, and, once
    released, with the releaser's outcome, counts and error and the time of the release.
   */
  lemma {:induction false} RecordIs(run: seq<Event>, id: string, n: nat) returns (l: Life)
    requires NamedNodes(run) && PastZero(run) && n <= |run| && id in Exec(run[..n]).jobs
    ensures Lived(run, id, n, l) && Exec(run[..n]).jobs[id].job == RecordOf(run, id, n, l)
    decreases n
  {
    assert n > 0;
    if id !in Exec(run[..n - 1]).jobs {
      FirstRecord(run, id, n - 1);
      l := Life(n - 1, None, None);
    } else {
      l := RecordIs(run, id, n - 1);
      RecordStep(run, id, n - 1, l);
      l := LongerLife(run, id, n - 1, l);
    }
  }

  ghost predicate TerminalUnclaimed(s: Store) {
    forall id :: id in s.jobs && Terminal(s.jobs[id].job.state) ==> s.jobs[id].claimedBy == ""
  }

  lemma {:induction false} RunTerminalUnclaimed(run: seq<Event>)
    ensures TerminalUnclaimed(Exec(run))
  {
    if run != [] {
      RunTerminalUnclaimed(run[..|run| - 1]);
      StepTerminalUnclaimed(Exec(run[..|run| - 1]), run[|run| - 1].op, run[|run| - 1].now);
    }
  }

  lemma StepTerminalUnclaimed(s: Store, op: Op, now: int)
    requires TerminalUnclaimed(s)
    ensures TerminalUnclaimed(Apply(s, op, now).0)
  {
  }

  /** After every run, of any nodes, a terminal job is released again exactly by a caller with an empty node ID. */
  lemma TerminalReleasedAgainIff(run: seq<Event>, op: Op, now: int)
    requires op.Release? && Terminal(op.terminal) && op.id in Exec(run).jobs
    requires Terminal(Exec(run).jobs[op.id].job.state)
    ensures Apply(Exec(run), op, now).1 == Accepted <==> op.node == ""
  {
    RunTerminalUnclaimed(run);
  }

  /** Node IDs must not be empty: the empty node releases an unclaimed job, as often as it likes. */
  lemma EmptyNodeReleasesTwice(job: Job)
    requires job.id != ""
    ensures exists run: seq<Event>, i: nat, j: nat :: i < j && Releases(run, i, job.id) && Releases(run, j, job.id)
              && run[i].op.bytes != run[j].op.bytes
  {
    var e0 := Event(Put(job), 1);
    var e1 := Event(Release(job.id, "", Done, 1, 1, None), 1);
    var e2 := Event(Release(job.id, "", Done, 2, 2, None), 1);
    var run := [e0, e1, e2];
    assert run[..0] == [] && run[..1] == [e0] && run[..2] == [e0, e1] && run[..3] == run;
    ExecStep(run, 0);
    ExecStep(run, 1);
    ExecStep(run, 2);
    assert Releases(run, 1, job.id) && Releases(run, 2, job.id);
  }
}
