/**
  The fleet orchestrator's dispatch round: RunOnce claims pending jobs in
  listing order, up to a cap per destination cell.
 */
module FleetOrchestrator {
  import opened JobStore
  import JobLeases

  datatype CellLimit = CellLimit(cell: string, maxConcurrent: int)

  function Max(a: int, b: int): int { if a < b then b else a }

  function Min(a: int, b: int): int { if a < b then a else b }

  /** The cap of a cell: the last limit given for it, at least one; one for an unlisted cell. */
  function Cap(limits: seq<CellLimit>, cell: string): nat
    ensures Cap(limits, cell) >= 1
  {
    if limits == [] then 1
    else if limits[|limits| - 1].cell == cell then Max(1, limits[|limits| - 1].maxConcurrent)
    else Cap(limits[..|limits| - 1], cell)
  }

  /** A configured limit binds unless a later one for the cell follows; a limit below one counts as one. */
  lemma {:induction false} CapIs(limits: seq<CellLimit>, cell: string, i: nat)
    requires i <= |limits| && (i > 0 ==> limits[i - 1].cell == cell)
    requires forall j :: i <= j < |limits| ==> limits[j].cell != cell
    ensures Cap(limits, cell) == if i > 0 && limits[i - 1].maxConcurrent > 1 then limits[i - 1].maxConcurrent else 1
  {
    if i < |limits| { CapIs(limits[..|limits| - 1], cell, i); }
  }

  /** The jobs of a cell that are in state st among the first n listed, and how many there are. */
  ghost function Listed(jobs: seq<Job>, n: nat, cell: string, st: JobState): set<string>
    requires n <= |jobs|
  {
    set k | 0 <= k < n && jobs[k].cell == cell && jobs[k].state == st :: jobs[k].id
  }

  ghost function Count(jobs: seq<Job>, n: nat, cell: string, st: JobState): nat
    requires n <= |jobs|
  {
    |Listed(jobs, n, cell, st)|
  }

  /** The queued jobs of a cell that are in state st, and how many there are. */
  ghost function Queued(jobs: map<string, Entry>, queue: seq<string>, cell: string, st: JobState): set<string> {
    set id | id in queue && id in jobs && jobs[id].job.cell == cell && jobs[id].job.state == st
  }

  ghost function InCell(jobs: map<string, Entry>, queue: seq<string>, cell: string, st: JobState): nat {
    |Queued(jobs, queue, cell, st)|
  }

  /**
    The k-th listed job is dispatched: it is pending, and the running jobs of
    its cell together with the pending ones listed before it stay below the cap.
   */
  ghost predicate Chosen(active: seq<Job>, limits: seq<CellLimit>, k: nat)
    requires k < |active|
  {
    && active[k].state == Pending
    && Count(active, |active|, active[k].cell, Running) + Count(active, k, active[k].cell, Pending)
       < Cap(limits, active[k].cell)
  }

  // ---------------------------------------------------------------- counting lemmas

  /** `active` lists exactly the active jobs of the store, each once. */
  ghost predicate Lists(active: seq<Job>, jobs: map<string, Entry>, queue: seq<string>) {
    && (forall k :: 0 <= k < |active| ==>
          active[k].id in queue && active[k].id in jobs && jobs[active[k].id].job == active[k] &&
            Active(active[k].state))
    && (forall i, j :: 0 <= i < j < |active| ==> active[i].id != active[j].id)
    && (forall id :: id in queue && id in jobs && Active(jobs[id].job.state) ==>
          exists k :: 0 <= k < |active| && active[k].id == id)
  }

  lemma CountOfListing(active: seq<Job>, jobs: map<string, Entry>, queue: seq<string>, cell: string, st: JobState)
    requires Active(st) && Lists(active, jobs, queue)
    ensures Count(active, |active|, cell, st) == InCell(jobs, queue, cell, st)
  {
    forall id | id in Queued(jobs, queue, cell, st) ensures id in Listed(active, |active|, cell, st) {
      var k :| 0 <= k < |active| && active[k].id == id;
    }
    assert Listed(active, |active|, cell, st) == Queued(jobs, queue, cell, st);
  }

  lemma {:induction false} ListingFaithful(jobs: map<string, Entry>, queue: seq<string>)
    requires forall i, j :: 0 <= i < j < |queue| ==> queue[i] != queue[j]
    requires forall id :: id in queue ==> id in jobs && jobs[id].job.id == id
    ensures Lists(ActiveJobs(jobs, queue), jobs, queue)
  {
    if queue != [] {
      var n := |queue| - 1;
      ListingFaithful(jobs, queue[..n]);
      var rest, all := ActiveJobs(jobs, queue[..n]), ActiveJobs(jobs, queue);
      assert queue == queue[..n] + [queue[n]];
      if Active(jobs[queue[n]].job.state) {
        AppendLists(rest, jobs, queue[..n], queue[n]);
        assert all == rest + [jobs[queue[n]].job];
      }
    }
  }

  /** The listing is in submission order. */
  lemma {:induction false} ListingInOrder(jobs: map<string, Entry>, queue: seq<string>, i: nat, j: nat, a: nat, b: nat)
    requires forall l, m :: 0 <= l < m < |queue| ==> queue[l] != queue[m]
    requires forall id :: id in queue ==> id in jobs && jobs[id].job.id == id
    requires i < j < |queue| && a < |ActiveJobs(jobs, queue)| && b < |ActiveJobs(jobs, queue)|
    requires ActiveJobs(jobs, queue)[a].id == queue[i] && ActiveJobs(jobs, queue)[b].id == queue[j]
    ensures a < b
  {
    var n := |queue| - 1;
    var rest := ActiveJobs(jobs, queue[..n]);
    ListingFaithful(jobs, queue);
    ListingFaithful(jobs, queue[..n]);
    if b < |rest| {
      assert rest[b].id in queue[..n];
      if a < |rest| { ListingInOrder(jobs, queue[..n], i, j, a, b); }
    } else {
      assert a != b;
    }
  }

  lemma AppendLists(rest: seq<Job>, jobs: map<string, Entry>, queue: seq<string>, id: string)
    requires Lists(rest, jobs, queue) && id !in queue && id in jobs && jobs[id].job.id == id &&
      Active(jobs[id].job.state)
    ensures Lists(rest + [jobs[id].job], jobs, queue + [id])
  {
    var all := rest + [jobs[id].job];
    forall id' | id' in queue + [id] && id' in jobs && Active(jobs[id'].job.state)
      ensures exists k :: 0 <= k < |all| && all[k].id == id'
    {
      if id' == id {
        assert all[|rest|].id == id;
      } else {
        var k :| 0 <= k < |rest| && rest[k].id == id';
        assert all[k].id == id';
      }
    }
  }

  /** Claiming one pending job adds exactly one running job, in its own cell. */
  lemma InCellUpdate(jobs: map<string, Entry>, queue: seq<string>, id: string, e: Entry, cell: string)
    requires id in queue && id in jobs && jobs[id].job.state == Pending
    requires e.job.state == Running && e.job.cell == jobs[id].job.cell
    ensures InCell(jobs[id := e], queue, cell, Running) ==
            InCell(jobs, queue, cell, Running) + (if e.job.cell == cell then 1 else 0)
  {
    var before, after := Queued(jobs, queue, cell, Running), Queued(jobs[id := e], queue, cell, Running);
    assert after == if e.job.cell == cell then before + {id} else before;
  }

  // ---------------------------------------------------------------- the orchestrator

  function Get(m: map<string, nat>, cell: string): nat { if cell in m then m[cell] else 0 }

  /** cellLimit: a missing or zero entry of the map counts as one. */
  function LimitIn(limits: map<string, nat>, cell: string): nat {
    if Get(limits, cell) == 0 then 1 else Get(limits, cell)
  }

  /** Running jobs of a cell once p of its pending jobs have been offered. */
  function Filled(running: nat, p: nat, cap: nat): nat {
    if running >= cap then running else if running + p <= cap then running + p else cap
  }

  /** After offering the first i listed jobs, the running counts the loop keeps are those of the store. */
  ghost predicate CellsOk(active: seq<Job>, caps: seq<CellLimit>, queue: seq<string>, i: nat,
                          jobs: map<string, Entry>, running: map<string, nat>)
    requires i <= |active|
  {
    forall cell ::
      && Get(running, cell) == InCell(jobs, queue, cell, Running)
      && Get(running, cell) == Filled(Count(active, |active|, cell, Running), Count(active, i, cell, Pending),
        Cap(caps, cell))
  }

  /** After offering the first i listed jobs, exactly the chosen ones among them have been claimed. */
  ghost predicate ClaimedOk(active: seq<Job>, chosen: seq<bool>, jobs0: map<string, Entry>, node: string, i: nat,
                            jobs: map<string, Entry>, started: set<string>)
    requires i <= |active| == |chosen|
  {
    && jobs.Keys == jobs0.Keys
    && (forall k :: 0 <= k < |active| ==> (active[k].id in started <==> k < i && chosen[k]))
    && (forall id :: id in jobs0 && id !in started ==> jobs[id] == jobs0[id])
    && (forall id :: id in started ==>
          id in jobs0 && jobs0[id].job.state == Pending && jobs[id].job.state == Running && jobs[id].claimedBy == node)
  }

  ghost predicate DistinctIds(active: seq<Job>) {
    forall i, j :: 0 <= i < j < |active| ==> active[i].id != active[j].id
  }

  lemma ListedStep(active: seq<Job>, i: nat, cell: string, st: JobState)
    requires i < |active|
    ensures Listed(active, i + 1, cell, st) == Listed(active, i, cell, st)
              + (if active[i].cell == cell && active[i].state == st then {active[i].id} else {})
  {
  }

  lemma CountStep(active: seq<Job>, i: nat, cell: string, st: JobState)
    requires i < |active| && DistinctIds(active)
    ensures Count(active, i + 1, cell, st) ==
            Count(active, i, cell, st) + (if active[i].cell == cell && active[i].state == st then 1 else 0)
  {
    ListedStep(active, i, cell, st);
    assert active[i].id !in Listed(active, i, cell, st);
  }

  /** The loop's guard is the choice rule. */
  lemma GuardIsChoice(active: seq<Job>, caps: seq<CellLimit>, queue: seq<string>, i: nat,
                      jobs: map<string, Entry>, running: map<string, nat>)
    requires i < |active| && CellsOk(active, caps, queue, i, jobs, running)
    ensures Chosen(active, caps, i) <==>
            active[i].state == Pending && Get(running, active[i].cell) < Cap(caps, active[i].cell)
  {
  }

  lemma SkipCells(active: seq<Job>, caps: seq<CellLimit>, queue: seq<string>, i: nat,
                  jobs: map<string, Entry>, running: map<string, nat>)
    requires i < |active| && DistinctIds(active) && CellsOk(active, caps, queue, i, jobs, running) &&
      !Chosen(active, caps, i)
    ensures CellsOk(active, caps, queue, i + 1, jobs, running)
  {
    forall cell ensures Get(running, cell) ==
        Filled(Count(active, |active|, cell, Running), Count(active, i + 1, cell, Pending), Cap(caps, cell)) {
      CountStep(active, i, cell, Pending);
    }
  }

  lemma TakeCells(active: seq<Job>, caps: seq<CellLimit>, queue: seq<string>, i: nat,
                  jobs: map<string, Entry>, running: map<string, nat>, e: Entry)
    requires i < |active| && DistinctIds(active) && CellsOk(active, caps, queue, i, jobs, running) &&
      Chosen(active, caps, i)
    requires active[i].id in queue && active[i].id in jobs && jobs[active[i].id].job == active[i]
    requires e.job.state == Running && e.job.cell == active[i].cell
    ensures CellsOk(active, caps, queue, i + 1, jobs[active[i].id := e],
                    running[active[i].cell := Get(running, active[i].cell) + 1])
  {
    var running' := running[active[i].cell := Get(running, active[i].cell) + 1];
    forall cell
      ensures Get(running', cell) == InCell(jobs[active[i].id := e], queue, cell, Running)
      ensures Get(running', cell) ==
              Filled(Count(active, |active|, cell, Running), Count(active, i + 1, cell, Pending), Cap(caps, cell))
    {
      CountStep(active, i, cell, Pending);
      InCellUpdate(jobs, queue, active[i].id, e, cell);
    }
  }

  lemma TakeClaims(active: seq<Job>, chosen: seq<bool>, jobs0: map<string, Entry>, queue: seq<string>, node: string,
                   i: nat, jobs: map<string, Entry>, started: set<string>, e: Entry)
    requires i < |active| == |chosen| && ClaimedOk(active, chosen, jobs0, node, i, jobs, started) && chosen[i]
    requires Lists(active, jobs0, queue) && active[i].state == Pending && e.job.state == Running && e.claimedBy == node
    ensures ClaimedOk(active, chosen, jobs0, node, i + 1, jobs[active[i].id := e], started + {active[i].id})
  {
  }

  /** The pending jobs of a cell that were submitted before the i-th. */
  ghost function Ahead(jobs: map<string, Entry>, queue: seq<string>, i: nat, cell: string): set<string>
    requires i <= |queue|
  {
    set l | 0 <= l < i && queue[l] in jobs && jobs[queue[l]].job.cell == cell && jobs[queue[l]].job.state == Pending ::
      queue[l]
  }

  /** The i-th submitted job starts: the running jobs of its cell and the pending ones ahead of it are below the cap. */
  ghost predicate Starts(jobs: map<string, Entry>, queue: seq<string>, caps: seq<CellLimit>, i: nat)
    requires i < |queue|
  {
    && queue[i] in jobs && jobs[queue[i]].job.state == Pending
    && var cell := jobs[queue[i]].job.cell;
       InCell(jobs, queue, cell, Running) + |Ahead(jobs, queue, i, cell)| < Cap(caps, cell)
  }

  lemma AheadIsListed(jobs: map<string, Entry>, queue: seq<string>, i: nat, k: nat, cell: string)
    requires forall l, m :: 0 <= l < m < |queue| ==> queue[l] != queue[m]
    requires forall id :: id in queue ==> id in jobs && jobs[id].job.id == id
    requires i < |queue| && k < |ActiveJobs(jobs, queue)| && ActiveJobs(jobs, queue)[k].id == queue[i]
    ensures Listed(ActiveJobs(jobs, queue), k, cell, Pending) == Ahead(jobs, queue, i, cell)
  {
    var active := ActiveJobs(jobs, queue);
    ListingFaithful(jobs, queue);
    forall id | id in Ahead(jobs, queue, i, cell) ensures id in Listed(active, k, cell, Pending) {
      var l :| 0 <= l < i && queue[l] == id;
      var a :| 0 <= a < |active| && active[a].id == id;
      ListingInOrder(jobs, queue, l, i, a, k);
    }
    forall id | id in Listed(active, k, cell, Pending) ensures id in Ahead(jobs, queue, i, cell) {
      var a :| 0 <= a < k && active[a].id == id && active[a].cell == cell && active[a].state == Pending;
      var l :| 0 <= l < |queue| && queue[l] == id;
      if l > i { ListingInOrder(jobs, queue, i, l, k, a); }
    }
  }

  /** A listed job is chosen exactly when it starts by its place in the queue. */
  lemma ChosenIsStarts(jobs: map<string, Entry>, queue: seq<string>, caps: seq<CellLimit>, i: nat, k: nat)
    requires forall l, m :: 0 <= l < m < |queue| ==> queue[l] != queue[m]
    requires forall id :: id in queue ==> id in jobs && jobs[id].job.id == id
    requires i < |queue| && k < |ActiveJobs(jobs, queue)| && ActiveJobs(jobs, queue)[k].id == queue[i]
    ensures Chosen(ActiveJobs(jobs, queue), caps, k) <==> Starts(jobs, queue, caps, i)
  {
    var active := ActiveJobs(jobs, queue);
    ListingFaithful(jobs, queue);
    AheadIsListed(jobs, queue, i, k, active[k].cell);
    CountOfListing(active, jobs, queue, active[k].cell, Running);
  }

  ghost function ChosenIds(active: seq<Job>, caps: seq<CellLimit>): set<string> {
    set k | 0 <= k < |active| && Chosen(active, caps, k) :: active[k].id
  }

  ghost function Starting(jobs: map<string, Entry>, queue: seq<string>, caps: seq<CellLimit>): set<string> {
    set i | 0 <= i < |queue| && Starts(jobs, queue, caps, i) :: queue[i]
  }

  lemma ChosenAreStarting(jobs: map<string, Entry>, queue: seq<string>, caps: seq<CellLimit>)
    requires forall l, m :: 0 <= l < m < |queue| ==> queue[l] != queue[m]
    requires forall id :: id in queue ==> id in jobs && jobs[id].job.id == id
    ensures ChosenIds(ActiveJobs(jobs, queue), caps) == Starting(jobs, queue, caps)
  {
    var active := ActiveJobs(jobs, queue);
    ListingFaithful(jobs, queue);
    forall k | 0 <= k < |active| && Chosen(active, caps, k)
      ensures exists i :: 0 <= i < |queue| && Starts(jobs, queue, caps, i) && queue[i] == active[k].id
    {
      var i :| 0 <= i < |queue| && queue[i] == active[k].id;
      ChosenIsStarts(jobs, queue, caps, i, k);
    }
    forall i | 0 <= i < |queue| && Starts(jobs, queue, caps, i)
      ensures exists k :: 0 <= k < |active| && Chosen(active, caps, k) && active[k].id == queue[i]
    {
      assert queue[i] in queue;
      var k :| 0 <= k < |active| && active[k].id == queue[i];
      ChosenIsStarts(jobs, queue, caps, i, k);
    }
  }

  /**
    A dispatch round from jobs0 to jobs: every cell ends with as many running
    jobs as its cap and its pending jobs allow, never fewer than before; the
    jobs claimed are the first submitted ones of each cell, and nothing else changed.
   */
  ghost predicate Round(jobs0: map<string, Entry>, queue: seq<string>, caps: seq<CellLimit>, node: string,
                        jobs: map<string, Entry>, started: set<string>)
  {
    && jobs.Keys == jobs0.Keys
    && (forall cell ::
          var running, pending := InCell(jobs0, queue, cell, Running), InCell(jobs0, queue, cell, Pending);
          InCell(jobs, queue, cell, Running) == Max(running, Min(Cap(caps, cell), running + pending)))
    && (forall id :: id in jobs0 ==>
          if id in started then jobs0[id].job.state == Pending && jobs[id].job.state == Running &&
              jobs[id].claimedBy == node
          else jobs[id] == jobs0[id])
    && started == Starting(jobs0, queue, caps)
  }

  lemma RoundCounts(jobs0: map<string, Entry>, queue: seq<string>, caps: seq<CellLimit>,
                    jobs: map<string, Entry>, running: map<string, nat>, cell: string)
    requires Lists(ActiveJobs(jobs0, queue), jobs0, queue)
    requires CellsOk(ActiveJobs(jobs0, queue), caps, queue, |ActiveJobs(jobs0, queue)|, jobs, running)
    ensures var running, pending := InCell(jobs0, queue, cell, Running), InCell(jobs0, queue, cell, Pending);
            InCell(jobs, queue, cell, Running) == Max(running, Min(Cap(caps, cell), running + pending))
  {
    var active := ActiveJobs(jobs0, queue);
    assert active[..|active|] == active;
    CountOfListing(active, jobs0, queue, cell, Running);
    CountOfListing(active, jobs0, queue, cell, Pending);
  }

  lemma RoundStarted(active: seq<Job>, chosen: seq<bool>, jobs0: map<string, Entry>, queue: seq<string>, node: string,
                     jobs: map<string, Entry>, started: set<string>)
    requires Lists(active, jobs0, queue) && (forall id :: id in jobs0 ==> id in queue) && |chosen| == |active|
    requires ClaimedOk(active, chosen, jobs0, node, |active|, jobs, started)
    ensures started == set k | 0 <= k < |active| && chosen[k] :: active[k].id
  {
    forall id | id in started ensures exists k :: 0 <= k < |active| && chosen[k] && active[k].id == id {
      var k :| 0 <= k < |active| && active[k].id == id;
    }
  }

  lemma RoundDone(jobs0: map<string, Entry>, queue: seq<string>, caps: seq<CellLimit>, chosen: seq<bool>, node: string,
                  jobs: map<string, Entry>, running: map<string, nat>, started: set<string>)
    requires Lists(ActiveJobs(jobs0, queue), jobs0, queue)
    requires forall id :: id in jobs0 ==> id in queue
    requires forall l, m :: 0 <= l < m < |queue| ==> queue[l] != queue[m]
    requires forall id :: id in queue ==> id in jobs0 && jobs0[id].job.id == id
    requires CellsOk(ActiveJobs(jobs0, queue), caps, queue, |ActiveJobs(jobs0, queue)|, jobs, running)
    requires ChoosesBy(ActiveJobs(jobs0, queue), caps, chosen)
    requires ClaimedOk(ActiveJobs(jobs0, queue), chosen, jobs0, node, |ActiveJobs(jobs0, queue)|, jobs, started)
    ensures Round(jobs0, queue, caps, node, jobs, started)
  {
    var active := ActiveJobs(jobs0, queue);
    forall cell ensures
        var running, pending := InCell(jobs0, queue, cell, Running), InCell(jobs0, queue, cell, Pending);
        InCell(jobs, queue, cell, Running) == Max(running, Min(Cap(caps, cell), running + pending)) {
      RoundCounts(jobs0, queue, caps, jobs, running, cell);
    }
    RoundStarted(active, chosen, jobs0, queue, node, jobs, started);
    assert started == ChosenIds(active, caps);
    ChosenAreStarting(jobs0, queue, caps);
  }

  ghost predicate ChoosesBy(active: seq<Job>, caps: seq<CellLimit>, chosen: seq<bool>) {
    |chosen| == |active| && forall k :: 0 <= k < |active| ==> (chosen[k] <==> Chosen(active, caps, k))
  }

  ghost predicate StoreOk(s: Store) {
    JobLeases.QueueOk(s) && JobLeases.ClaimsOk(s)
  }

  /** Nobody holds a pending job, so acquiring it succeeds. */
  lemma AcquirePending(s: Store, id: string, node: string, ttl: int, now: int)
    requires id in s.jobs && s.jobs[id].job.state == Pending && s.jobs[id].claimedBy == "" && id != "" &&
      node != "" && ttl > 0
    ensures Apply(s, Acquire(id, node, ttl), now) == (Store(s.jobs[id := Claim(s.jobs[id], node, ttl, now)], s.queue),
      Accepted)
  {
  }

  /** The state of a dispatch round: the job store, the loop's per-cell counts and the jobs started so far. */
  datatype Dispatch = Dispatch(store: Store, running: map<string, nat>, started: seq<string>)

  /** Offering one listed job. */
  function Offer(d: Dispatch, j: Job, limits: map<string, nat>, node: string, ttl: int, clock: nat -> int): Dispatch {
    if j.state != Pending || Get(d.running, j.cell) >= LimitIn(limits, j.cell) then d
    else
      var (store, reply) := Apply(d.store, Acquire(j.id, node, ttl), clock(|d.started|));
      if reply != Accepted then d.(store := store)
      else Dispatch(store, d.running[j.cell := Get(d.running, j.cell) + 1], d.started + [j.id])
  }

  /** Offering the first i listed jobs. */
  function OfferAll(d: Dispatch, jobs: seq<Job>, i: nat, limits: map<string, nat>, node: string, ttl: int,
      clock: nat -> int): Dispatch
    requires i <= |jobs|
  {
    if i == 0 then d else Offer(OfferAll(d, jobs, i - 1, limits, node, ttl, clock), jobs[i - 1], limits, node, ttl,
        clock)
  }

  ghost function Ids(s: seq<string>): set<string> { set id | id in s }

  ghost predicate Distinct(s: seq<string>) {
    forall i, j :: 0 <= i < j < |s| ==> s[i] != s[j]
  }

  /** The dispatch loop's invariant, on values. */
  ghost predicate Offered(active: seq<Job>, caps: seq<CellLimit>, chosen: seq<bool>, s: Store, node: string, i: nat,
      d: Dispatch)
    requires i <= |active| == |chosen|
  {
    && d.store.queue == s.queue && Distinct(d.started)
    && CellsOk(active, caps, s.queue, i, d.store.jobs, d.running)
    && ClaimedOk(active, chosen, s.jobs, node, i, d.store.jobs, Ids(d.started))
  }

  lemma OfferBegins(active: seq<Job>, caps: seq<CellLimit>, chosen: seq<bool>, node: string, s: Store,
      running: map<string, nat>)
    requires Lists(active, s.jobs, s.queue) && |chosen| == |active|
    requires forall cell :: Get(running, cell) == Count(active, |active|, cell, Running)
    ensures Offered(active, caps, chosen, s, node, 0, Dispatch(s, running, []))
  {
    assert Ids([]) == {};
    forall cell ensures InCell(s.jobs, s.queue, cell, Running) == Count(active, |active|, cell, Running)
                ensures Count(active, 0, cell, Pending) == 0 {
      CountOfListing(active, s.jobs, s.queue, cell, Running);
      assert Listed(active, 0, cell, Pending) == {};
    }
  }

  lemma AppendId(ids: seq<string>, id: string)
    requires Distinct(ids) && id !in Ids(ids)
    ensures Distinct(ids + [id]) && Ids(ids + [id]) == Ids(ids) + {id}
  {
  }

  lemma SkipKeeps(active: seq<Job>, caps: seq<CellLimit>, chosen: seq<bool>, s: Store, node: string, i: nat,
      d: Dispatch)
    requires i < |active| && DistinctIds(active)
    requires ChoosesBy(active, caps, chosen) && Offered(active, caps, chosen, s, node, i, d)
    requires active[i].state != Pending || Get(d.running, active[i].cell) >= Cap(caps, active[i].cell)
    ensures Offered(active, caps, chosen, s, node, i + 1, d)
  {
    GuardIsChoice(active, caps, s.queue, i, d.store.jobs, d.running);
    assert !chosen[i];
    SkipCells(active, caps, s.queue, i, d.store.jobs, d.running);
  }

  lemma TakeKeeps(active: seq<Job>, caps: seq<CellLimit>, chosen: seq<bool>, s: Store, node: string, i: nat,
      d: Dispatch, e: Entry)
    requires i < |active| && Lists(active, s.jobs, s.queue)
    requires ChoosesBy(active, caps, chosen) && Offered(active, caps, chosen, s, node, i, d)
    requires active[i].state == Pending && Get(d.running, active[i].cell) < Cap(caps, active[i].cell)
    requires e.job.state == Running && e.claimedBy == node && e.job.cell == active[i].cell
    ensures d.store.jobs[active[i].id] == s.jobs[active[i].id]
    ensures Offered(active, caps, chosen, s, node, i + 1,
                    Dispatch(Store(d.store.jobs[active[i].id := e], s.queue),
                             d.running[active[i].cell := Get(d.running, active[i].cell) + 1],
                             d.started + [active[i].id]))
  {
    var id := active[i].id;
    GuardIsChoice(active, caps, s.queue, i, d.store.jobs, d.running);
    assert chosen[i] && id !in Ids(d.started);
    TakeCells(active, caps, s.queue, i, d.store.jobs, d.running, e);
    TakeClaims(active, chosen, s.jobs, s.queue, node, i, d.store.jobs, Ids(d.started), e);
    AppendId(d.started, id);
  }

  lemma OfferKeeps(active: seq<Job>, caps: seq<CellLimit>, chosen: seq<bool>, s: Store, i: nat, d: Dispatch,
                   limits: map<string, nat>, node: string, ttl: int, clock: nat -> int)
    requires i < |active| && node != "" && ttl > 0 && LimitIn(limits, active[i].cell) == Cap(caps, active[i].cell)
    requires Lists(active, s.jobs, s.queue) && StoreOk(s)
    requires ChoosesBy(active, caps, chosen) && Offered(active, caps, chosen, s, node, i, d)
    ensures Offered(active, caps, chosen, s, node, i + 1, Offer(d, active[i], limits, node, ttl, clock))
  {
    var j := active[i];
    if j.state != Pending || Get(d.running, j.cell) >= LimitIn(limits, j.cell) {
      assert Offer(d, j, limits, node, ttl, clock) == d;
      SkipKeeps(active, caps, chosen, s, node, i, d);
    } else {
      OfferTakes(active, caps, chosen, s, i, d, limits, node, ttl, clock);
    }
  }

  lemma OfferTakes(active: seq<Job>, caps: seq<CellLimit>, chosen: seq<bool>, s: Store, i: nat, d: Dispatch,
                   limits: map<string, nat>, node: string, ttl: int, clock: nat -> int)
    requires i < |active| && node != "" && ttl > 0 && LimitIn(limits, active[i].cell) == Cap(caps, active[i].cell)
    requires Lists(active, s.jobs, s.queue) && StoreOk(s)
    requires ChoosesBy(active, caps, chosen) && Offered(active, caps, chosen, s, node, i, d)
    requires active[i].state == Pending && Get(d.running, active[i].cell) < LimitIn(limits, active[i].cell)
    ensures Offered(active, caps, chosen, s, node, i + 1, Offer(d, active[i], limits, node, ttl, clock))
  {
    var e := Claim(s.jobs[active[i].id], node, ttl, clock(|d.started|));
    TakeKeeps(active, caps, chosen, s, node, i, d, e);
    OfferIsTake(active, caps, chosen, s, i, d, limits, node, ttl, clock);
  }

  lemma OfferIsTake(active: seq<Job>, caps: seq<CellLimit>, chosen: seq<bool>, s: Store, i: nat, d: Dispatch,
                    limits: map<string, nat>, node: string, ttl: int, clock: nat -> int)
    requires i < |active| == |chosen| && node != "" && ttl > 0 && StoreOk(s) && Lists(active, s.jobs, s.queue)
    requires d.store.queue == s.queue && active[i].id in d.store.jobs
    requires d.store.jobs[active[i].id] == s.jobs[active[i].id]
    requires active[i].state == Pending && Get(d.running, active[i].cell) < LimitIn(limits, active[i].cell)
    ensures Offer(d, active[i], limits, node, ttl, clock)
         == Dispatch(Store(d.store.jobs[active[i].id := Claim(s.jobs[active[i].id], node, ttl, clock(|d.started|))],
                           s.queue),
                     d.running[active[i].cell := Get(d.running, active[i].cell) + 1], d.started + [active[i].id])
  {
    AcquireOffered(d, active[i], limits, node, ttl, clock);
  }

  lemma AcquireOffered(d: Dispatch, j: Job, limits: map<string, nat>, node: string, ttl: int, clock: nat -> int)
    requires j.state == Pending && Get(d.running, j.cell) < LimitIn(limits, j.cell) && j.id in d.store.jobs
    requires d.store.jobs[j.id].job.state == Pending && d.store.jobs[j.id].claimedBy == ""
    requires j.id != "" && node != "" && ttl > 0
    ensures Offer(d, j, limits, node, ttl, clock) ==
            Dispatch(Store(d.store.jobs[j.id := Claim(d.store.jobs[j.id], node, ttl, clock(|d.started|))],
                           d.store.queue),
                     d.running[j.cell := Get(d.running, j.cell) + 1], d.started + [j.id])
  {
    AcquirePending(d.store, j.id, node, ttl, clock(|d.started|));
  }

  /** The per-cell counts the first loop of RunOnce builds. */
  function RunningMap(active: seq<Job>): map<string, nat> {
    if active == [] then map[]
    else
      var rest, j := RunningMap(active[..|active| - 1]), active[|active| - 1];
      if j.state == Running then rest[j.cell := Get(rest, j.cell) + 1] else rest
  }

  lemma {:induction false} RunningMapCounts(active: seq<Job>, cell: string)
    requires DistinctIds(active)
    ensures Get(RunningMap(active), cell) == Count(active, |active|, cell, Running)
  {
    if active != [] {
      var n := |active| - 1;
      RunningMapCounts(active[..n], cell);
      CountStep(active, n, cell, Running);
      assert Listed(active[..n], n, cell, Running) == Listed(active, n, cell, Running);
    }
  }

  /** What RunOnce computes from the store it finds. */
  function RoundOf(s: Store, limits: map<string, nat>, node: string, ttl: int, clock: nat -> int): Dispatch {
    var active := ActiveJobs(s.jobs, s.queue);
    OfferAll(Dispatch(s, RunningMap(active), []), active, |active|, limits, node, ttl, clock)
  }

  /** RunOnce keeps the store well formed. */
  lemma {:induction false} OffersStoreOk(d: Dispatch, jobs: seq<Job>, i: nat, limits: map<string, nat>, node: string,
      ttl: int, clock: nat -> int)
    requires StoreOk(d.store) && node != "" && i <= |jobs|
    ensures StoreOk(OfferAll(d, jobs, i, limits, node, ttl, clock).store)
  {
    if i > 0 {
      OffersStoreOk(d, jobs, i - 1, limits, node, ttl, clock);
      var e := OfferAll(d, jobs, i - 1, limits, node, ttl, clock);
      JobLeases.StepOk(e.store, Acquire(jobs[i - 1].id, node, ttl), clock(|e.started|));
    }
  }

  /** A property that every offer keeps holds after any number of offers. */
  lemma {:induction false} OfferInduction(P: (nat, Dispatch) -> bool, d: Dispatch, jobs: seq<Job>, i: nat,
                                          limits: map<string, nat>, node: string, ttl: int, clock: nat -> int)
    requires i <= |jobs| && P(0, d)
    requires forall k: nat, e :: k < |jobs| && P(k, e) ==> P(k + 1, Offer(e, jobs[k], limits, node, ttl, clock))
    ensures P(i, OfferAll(d, jobs, i, limits, node, ttl, clock))
  {
    if i > 0 { OfferInduction(P, d, jobs, i - 1, limits, node, ttl, clock); }
  }

  ghost function Invariant(active: seq<Job>, caps: seq<CellLimit>, chosen: seq<bool>, s: Store, node: string)
    : (nat, Dispatch) -> bool
    requires |active| == |chosen|
  {
    (k: nat, d: Dispatch) => k <= |active| && Offered(active, caps, chosen, s, node, k, d)
  }

  lemma OfferKeepsInvariant(active: seq<Job>, caps: seq<CellLimit>, chosen: seq<bool>, s: Store, i: nat, d: Dispatch,
                            limits: map<string, nat>, node: string, ttl: int, clock: nat -> int)
    requires i < |active| && node != "" && ttl > 0 && LimitIn(limits, active[i].cell) == Cap(caps, active[i].cell)
    requires Lists(active, s.jobs, s.queue) && StoreOk(s)
    requires ChoosesBy(active, caps, chosen) && Invariant(active, caps, chosen, s, node)(i, d)
    ensures Invariant(active, caps, chosen, s, node)(i + 1, Offer(d, active[i], limits, node, ttl, clock))
  {
    OfferKeeps(active, caps, chosen, s, i, d, limits, node, ttl, clock);
  }

  lemma AllOffered(active: seq<Job>, s: Store, d: Dispatch, caps: seq<CellLimit>, chosen: seq<bool>,
                   limits: map<string, nat>, node: string, ttl: int, clock: nat -> int)
    requires StoreOk(s) && node != "" && ttl > 0 && forall cell :: LimitIn(limits, cell) == Cap(caps, cell)
    requires Lists(active, s.jobs, s.queue) && ChoosesBy(active, caps, chosen)
    requires Invariant(active, caps, chosen, s, node)(0, d)
    ensures Invariant(active, caps, chosen, s, node)(|active|, OfferAll(d, active, |active|, limits, node, ttl, clock))
  {
    var P := Invariant(active, caps, chosen, s, node);
    forall k: nat, e | k < |active| && P(k, e) ensures P(k + 1, Offer(e, active[k], limits, node, ttl, clock)) {
      OfferKeepsInvariant(active, caps, chosen, s, k, e, limits, node, ttl, clock);
    }
    OfferInduction(P, d, active, |active|, limits, node, ttl, clock);
  }

  /** RunOnce is a dispatch round. */
  lemma RunOnceIsRound(s: Store, caps: seq<CellLimit>, limits: map<string, nat>, node: string, ttl: int,
      clock: nat -> int)
    requires StoreOk(s) && node != "" && ttl > 0 && forall cell :: LimitIn(limits, cell) == Cap(caps, cell)
    ensures var d := RoundOf(s, limits, node, ttl, clock);
            Round(s.jobs, s.queue, caps, node, d.store.jobs, Ids(d.started)) && d.store.queue == s.queue &&
              Distinct(d.started)
  {
    var active := ActiveJobs(s.jobs, s.queue);
    ListingFaithful(s.jobs, s.queue);
    forall cell ensures Get(RunningMap(active), cell) == Count(active, |active|, cell, Running) {
      RunningMapCounts(active, cell);
    }
    var chosen := seq(|active|, k requires 0 <= k < |active| => Chosen(active, caps, k));
    OfferBegins(active, caps, chosen, node, s, RunningMap(active));
    AllOffered(active, s, Dispatch(s, RunningMap(active), []), caps, chosen, limits, node, ttl, clock);
    var d := RoundOf(s, limits, node, ttl, clock);
    RoundDone(s.jobs, s.queue, caps, chosen, node, d.store.jobs, d.running, Ids(d.started));
  }

  /** RunOnce's first loop: the running jobs per cell. */
  method CountRunning(active: seq<Job>) returns (running: map<string, nat>)
    ensures running == RunningMap(active)
  {
    running := map[];
    for i := 0 to |active|
      invariant running == RunningMap(active[..i])
    {
      assert active[..i + 1][..i] == active[..i];
      if active[i].state == Running {
        running := running[active[i].cell := Get(running, active[i].cell) + 1];
      }
    }
    assert active[..|active|] == active;
  }

  class Orchestrator {
    const store: InMemoryJobStore
    const nodeID: string
    const claimTTL: int
    const limits: map<string, nat>
    var inflight: set<string>
    ghost const configured: seq<CellLimit>

    ghost predicate Valid() {
      && nodeID != "" && claimTTL > 0
      && (forall cell :: LimitIn(limits, cell) == Cap(configured, cell))
    }

    /** NewFleetOrchestratorWithStore, which rejects an empty node ID. */
    constructor (store: InMemoryJobStore, nodeID: string, caps: seq<CellLimit>, ttl: int)
      requires nodeID != ""
      ensures Valid() && this.store == store && this.nodeID == nodeID && configured == caps && inflight == {}
      ensures claimTTL == if ttl > 0 then ttl else 30_000_000_000
    {
      this.store := store;
      this.nodeID := nodeID;
      this.claimTTL := if ttl <= 0 then 30_000_000_000 else ttl;
      this.configured := caps;
      this.inflight := {};
      var table: map<string, nat> := map[];
      for i := 0 to |caps|
        invariant forall cell :: LimitIn(table, cell) == Cap(caps[..i], cell)
      {
        assert caps[..i + 1][..i] == caps[..i];
        var max := caps[i].maxConcurrent;
        if max <= 0 {
          max := 1;
        }
        table := table[caps[i].cell := max];
      }
      assert caps[..|caps|] == caps;
      this.limits := table;
    }

    method RunOnce(clock: nat -> int) returns (dispatched: nat)
      modifies this`inflight, store`jobs
      ensures var round := RoundOf(old(store.Model()), limits, nodeID, claimTTL, clock);
              && store.Model() == round.store
              && dispatched == |round.started| && inflight == old(inflight) + Ids(round.started)
    {
      var active := store.ListActiveJobs();
      var running: map<string, nat> := CountRunning(active);
      ghost var d0 := Dispatch(store.Model(), running, []);
      ghost var started := [];
      dispatched := 0;
      for i := 0 to |active|
        invariant store.queue == old(store.queue)
        invariant Dispatch(store.Model(), running, started) == OfferAll(d0, active, i, limits, nodeID, claimTTL, clock)
        invariant dispatched == |started| && inflight == old(inflight) + Ids(started)
      {
        var j := active[i];
        if j.state != Pending || Get(running, j.cell) >= LimitIn(limits, j.cell) {
          continue;
        }
        var reply := store.AcquireJob(j.id, nodeID, claimTTL, clock(dispatched));
        if reply == Accepted {
          running := running[j.cell := Get(running, j.cell) + 1];
          dispatched := dispatched + 1;
          inflight := inflight + {j.id};
          started := started + [j.id];
        }
      }
    }
  }
}
