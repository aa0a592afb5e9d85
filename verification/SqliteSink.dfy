/**
  The SQLite billing sink's tables: the raw event log and the aggregated
  counters, written in one transaction per batch, and the queries over them.
 */
module SqliteSink {
  import opened Wrappers

  type Tenant = string
  type Bucket = string
  type Dimension = string
  type Instant = int

  datatype Key = Key(tenant: Tenant, bucket: Bucket, dimension: Dimension)

  datatype Event = Event(key: Key, delta: nat, observedAt: Instant)

  datatype Counter = Counter(key: Key, total: nat)

  /** The two tables; counters has one row per key. */
  datatype Tables = Tables(events: seq<Event>, counters: seq<Counter>)

  /** INSERT ... ON CONFLICT DO UPDATE SET total = total + excluded.total. */
  function Upsert(counters: seq<Counter>, e: Event): seq<Counter> {
    if counters == [] then [Counter(e.key, e.delta)]
    else if counters[0].key == e.key then [Counter(e.key, counters[0].total + e.delta)] + counters[1..]
    else [counters[0]] + Upsert(counters[1..], e)
  }

  function Written(t: Tables, e: Event): Tables { Tables(t.events + [e], Upsert(t.counters, e)) }

  function WrittenAll(t: Tables, batch: seq<Event>): Tables {
    if batch == [] then t else Written(WrittenAll(t, batch[..|batch| - 1]), batch[|batch| - 1])
  }

  // ---------------------------------------------------------------- the sums the queries compute

  /** SUM(delta) over the logged events a filter selects. */
  function EventSum(events: seq<Event>, select: Event -> bool): nat {
    if events == [] then 0
    else
      var last := events[|events| - 1];
      EventSum(events[..|events| - 1], select) + (if select(last) then last.delta else 0)
  }

  /** SUM(total) over the counters whose key a filter selects. */
  function CounterSum(counters: seq<Counter>, select: Key -> bool): nat {
    if counters == [] then 0
    else (if select(counters[0].key) then counters[0].total else 0) + CounterSum(counters[1..], select)
  }

  function OfKey(k: Key): Key -> bool { (k': Key) => k' == k }

  function OfTenant(tenant: Tenant, d: Dimension): Key -> bool { (k: Key) => k.tenant == tenant && k.dimension == d }

  function Within(tenant: Tenant, d: Dimension, start: Instant, end: Instant): Event -> bool {
    (e: Event) => e.key.tenant == tenant && e.key.dimension == d && start <= e.observedAt < end
  }

  function ByKey(select: Key -> bool): Event -> bool { (e: Event) => select(e.key) }

  /** SELECT dimension, SUM(delta) ... GROUP BY dimension: one entry per dimension seen in the window. */
  function Usage(events: seq<Event>, tenant: Tenant, start: Instant, end: Instant): map<Dimension, nat> {
    map d | d in DimensionsIn(events, tenant, start, end) :: EventSum(events, Within(tenant, d, start, end))
  }

  function DimensionsIn(events: seq<Event>, tenant: Tenant, start: Instant, end: Instant): set<Dimension> {
    set e | e in events && e.key.tenant == tenant && start <= e.observedAt < end :: e.key.dimension
  }

  function Entry(usage: map<Dimension, nat>, d: Dimension): nat { if d in usage then usage[d] else 0 }

  // ---------------------------------------------------------------- the sink

  class Sink {
    var tables: Tables

    constructor ()
      ensures tables == Tables([], []) && Reconciled(tables)
    {
      tables := Tables([], []);
      CountersAreTheLog([]);
    }

    /** persist: one transaction; `failAt` is the index of the event whose insert or upsert fails, if any. */
    method Persist(batch: seq<Event>, failAt: Option<nat>, commitOk: bool) returns (ok: bool)
      modifies this
      ensures ok <==> commitOk && (failAt.None? || failAt.value >= |batch|)
      ensures tables == if ok then WrittenAll(old(tables), batch) else old(tables)
      ensures tables.events == old(tables).events + (if ok then batch else [])
      ensures Reconciled(old(tables)) ==> Reconciled(tables)
    {
      var tx := tables;
      for i := 0 to |batch|
        invariant tx == WrittenAll(old(tables), batch[..i]) && tables == old(tables)
        invariant failAt.Some? ==> failAt.value >= i
      {
        if failAt == Some(i) { return false; }
        assert batch[..i + 1][..i] == batch[..i];
        tx := Written(tx, batch[i]);
      }
      if !commitOk { return false; }
      assert batch[..|batch|] == batch;
      if Reconciled(tables) { BatchReconciles(tables, batch); }
      WrittenAppends(tables, batch);
      tables := tx;
      ok := true;
    }

    /** Total: the counter row of a key, 0 without one. */
    method Total(k: Key) returns (total: nat)
      requires Reconciled(tables)
      ensures total == EventSum(tables.events, ByKey(OfKey(k)))
    {
      Aggregates(tables, OfKey(k));
      total := 0;
      for i := 0 to |tables.counters|
        invariant total == 0 && forall j :: 0 <= j < i ==> tables.counters[j].key != k
      {
        if tables.counters[i].key == k {
          OnlyRow(tables.counters, i);
          return tables.counters[i].total;
        }
      }
      assert k !in Keys(tables.counters);
      NoRow(tables.counters, k);
    }

    /** TenantTotal: the sum over every bucket of a tenant. */
    method TenantTotal(tenant: Tenant, d: Dimension) returns (total: nat)
      requires Reconciled(tables)
      ensures total == EventSum(tables.events, ByKey(OfTenant(tenant, d)))
    {
      Aggregates(tables, OfTenant(tenant, d));
      total := 0;
      var rows := tables.counters;
      assert rows[0..] == rows;
      for i := 0 to |rows|
        invariant total + CounterSum(rows[i..], OfTenant(tenant, d)) == CounterSum(rows, OfTenant(tenant, d))
      {
        if rows[i].key.tenant == tenant && rows[i].key.dimension == d { total := total + rows[i].total; }
      }
    }
  }

  // ---------------------------------------------------------------- the counters are the log

  function Keys(counters: seq<Counter>): set<Key> { set c | c in counters :: c.key }

  /** One row per key. */
  predicate Distinct(counters: seq<Counter>) {
    counters == [] || (counters[0].key !in Keys(counters[1..]) && Distinct(counters[1..]))
  }

  /** The counters are the log, aggregated: whatever set of keys is summed, and no row without an event. */
  ghost predicate Reconciled(t: Tables) {
    && Distinct(t.counters)
    && (forall select: Key -> bool :: CounterSum(t.counters, select) == EventSum(t.events, ByKey(select)))
    && Keys(t.counters) == set e | e in t.events :: e.key
  }

  lemma Aggregates(t: Tables, select: Key -> bool)
    requires Reconciled(t)
    ensures CounterSum(t.counters, select) == EventSum(t.events, ByKey(select))
  {}

  lemma {:induction false} UpsertSum(counters: seq<Counter>, e: Event, select: Key -> bool)
    ensures CounterSum(Upsert(counters, e), select)
         == CounterSum(counters, select) + (if select(e.key) then e.delta else 0)
  {
    if counters != [] && counters[0].key != e.key {
      UpsertSum(counters[1..], e, select);
      assert Upsert(counters, e)[1..] == Upsert(counters[1..], e);
    } else if counters != [] {
      assert Upsert(counters, e)[1..] == counters[1..];
    }
  }

  lemma KeysOfFirst(counters: seq<Counter>)
    requires counters != []
    ensures Keys(counters) == {counters[0].key} + Keys(counters[1..])
  {
    assert counters == [counters[0]] + counters[1..];
  }

  lemma {:induction false} UpsertKeys(counters: seq<Counter>, e: Event)
    ensures Keys(Upsert(counters, e)) == Keys(counters) + {e.key}
    ensures Distinct(counters) ==> Distinct(Upsert(counters, e))
  {
    var after := Upsert(counters, e);
    KeysOfFirst(after);
    if counters != [] {
      KeysOfFirst(counters);
      if counters[0].key != e.key {
        UpsertKeys(counters[1..], e);
        assert after[1..] == Upsert(counters[1..], e);
      } else {
        assert after[1..] == counters[1..];
      }
    }
  }

  lemma WrittenReconciles(t: Tables, e: Event)
    requires Reconciled(t)
    ensures Reconciled(Written(t, e))
  {
    UpsertKeys(t.counters, e);
    forall select: Key -> bool
      ensures CounterSum(Upsert(t.counters, e), select) == EventSum(t.events + [e], ByKey(select))
    {
      UpsertSum(t.counters, e, select);
      assert (t.events + [e])[..|t.events|] == t.events;
    }
  }

  lemma {:induction false} BatchReconciles(t: Tables, batch: seq<Event>)
    requires Reconciled(t)
    ensures Reconciled(WrittenAll(t, batch))
  {
    if batch != [] {
      BatchReconciles(t, batch[..|batch| - 1]);
      WrittenReconciles(WrittenAll(t, batch[..|batch| - 1]), batch[|batch| - 1]);
    }
  }

  /** One flush: the batch, and whether its transaction commits. */
  datatype Flush = Flush(batch: seq<Event>, committed: bool)

  function After(flushes: seq<Flush>): Tables {
    if flushes == [] then Tables([], [])
    else
      var before := After(flushes[..|flushes| - 1]);
      var last := flushes[|flushes| - 1];
      if last.committed then WrittenAll(before, last.batch) else before
  }

  lemma {:induction false} WrittenAppends(t: Tables, batch: seq<Event>)
    ensures WrittenAll(t, batch).events == t.events + batch
  {
    if batch != [] {
      WrittenAppends(t, batch[..|batch| - 1]);
      assert batch == batch[..|batch| - 1] + [batch[|batch| - 1]];
    }
  }

  /** The committed batches, one after the other. */
  function Committed(flushes: seq<Flush>): seq<Event> {
    if flushes == [] then []
    else if flushes[0].committed then flushes[0].batch + Committed(flushes[1..])
    else Committed(flushes[1..])
  }

  lemma {:induction false} CommittedNext(flushes: seq<Flush>, f: Flush)
    ensures Committed(flushes + [f]) == Committed(flushes) + (if f.committed then f.batch else [])
  {
    if flushes != [] {
      assert (flushes + [f])[1..] == flushes[1..] + [f];
      CommittedNext(flushes[1..], f);
    }
  }

  /** The log is the committed batches in order: every event of each once, and nothing of the others. */
  lemma {:induction false} LogIsCommitted(flushes: seq<Flush>)
    ensures After(flushes).events == Committed(flushes)
  {
    if flushes != [] {
      var n := |flushes| - 1;
      LogIsCommitted(flushes[..n]);
      WrittenAppends(After(flushes[..n]), flushes[n].batch);
      CommittedNext(flushes[..n], flushes[n]);
      assert flushes == flushes[..n] + [flushes[n]];
    }
  }

  /** After any sequence of committed and rolled-back batches, the counters equal the log. */
  lemma {:induction false} CountersAreTheLog(flushes: seq<Flush>)
    ensures Reconciled(After(flushes))
  {
    if flushes == [] {
      forall select: Key -> bool
        ensures CounterSum([], select) == EventSum([], ByKey(select))
      {
      }
    } else {
      CountersAreTheLog(flushes[..|flushes| - 1]);
      BatchReconciles(After(flushes[..|flushes| - 1]), flushes[|flushes| - 1].batch);
    }
  }

  // ---------------------------------------------------------------- rows and keys

  lemma {:induction false} NoRow(counters: seq<Counter>, k: Key)
    requires k !in Keys(counters)
    ensures CounterSum(counters, OfKey(k)) == 0
  {
    if counters != [] {
      KeysOfFirst(counters);
      NoRow(counters[1..], k);
    }
  }

  lemma {:induction false} OnlyRow(counters: seq<Counter>, i: nat)
    requires Distinct(counters) && i < |counters|
    ensures CounterSum(counters, OfKey(counters[i].key)) == counters[i].total
  {
    KeysOfFirst(counters);
    if i == 0 {
      NoRow(counters[1..], counters[0].key);
    } else {
      assert counters[1..][i - 1] == counters[i] && counters[i] in counters[1..];
      OnlyRow(counters[1..], i - 1);
    }
  }

  // ---------------------------------------------------------------- windows

  lemma {:induction false} SameSelection(events: seq<Event>, a: Event -> bool, b: Event -> bool)
    requires forall e :: e in events ==> a(e) == b(e)
    ensures EventSum(events, a) == EventSum(events, b)
  {
    if events != [] {
      SameSelection(events[..|events| - 1], a, b);
      assert events[|events| - 1] in events;
    }
  }

  lemma {:induction false} SplitSelection(events: seq<Event>, whole: Event -> bool, left: Event -> bool,
      right: Event -> bool)
    requires forall e :: e in events ==> (whole(e) <==> left(e) || right(e)) && !(left(e) && right(e))
    ensures EventSum(events, whole) == EventSum(events, left) + EventSum(events, right)
  {
    if events != [] {
      SplitSelection(events[..|events| - 1], whole, left, right);
      assert events[|events| - 1] in events;
    }
  }

  lemma {:induction false} NothingSelected(events: seq<Event>, select: Event -> bool)
    requires forall e :: e in events ==> !select(e)
    ensures EventSum(events, select) == 0
  {
    if events != [] {
      NothingSelected(events[..|events| - 1], select);
      assert events[|events| - 1] in events;
    }
  }

  /** The entry of a dimension, present or not, is the sum of its events in the window. */
  lemma EntryIsSum(events: seq<Event>, tenant: Tenant, d: Dimension, start: Instant, end: Instant)
    ensures Entry(Usage(events, tenant, start, end), d) == EventSum(events, Within(tenant, d, start, end))
  {
    if d !in DimensionsIn(events, tenant, start, end) {
      NothingSelected(events, Within(tenant, d, start, end));
    }
  }

  /** Usage over adjacent half-open windows adds up, dimension by dimension. */
  lemma UsageIsAdditive(events: seq<Event>, tenant: Tenant, d: Dimension, start: Instant, middle: Instant, end: Instant)
    requires start <= middle <= end
    ensures Entry(Usage(events, tenant, start, end), d)
         == Entry(Usage(events, tenant, start, middle), d) + Entry(Usage(events, tenant, middle, end), d)
  {
    EntryIsSum(events, tenant, d, start, end);
    EntryIsSum(events, tenant, d, start, middle);
    EntryIsSum(events, tenant, d, middle, end);
    SplitSelection(events, Within(tenant, d, start, end), Within(tenant, d, start, middle),
      Within(tenant, d, middle, end));
  }

  /** A tenant's total over the counters is its usage over any window that covers the log. */
  lemma TotalIsUnboundedUsage(t: Tables, tenant: Tenant, d: Dimension, start: Instant, end: Instant)
    requires Reconciled(t) && forall e :: e in t.events ==> start <= e.observedAt < end
    ensures CounterSum(t.counters, OfTenant(tenant, d)) == Entry(Usage(t.events, tenant, start, end), d)
  {
    Aggregates(t, OfTenant(tenant, d));
    EntryIsSum(t.events, tenant, d, start, end);
    SameSelection(t.events, ByKey(OfTenant(tenant, d)), Within(tenant, d, start, end));
  }

  /** One event more adds its delta to its own dimension, if it was observed from the start on and before the end. */
  lemma UsageNext(events: seq<Event>, e: Event, tenant: Tenant, d: Dimension, start: Instant, end: Instant)
    ensures Entry(Usage(events + [e], tenant, start, end), d)
         == Entry(Usage(events, tenant, start, end), d)
            + (if e.key.tenant == tenant && e.key.dimension == d && e.observedAt >= start && end > e.observedAt
               then e.delta else 0)
  {
    EntryIsSum(events, tenant, d, start, end);
    EntryIsSum(events + [e], tenant, d, start, end);
    assert (events + [e])[..|events|] == events;
  }

  /** A dimension is listed exactly when one of the tenant's events in the window has it. */
  lemma UsageListsIff(events: seq<Event>, tenant: Tenant, d: Dimension, start: Instant, end: Instant)
    ensures d in Usage(events, tenant, start, end) <==>
            exists i :: 0 <= i < |events| && events[i].key.tenant == tenant && events[i].key.dimension == d
                        && events[i].observedAt >= start && end > events[i].observedAt
  {
    if d in Usage(events, tenant, start, end) {
      var e :| e in events && e.key.tenant == tenant && start <= e.observedAt < end && e.key.dimension == d;
      var i :| 0 <= i < |events| && events[i] == e;
    }
  }
}
