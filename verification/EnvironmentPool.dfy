/** The capacity-bounded pool of execution environments and its TTL reaper. */
module EnvironmentPool {
  import opened Wrappers

  datatype Status = Active | TornDown | Orphaned

  datatype Record = Record(tenant: string, run: string, status: Status, expires: int, tornDownAt: Option<int>)

  type Table = map<string, Record>

  /** A tenant's active, unexpired environments: what admission counts. */
  function Live(records: Table, tenant: string, now: int): set<string>
  {
    set id | id in records && records[id].tenant == tenant && records[id].status.Active? &&
             records[id].expires > now
  }

  function Expired(records: Table, cutoff: int): set<string>
  {
    set id | id in records && records[id].status.Active? && records[id].expires <= cutoff
  }

  /** A status update; it touches no row when there is none, and overwrites a terminal status
      and its time. */
  function Marked(records: Table, id: string, status: Status, now: int): Table
  {
    if id in records then records[id := records[id].(status := status, tornDownAt := Some(now))] else records
  }

  /** Retiring an environment again is the documented no-op exactly when it writes the status
      and the time already there. */
  lemma MarkingAgainIsNoOpExactly(records: Table, id: string, status: Status, now: int)
    ensures Marked(records, id, status, now) == records <==>
              id in records ==> records[id].status == status && records[id].tornDownAt == Some(now)
  {
    if id in records && Marked(records, id, status, now) == records {
      assert records[id] == Marked(records, id, status, now)[id];
    }
  }

  /** Of two teardowns the later wins: the record keeps no trace of the first. */
  lemma LaterMarkWins(records: Table, id: string, first: Status, at: int, second: Status, later: int)
    ensures Marked(Marked(records, id, first, at), id, second, later) == Marked(records, id, second, later)
    ensures id in records ==>
              (Marked(Marked(records, id, first, at), id, second, later) == Marked(records, id, first, at) <==>
               first == second && at == later)
  {
    if id in records {
      MarkingAgainIsNoOpExactly(Marked(records, id, first, at), id, second, later);
    }
  }

  /** `after` is `before` with everything expired by `cutoff` orphaned, at some time between
      `from` and `to`, and nothing else changed. */
  predicate ReapedBetween(before: Table, after: Table, cutoff: int, from: int, to: int)
  {
    && after.Keys == before.Keys
    && forall id | id in before ::
         if id in Expired(before, cutoff) then OrphanedBetween(before[id], after[id], from, to)
         else after[id] == before[id]
  }

  predicate OrphanedBetween(before: Record, after: Record, from: int, to: int)
  {
    && after.tornDownAt.Some? && from <= after.tornDownAt.value <= to
    && after == before.(status := Orphaned, tornDownAt := after.tornDownAt)
  }

  /** A reaped environment is live for nobody, and the others are as live as before. */
  lemma ReapingKeepsLive(before: Table, after: Table, cutoff: int, from: int, to: int, tenant: string, now: int)
    requires ReapedBetween(before, after, cutoff, from, to) && cutoff <= now
    ensures Live(after, tenant, now) == Live(before, tenant, now) && Expired(after, cutoff) == {}
  {
  }

  /** Nothing disappears, nothing changes hands, and what is retired stays retired. */
  ghost predicate Ages(before: Table, after: Table)
  {
    forall id | id in before ::
      && id in after
      && after[id].(status := before[id].status, tornDownAt := before[id].tornDownAt) == before[id]
      && (!before[id].status.Active? ==> !after[id].status.Active?)
  }

  ghost predicate WithinCeiling(records: Table, ceiling: int, now: int)
  {
    forall tenant :: |Live(records, tenant, now)| <= if ceiling > 0 then ceiling else 0
  }

  /** What the ceiling means: no collection of a tenant's active, unexpired environments is
      larger. */
  lemma NeverOverCeiling(records: Table, ceiling: int, now: int, tenant: string, ids: set<string>)
    requires WithinCeiling(records, ceiling, now)
    requires forall id | id in ids ::
               id in records && records[id].tenant == tenant && records[id].status == Active && now < records[id].expires
    ensures |ids| <= if ceiling > 0 then ceiling else 0
  {
    SubsetIsSmaller(ids, Live(records, tenant, now));
  }

  /** And a tenant refused for capacity really has that many. */
  lemma FullMeansFull(records: Table, ceiling: int, now: int, tenant: string) returns (ids: set<string>)
    requires |Live(records, tenant, now)| >= ceiling
    ensures |ids| >= ceiling && forall id | id in ids ::
              id in records && records[id].tenant == tenant && records[id].status == Active && now < records[id].expires
  {
    ids := Live(records, tenant, now);
  }

  lemma {:induction false} SubsetIsSmaller<T>(a: set<T>, b: set<T>)
    requires a <= b
    ensures |a| <= |b|
  {
    if a != {} {
      var x :| x in a;
      SubsetIsSmaller(a - {x}, b - {x});
    }
  }

  /** Ageing a table, letting time pass or doing both never adds live environments. */
  lemma AgeingKeepsCeiling(before: Table, after: Table, ceiling: int, earlier: int, later: int)
    requires WithinCeiling(before, ceiling, earlier) && earlier <= later
    requires Ages(before, after) && after.Keys == before.Keys
    ensures WithinCeiling(after, ceiling, later)
  {
    forall tenant ensures |Live(after, tenant, later)| <= if ceiling > 0 then ceiling else 0 {
      SubsetIsSmaller(Live(after, tenant, later), Live(before, tenant, earlier));
    }
  }

  /** An admitted environment fits: the tenant had room when it was counted. */
  lemma AdmissionKeepsCeiling(records: Table, id: string, r: Record, ceiling: int, counted: int, now: int)
    requires WithinCeiling(records, ceiling, counted) && counted <= now && id !in records
    requires |Live(records, r.tenant, counted)| < ceiling
    ensures WithinCeiling(records[id := r], ceiling, now) && Ages(records, records[id := r])
  {
    var after := records[id := r];
    forall tenant ensures |Live(after, tenant, now)| <= if ceiling > 0 then ceiling else 0 {
      if tenant == r.tenant {
        SubsetIsSmaller(Live(after, tenant, now), Live(records, tenant, counted) + {id});
      } else {
        SubsetIsSmaller(Live(after, tenant, now), Live(records, tenant, counted));
      }
    }
  }

  datatype Outcome = Provisioned(id: string) | CapacityExceeded | BackendError | DuplicateId

  class EnvironmentManager {
    const ceiling: int
    const ttl: int
    var clock: int
    var records: Table

    constructor (ceiling: int, ttl: int)
      ensures this.ceiling == ceiling && this.ttl == ttl && records == map[]
      ensures Valid()
    {
      this.ceiling, this.ttl, clock, records := ceiling, ttl, 0, map[];
    }

    ghost predicate Valid()
      reads this
    {
      WithinCeiling(records, ceiling, clock)
    }

    /** Wall-clock time passing between two operations. */
    method Tick()
      requires Valid()
      modifies this`clock
      ensures Valid() && clock >= old(clock)
    {
      var reading: int := *;
      var later := if reading > clock then reading else clock;
      AgeingKeepsCeiling(records, records, ceiling, clock, later);
      clock := later;
    }

    /** The backend's teardown, which may refuse. */
    method TryBackend() returns (ok: bool)
      requires Valid()
      modifies this`clock
      ensures Valid() && clock >= old(clock)
    {
      Tick();
      ok := *;
    }

    method MarkStatus(id: string, status: Status)
      requires Valid() && !status.Active?
      modifies this`records
      ensures Valid() && records == Marked(old(records), id, status, clock)
      ensures Ages(old(records), records) && records.Keys == old(records).Keys
    {
      AgeingKeepsCeiling(records, Marked(records, id, status, clock), ceiling, clock, clock);
      records := Marked(records, id, status, clock);
    }

    /** Retires an environment unless its backend refuses; a refusal leaves the row alone. */
    method Teardown(id: string, reaping: bool) returns (ok: bool)
      requires Valid()
      modifies this`clock, this`records
      ensures Valid() && clock >= old(clock)
      ensures records == if ok then Marked(old(records), id, if reaping then Orphaned else TornDown, clock)
                         else old(records)
      ensures Ages(old(records), records) && records.Keys == old(records).Keys
    {
      ok := TryBackend();
      if ok {
        MarkStatus(id, if reaping then Orphaned else TornDown);
      }
    }

    /** An environment that was reaped and is then torn down loses its orphaned status. */
    method ReapThenTeardown(id: string) returns (ok: bool)
      requires Valid() && id in Expired(records, clock)
      modifies this`clock, this`records
      ensures Valid() && id in records
      ensures records[id].status == if ok then TornDown else Orphaned
    {
      var _ := ReapOrphans(None);
      ok := Teardown(id, false);
    }

    /** Orphans one expired environment, whatever its backend does. */
    method ReapOne(id: string)
      requires Valid() && id in records
      modifies this`clock, this`records
      ensures Valid() && clock >= old(clock) && records == Marked(old(records), id, Orphaned, clock)
    {
      var ok := Teardown(id, true);
      if !ok {
        MarkStatus(id, Orphaned);
      }
    }

    /** Every active environment past the cutoff becomes orphaned, whatever its backend does,
        and nothing else changes. */
    method ReapOrphans(at: Option<int>) returns (count: nat)
      requires Valid()
      modifies this`clock, this`records
      ensures Valid() && clock >= old(clock)
      ensures var cutoff := if at.Some? then at.value else old(clock);
              && ReapedBetween(old(records), records, cutoff, old(clock), clock)
              && count == |Expired(old(records), cutoff)|
              && (forall id | id in records && records[id].status.Active? :: cutoff < records[id].expires)
              && (forall id | id in old(records) ::
                    if old(records)[id].status.Active? && old(records)[id].expires <= cutoff
                    then records[id].status.Orphaned? else records[id] == old(records)[id])
      ensures Ages(old(records), records) && records.Keys == old(records).Keys
    {
      var cutoff := if at.Some? then at.value else clock;
      var expired := Expired(records, cutoff);
      var left := expired;
      while left != {}
        invariant Valid() && clock >= old(clock)
        invariant left <= expired && records.Keys == old(records).Keys
        invariant forall id | id in records ::
            if id in expired - left then OrphanedBetween(old(records)[id], records[id], old(clock), clock)
            else records[id] == old(records)[id]
        decreases left
      {
        var id :| id in left;
        left := left - {id};
        ReapOne(id);
      }
      count := |expired|;
    }

    /** Reaps, then admits against the tenant's ceiling, then asks the backend for an
        environment (`None` when it refuses) and records it. `swept` is the table the admission
        sees and `counted` the time it counts at. */
    method Provision(tenant: string, run: string, handle: Option<string>)
      returns (outcome: Outcome, ghost swept: Table, ghost counted: int)
      requires Valid()
      modifies this`clock, this`records
      ensures Valid() && old(clock) <= counted <= clock
      ensures Ages(old(records), records) && ReapedBetween(old(records), swept, old(clock), old(clock), counted)
      ensures outcome.CapacityExceeded? <==> |Live(swept, tenant, counted)| >= ceiling
      ensures outcome.BackendError? <==> |Live(swept, tenant, counted)| < ceiling && handle.None?
      ensures outcome.DuplicateId? <==>
                |Live(swept, tenant, counted)| < ceiling && handle.Some? && handle.value in swept
      ensures records ==
              if outcome.Provisioned? then swept[outcome.id := Record(tenant, run, Active, clock + ttl, None)]
              else swept
      ensures outcome.Provisioned? ==> handle == Some(outcome.id)
    {
      var _ := ReapOrphans(None);
      swept := records;
      Tick();
      counted := clock;
      if |Live(records, tenant, clock)| >= ceiling {
        return CapacityExceeded, swept, counted;
      }
      Tick();
      if handle.None? {
        return BackendError, swept, counted;
      }
      if handle.value in records {
        return DuplicateId, swept, counted;
      }
      var r := Record(tenant, run, Active, clock + ttl, None);
      AdmissionKeepsCeiling(records, handle.value, r, ceiling, counted, clock);
      records := records[handle.value := r];
      outcome := Provisioned(handle.value);
    }

    /** Any sequence of calls, in any order and with any gaps between them, keeps every
        tenant under the ceiling and never revives a retired environment. */
    method AnyRun(steps: nat)
      requires Valid()
      modifies this`clock, this`records
      ensures Valid() && clock >= old(clock) && Ages(old(records), records)
    {
      for i := 0 to steps
        invariant Valid() && clock >= old(clock) && Ages(old(records), records)
      {
        Tick();
        var id: string, tenant: string, run: string := *, *, *;
        var handle: Option<string>, at: Option<int>, choice: nat := *, *, *;
        if choice == 0 {
          var _, _, _ := Provision(tenant, run, handle);
        } else if choice == 1 {
          var _ := Teardown(id, false);
        } else {
          var _ := ReapOrphans(at);
        }
      }
    }
  }
}
