/** Human decisions on blocked tasks: requested once, resolved once, or timed out. */
module Decisions {
  import opened Wrappers

  datatype Status = Pending | Approved | Denied | TimedOut

  /** A `pending_action_decisions` row; `decidedAt` is set by the write that resolves it. */
  datatype Decision = Decision(tenant: string, run: string, task: string, status: Status, expiresAt: int,
                               decidedAt: Option<int>)
  {
    function Decided(outcome: Status, now: int): Decision
    {
      this.(status := outcome, decidedAt := Some(now))
    }
  }

  type Rows = map<nat, Decision>

  /** A `run.human.resolved` event. */
  datatype Resolution = Resolution(id: nat, status: Status)

  predicate Due(d: Decision, cutoff: int) { d.status.Pending? && d.expiresAt <= cutoff }

  /** Every due decision timed out. */
  function Expired(rows: Rows, cutoff: int, now: int): Rows
  {
    map id | id in rows :: if Due(rows[id], cutoff) then rows[id].Decided(TimedOut, now) else rows[id]
  }

  predicate ForTask(d: Decision, run: string, task: string) { d.run == run && d.task == task }

  /** At most one decision per run and task. */
  predicate OnePerTask(rows: Rows)
  {
    forall a, b | a in rows && b in rows && ForTask(rows[a], rows[b].run, rows[b].task) :: a == b
  }

  /** How many events `e` the rows call for: one for a decision resolved to that status. */
  function Called(rows: Rows, e: Resolution): nat
  {
    if e.id in rows && !rows[e.id].status.Pending? && rows[e.id].status == e.status then 1 else 0
  }

  /** One resolved event per resolved decision, carrying its status, and no other. */
  ghost predicate EventsMatch(rows: Rows, events: multiset<Resolution>)
  {
    forall e :: events[e] == Called(rows, e)
  }

  datatype Outcome = Resolved(decision: Decision) | NotFound | AlreadyResolved

  /** The service with each call running alone. */
  class DecisionService {
    var rows: Rows
    var events: multiset<Resolution>

    ghost predicate Valid()
      reads this
    {
      OnePerTask(rows) && EventsMatch(rows, events)
    }

    constructor ()
      ensures Valid() && rows == map[]
    {
      rows, events := map[], multiset{};
    }

    /** The conditional update: writes only a pending row. */
    method CompareAndSet(id: nat, status: Status, now: int) returns (ok: bool)
      modifies this`rows
      ensures ok <==> id in old(rows) && old(rows)[id].status.Pending?
      ensures rows == if ok then old(rows)[id := old(rows)[id].Decided(status, now)] else old(rows)
    {
      ok := id in rows && rows[id].status.Pending?;
      if ok {
        rows := rows[id := rows[id].Decided(status, now)];
      }
    }

    /** Times out one decision, if it is still pending, with its event. */
    method TimeOut(id: nat, now: int)
      requires Valid()
      modifies this
      ensures Valid()
      ensures rows == if id in old(rows) && old(rows)[id].status.Pending?
                      then old(rows)[id := old(rows)[id].Decided(TimedOut, now)] else old(rows)
    {
      var ok := CompareAndSet(id, TimedOut, now);
      if ok {
        WriteMatches(old(rows), events, Resolution(id, TimedOut), now);
        events := events + multiset{Resolution(id, TimedOut)};
      }
    }

    /** The sweep: times out exactly the due decisions, with one event each. */
    method ExpireDue(cutoff: int, now: int)
      requires Valid()
      modifies this
      ensures Valid() && rows == Expired(old(rows), cutoff, now)
      ensures forall id | id in old(rows) ::
                id in rows &&
                if old(rows)[id].status.Pending? && old(rows)[id].expiresAt <= cutoff
                then rows[id].status.TimedOut? && rows[id].decidedAt == Some(now)
                else rows[id] == old(rows)[id]
    {
      var due := set id | id in rows && Due(rows[id], cutoff);
      while due != {}
        invariant Valid() && rows.Keys == old(rows).Keys
        invariant forall id | id in due :: id in rows && Due(rows[id], cutoff)
        invariant forall id | id in rows ::
                    rows[id] == (if Due(old(rows)[id], cutoff) && id !in due
                                 then old(rows)[id].Decided(TimedOut, now) else old(rows)[id])
        decreases due
      {
        var id :| id in due;
        TimeOut(id, now);
        due := due - {id};
      }
    }

    /** Resolves a decision. It succeeds exactly for a pending decision of the caller's tenant
        whose deadline has not passed; meeting an overdue one times out all that are due. */
    method Resolve(id: nat, tenant: string, decision: Status, now: int) returns (r: Outcome)
      requires Valid() && (decision.Approved? || decision.Denied?)
      modifies this
      ensures Valid()
      ensures r.NotFound? <==> id !in old(rows) || old(rows)[id].tenant != tenant
      ensures r.Resolved? <==>
                id in old(rows) && old(rows)[id].tenant == tenant &&
                old(rows)[id].status.Pending? && now < old(rows)[id].expiresAt
      ensures r.Resolved? ==>
                r.decision == old(rows)[id].Decided(decision, now) && rows == old(rows)[id := r.decision]
      ensures r.AlreadyResolved? ==>
                rows == (if Due(old(rows)[id], now) then Expired(old(rows), now, now) else old(rows))
    {
      if id !in rows || rows[id].tenant != tenant {
        return NotFound;
      }
      if rows[id].status.Pending? && rows[id].expiresAt <= now {
        ExpireDue(now, now);
      }
      if !rows[id].status.Pending? {
        return AlreadyResolved;
      }
      var ok := CompareAndSet(id, decision, now);
      events := events + multiset{Resolution(id, decision)};
      r := Resolved(rows[id]);
    }

    /** Requests a decision, or returns the one the task already has, timed out if overdue. */
    method Request(fresh_: nat, tenant: string, run: string, task: string, now: int, timeout: int)
      returns (id: nat)
      requires Valid() && fresh_ !in rows
      modifies this
      ensures Valid() && id in rows && rows[id].run == run && rows[id].task == task
      ensures (exists d | d in old(rows) :: ForTask(old(rows)[d], run, task)) ==>
                && id in old(rows)
                && rows == (if Due(old(rows)[id], now) then Expired(old(rows), now, now) else old(rows))
      ensures (forall d | d in old(rows) :: !ForTask(old(rows)[d], run, task)) ==>
                id == fresh_ && rows == old(rows)[id := Decision(tenant, run, task, Pending, now + timeout, None)]
    {
      var existing := set d | d in rows && ForTask(rows[d], run, task);
      if existing != {} {
        id :| id in existing;
        if Due(rows[id], now) {
          ExpireDue(now, now);
        }
        return;
      }
      assert forall d | d in rows :: ForTask(rows[d], run, task) ==> d in existing;
      id := fresh_;
      rows := rows[id := Decision(tenant, run, task, Pending, now + timeout, None)];
    }
  }

  // ------------------------------------------------------------ interleavings

  /** Calls split at their store accesses: `writes` are compare-and-sets whose read has
      happened, `emits` are events whose write has happened, `inserts` are requests that
      found no decision for their task. */
  datatype System = System(clock: int, rows: Rows, events: multiset<Resolution>,
                           writes: multiset<Resolution>, emits: multiset<Resolution>,
                           inserts: multiset<Decision>)

  datatype Op =
    | Tick(elapsed: nat)
    | ReadResolve(id: nat, tenant: string, decision: Status)
    | ReadSweep(id: nat, cutoff: int)
    | Write(w: Resolution)
    | Emit(e: Resolution)
    | ReadRequest(d: Decision, timeout: int)
    | Insert(id: nat, d: Decision)

  predicate HasTask(rows: Rows, run: string, task: string)
  {
    exists id | id in rows :: ForTask(rows[id], run, task)
  }

  function Requesting(d: Decision, expiresAt: int): Decision
  {
    d.(status := Pending, expiresAt := expiresAt, decidedAt := None)
  }

  /** One access by any caller. A sweep's listing is one `ReadSweep` per due decision. */
  function Next(s: System, op: Op): System
  {
    match op
    case Tick(elapsed) => s.(clock := s.clock + elapsed)
    case ReadResolve(id, tenant, decision) =>
      if id in s.rows && s.rows[id].tenant == tenant && s.rows[id].status.Pending? &&
         s.clock < s.rows[id].expiresAt && (decision.Approved? || decision.Denied?)
      then s.(writes := s.writes + multiset{Resolution(id, decision)}) else s
    case ReadSweep(id, cutoff) =>
      if id in s.rows && Due(s.rows[id], cutoff)
      then s.(writes := s.writes + multiset{Resolution(id, TimedOut)}) else s
    case Write(w) =>
      if w !in s.writes then s
      else
        var rest := s.(writes := s.writes - multiset{w});
        if w.id in s.rows && s.rows[w.id].status.Pending?
        then rest.(rows := s.rows[w.id := s.rows[w.id].Decided(w.status, s.clock)],
                   emits := s.emits + multiset{w})
        else rest
    case Emit(e) =>
      if e !in s.emits then s
      else s.(emits := s.emits - multiset{e}, events := s.events + multiset{e})
    case ReadRequest(d, timeout) =>
      if HasTask(s.rows, d.run, d.task) then s
      else s.(inserts := s.inserts + multiset{Requesting(d, s.clock + timeout)})
    case Insert(id, d) =>
      if d !in s.inserts || id in s.rows then s
      else s.(inserts := s.inserts - multiset{d}, rows := s.rows[id := d])
  }

  function Run(ops: seq<Op>): System
  {
    if ops == [] then System(0, map[], multiset{}, multiset{}, multiset{}, multiset{})
    else Next(Run(ops[..|ops| - 1]), ops[|ops| - 1])
  }

  /** Each resolved decision has exactly one event, sent or about to be sent, with its
      status; a pending one has none. */
  ghost predicate Sound(s: System)
  {
    EventsMatch(s.rows, s.events + s.emits) && Queued(s.rows, s.writes) && AllPending(s.inserts)
  }

  /** Queued writes resolve decisions that exist. */
  ghost predicate Queued(rows: Rows, writes: multiset<Resolution>)
  {
    forall w :: w in writes ==> w.id in rows && !w.status.Pending?
  }

  ghost predicate AllPending(inserts: multiset<Decision>)
  {
    forall d :: d in inserts ==> d.status.Pending?
  }

  /** A pending decision taken to `w.status` gains exactly the event `w`. */
  lemma WriteMatches(rows: Rows, events: multiset<Resolution>, w: Resolution, now: int)
    requires EventsMatch(rows, events) && w.id in rows && rows[w.id].status.Pending? && !w.status.Pending?
    ensures EventsMatch(rows[w.id := rows[w.id].Decided(w.status, now)], events + multiset{w})
  {
  }

  lemma InsertMatches(rows: Rows, events: multiset<Resolution>, id: nat, d: Decision)
    requires EventsMatch(rows, events) && id !in rows && d.status.Pending?
    ensures EventsMatch(rows[id := d], events)
  {
  }

  lemma WriteIsSound(s: System, w: Resolution)
    requires Sound(s)
    ensures Sound(Next(s, Write(w)))
  {
    var next := Next(s, Write(w));
    if w in s.writes && w.id in s.rows && s.rows[w.id].status.Pending? {
      WriteMatches(s.rows, s.events + s.emits, w, s.clock);
      assert next.events + next.emits == s.events + s.emits + multiset{w};
    }
  }

  lemma EmitIsSound(s: System, e: Resolution)
    requires Sound(s)
    ensures Sound(Next(s, Emit(e)))
  {
    var next := Next(s, Emit(e));
    assert next.events + next.emits == s.events + s.emits;
  }

  lemma InsertIsSound(s: System, id: nat, d: Decision)
    requires Sound(s)
    ensures Sound(Next(s, Insert(id, d)))
  {
    if d in s.inserts && id !in s.rows {
      InsertMatches(s.rows, s.events + s.emits, id, d);
    }
  }

  lemma RequestIsSound(s: System, d: Decision, timeout: int)
    requires Sound(s)
    ensures Sound(Next(s, ReadRequest(d, timeout)))
  {
  }

  lemma ReadIsSound(s: System, op: Op)
    requires Sound(s) && (op.ReadResolve? || op.ReadSweep?)
    ensures Sound(Next(s, op))
  {
  }

  lemma StepIsSound(s: System, op: Op)
    requires Sound(s)
    ensures Sound(Next(s, op))
  {
    match op
    case Write(w) => WriteIsSound(s, w);
    case Emit(e) => EmitIsSound(s, e);
    case Insert(id, d) => InsertIsSound(s, id, d);
    case ReadRequest(d, timeout) => RequestIsSound(s, d, timeout);
    case Tick(_) =>
    case _ => ReadIsSound(s, op);
  }

  lemma {:induction false} EveryInterleavingIsSound(ops: seq<Op>)
    ensures Sound(Run(ops))
  {
    if ops != [] {
      EveryInterleavingIsSound(ops[..|ops| - 1]);
      StepIsSound(Run(ops[..|ops| - 1]), ops[|ops| - 1]);
    }
  }

  lemma RunExtends(ops: seq<Op>, op: Op)
    ensures Run(ops + [op]) == Next(Run(ops), op)
  {
    assert (ops + [op])[..|ops|] == ops;
  }

  ghost predicate Resolved(rows: Rows, id: nat, d: Decision)
  {
    id in rows && rows[id] == d && !d.status.Pending?
  }

  lemma ResolvedStays(s: System, op: Op, id: nat, d: Decision)
    requires Resolved(s.rows, id, d)
    ensures Resolved(Next(s, op).rows, id, d)
  {
  }

  lemma ResolvedStaysRun(ops: seq<Op>, op: Op, id: nat, d: Decision)
    requires Resolved(Run(ops).rows, id, d)
    ensures Resolved(Run(ops + [op]).rows, id, d)
  {
    RunExtends(ops, op);
    ResolvedStays(Run(ops), op, id, d);
  }

  /** A decision that has left `Pending` never changes again, whatever happens next. */
  lemma {:induction false} ResolvedIsFinal(ops: seq<Op>, more: seq<Op>, id: nat, d: Decision)
    requires Resolved(Run(ops).rows, id, d)
    ensures Resolved(Run(ops + more).rows, id, d)
    decreases |more|
  {
    if more == [] {
      assert ops + more == ops;
    } else {
      var n := |more| - 1;
      ResolvedIsFinal(ops, more[..n], id, d);
      ResolvedStaysRun(ops + more[..n], more[n], id, d);
      assert ops + more == ops + more[..n] + [more[n]];
    }
  }

  /** Once every call has finished, each resolved decision has emitted exactly one event. */
  lemma QuiescentEvents(ops: seq<Op>)
    requires Run(ops).emits == multiset{}
    ensures EventsMatch(Run(ops).rows, Run(ops).events)
  {
    EveryInterleavingIsSound(ops);
    assert Run(ops).events + Run(ops).emits == Run(ops).events;
  }

  // ------------------------------------------------------------ late resolutions

  predicate Human(status: Status) { status.Approved? || status.Denied? }

  /** The decision was written at or after its deadline. */
  predicate Late(d: Decision) { d.decidedAt.Some? && d.expiresAt <= d.decidedAt.value }

  /** Operation `i` is a read, before the deadline, on behalf of a human resolution of `id`. */
  ghost predicate ReadsInTime(ops: seq<Op>, i: nat, id: nat, status: Status, expiresAt: int)
  {
    && i < |ops| && ops[i].ReadResolve? && ops[i].id == id && ops[i].decision == status
    && Run(ops[..i]).clock < expiresAt
  }

  /** Operation `j` is the write that resolves `id`. */
  ghost predicate WritesAt(ops: seq<Op>, j: nat, id: nat, d: Decision)
  {
    && j < |ops| && ops[j] == Write(Resolution(id, d.status))
    && d.decidedAt == Some(Run(ops[..j]).clock)
  }

  /** The clock before each operation, and after the last. */
  function Clocks(ops: seq<Op>): seq<int>
  {
    seq(|ops| + 1, n requires 0 <= n <= |ops| => Run(ops[..n]).clock)
  }

  /** Some operation between `i` and `j` takes the clock to or past `deadline`. */
  predicate CrossesBetween(ops: seq<Op>, i: nat, j: nat, deadline: int)
    requires j <= |ops|
  {
    var clocks := Clocks(ops);
    exists t | i < t < j :: clocks[t] < deadline <= clocks[t + 1]
  }

  lemma ReadStays(ops: seq<Op>, n: nat, i: nat, id: nat, status: Status, expiresAt: int)
    requires n <= |ops| && ReadsInTime(ops[..n], i, id, status, expiresAt)
    ensures ReadsInTime(ops, i, id, status, expiresAt) && i < n
  {
    assert ops[..n][..i] == ops[..i];
  }

  lemma WriteStays(ops: seq<Op>, n: nat, j: nat, id: nat, d: Decision)
    requires n <= |ops| && WritesAt(ops[..n], j, id, d)
    ensures WritesAt(ops, j, id, d) && j < n
  {
    assert ops[..n][..j] == ops[..j];
  }

  lemma DeadlineStays(s: System, op: Op, id: nat)
    requires id in s.rows
    ensures id in Next(s, op).rows && Next(s, op).rows[id].expiresAt == s.rows[id].expiresAt
  {
  }

  lemma QueuedBefore(s: System, op: Op, w: Resolution)
    requires Human(w.status) && w in Next(s, op).writes && w !in s.writes
    ensures op.ReadResolve? && op.id == w.id && op.decision == w.status
    ensures w.id in s.rows && s.clock < s.rows[w.id].expiresAt
  {
  }

  /** Every queued human write was read before its deadline. */
  lemma {:induction false} QueuedWasReadInTime(ops: seq<Op>, w: Resolution) returns (i: nat)
    requires w in Run(ops).writes && Human(w.status)
    ensures w.id in Run(ops).rows && ReadsInTime(ops, i, w.id, w.status, Run(ops).rows[w.id].expiresAt)
    decreases |ops|
  {
    var n := |ops| - 1;
    var s, op := Run(ops[..n]), ops[n];
    if w in s.writes {
      i := QueuedWasReadInTime(ops[..n], w);
      ReadStays(ops, n, i, w.id, w.status, s.rows[w.id].expiresAt);
    } else {
      QueuedBefore(s, op, w);
      i := n;
    }
    DeadlineStays(s, op, w.id);
  }

  lemma ResolvedByWrite(s: System, op: Op, id: nat)
    requires Sound(s)
    requires id in Next(s, op).rows && Human(Next(s, op).rows[id].status)
    requires !(id in s.rows && s.rows[id] == Next(s, op).rows[id])
    ensures var d := Next(s, op).rows[id];
            op == Write(Resolution(id, d.status)) && op.w in s.writes && d.decidedAt == Some(s.clock)
            && id in s.rows && s.rows[id].expiresAt == d.expiresAt
  {
  }

  lemma ClockIsMonotone(s: System, op: Op)
    ensures Next(s, op).clock >= s.clock && (Next(s, op).clock > s.clock ==> op.Tick?)
  {
  }

  lemma ClocksGrow(ops: seq<Op>, n: nat)
    requires n < |ops|
    ensures Clocks(ops)[n] <= Clocks(ops)[n + 1] && (!ops[n].Tick? ==> Clocks(ops)[n] == Clocks(ops)[n + 1])
  {
    assert ops[..n + 1] == ops[..n] + [ops[n]];
    RunExtends(ops[..n], ops[n]);
    ClockIsMonotone(Run(ops[..n]), ops[n]);
  }

  /** A growing sequence passes a value exactly where one of its steps does. */
  lemma {:induction false} PassedBetween(clocks: seq<int>, i: nat, j: nat, deadline: int)
    requires i <= j < |clocks| && clocks[i] < deadline
    requires forall n | i <= n < j :: clocks[n] <= clocks[n + 1]
    ensures deadline <= clocks[j] <==> exists t | i <= t < j :: clocks[t] < deadline <= clocks[t + 1]
    decreases j
  {
    if i < j {
      PassedBetween(clocks, i, j - 1, deadline);
      if clocks[j - 1] < deadline <= clocks[j] {
        assert clocks[j - 1] < deadline <= clocks[j - 1 + 1];
      }
    }
  }

  lemma ClocksGrowFrom(ops: seq<Op>, i: nat)
    requires i < |ops| && !ops[i].Tick?
    ensures |Clocks(ops)| == |ops| + 1 && Clocks(ops)[i + 1] == Clocks(ops)[i]
    ensures forall n | 0 <= n < |ops| :: Clocks(ops)[n] <= Clocks(ops)[n + 1]
  {
    forall n | 0 <= n < |ops| ensures Clocks(ops)[n] <= Clocks(ops)[n + 1] { ClocksGrow(ops, n); }
    ClocksGrow(ops, i);
  }

  /** The clock has reached a deadline exactly when some operation since took it there. */
  lemma ReachedByCrossing(ops: seq<Op>, clocks: seq<int>, i: nat, j: nat, deadline: int)
    requires clocks == Clocks(ops) && i < j <= |ops| && !ops[i].Tick? && clocks[i] < deadline
    ensures deadline <= clocks[j] <==> exists t | i < t < j :: clocks[t] < deadline <= clocks[t + 1]
  {
    ClocksGrowFrom(ops, i);
    PassedBetween(clocks, i + 1, j, deadline);
  }

  /** The read and the write behind a human resolution. */
  lemma {:induction false} HumanResolutionHistory(ops: seq<Op>, id: nat) returns (i: nat, j: nat)
    requires id in Run(ops).rows && Human(Run(ops).rows[id].status)
    ensures var d := Run(ops).rows[id];
            i < j && ReadsInTime(ops, i, id, d.status, d.expiresAt) && WritesAt(ops, j, id, d)
    decreases |ops|
  {
    var n := |ops| - 1;
    var s, op, d := Run(ops[..n]), ops[n], Run(ops).rows[id];
    if id in s.rows && s.rows[id] == d {
      i, j := HumanResolutionHistory(ops[..n], id);
      ReadStays(ops, n, i, id, d.status, d.expiresAt);
      WriteStays(ops, n, j, id, d);
    } else {
      EveryInterleavingIsSound(ops[..n]);
      ResolvedByWrite(s, op, id);
      i := QueuedWasReadInTime(ops[..n], op.w);
      ReadStays(ops, n, i, id, d.status, d.expiresAt);
      j := n;
    }
  }

  /** In every interleaving a human resolution was read before its deadline, and it lands late
      if and only if the clock crossed the deadline while its write was queued. */
  lemma LateExactly(ops: seq<Op>, id: nat) returns (i: nat, j: nat)
    requires id in Run(ops).rows && Human(Run(ops).rows[id].status)
    ensures var d := Run(ops).rows[id];
            && i < j && ReadsInTime(ops, i, id, d.status, d.expiresAt) && WritesAt(ops, j, id, d)
            && (Late(d) <==> CrossesBetween(ops, i, j, d.expiresAt))
  {
    i, j := HumanResolutionHistory(ops, id);
    ReachedByCrossing(ops, Clocks(ops), i, j, Run(ops).rows[id].expiresAt);
  }

  /** Interleaved, a human resolution can land after the deadline: the clock passes it between
      the expiry check and the write. */
  lemma LateApprovalIsPossible()
    ensures exists ops, id :: id in Run(ops).rows && Human(Run(ops).rows[id].status) && Late(Run(ops).rows[id])
  {
    var d := Decision("t", "r", "k", Pending, 5, None);
    var ops := WrittenLate(d);
    var rows := Run(ops).rows;
    assert rows == map[0 := d.Decided(Approved, 10)];
    assert 0 in rows && Human(rows[0].status) && Late(rows[0]);
  }

  lemma WrittenLate(d: Decision) returns (ops: seq<Op>)
    requires d == Requesting(d, 5)
    ensures Run(ops).rows == map[0 := d.Decided(Approved, 10)]
  {
    var before := ReadBeforeDeadline(d);
    RunExtends(before, Tick(10));
    var ticked := before + [Tick(10)];
    assert Run(ticked).rows == map[0 := d] && Run(ticked).clock == 10;
    assert Resolution(0, Approved) in Run(ticked).writes;
    ops := ticked + [Write(Resolution(0, Approved))];
    RunExtends(ticked, Write(Resolution(0, Approved)));
  }

  /** A resolution of `d` read while it is pending, with its write still to come. */
  lemma ReadBeforeDeadline(d: Decision) returns (ops: seq<Op>)
    requires d == Requesting(d, 5)
    ensures Run(ops).rows == map[0 := d] && Run(ops).clock == 0 && Resolution(0, Approved) in Run(ops).writes
  {
    var o2 := Requested(d);
    ops := o2 + [ReadResolve(0, d.tenant, Approved)];
    RunExtends(o2, ReadResolve(0, d.tenant, Approved));
  }

  lemma Requested(d: Decision) returns (ops: seq<Op>)
    requires d == Requesting(d, 5)
    ensures Run(ops).rows == map[0 := d] && Run(ops).clock == 0
  {
    var o1 := [] + [ReadRequest(d, 5)];
    RunExtends([], ReadRequest(d, 5));
    assert d in Run(o1).inserts && Run(o1).rows == map[];
    ops := o1 + [Insert(0, d)];
    RunExtends(o1, Insert(0, d));
  }

  /** Interleaved requests for one task can both find nothing and both insert. */
  lemma DuplicateRequestsArePossible()
    ensures exists ops :: !OnePerTask(Run(ops).rows)
  {
    var d := Decision("t", "r", "k", Pending, 5, None);
    var o3 := FirstInserts(d);
    var o4 := o3 + [Insert(1, d)];
    RunExtends(o3, Insert(1, d));
    var rows := Run(o4).rows;
    assert 0 in rows && 1 in rows && ForTask(rows[0], rows[1].run, rows[1].task);
  }

  lemma FirstInserts(d: Decision) returns (ops: seq<Op>)
    requires d == Requesting(d, 5)
    ensures Run(ops).rows == map[0 := d] && d in Run(ops).inserts
  {
    var o2 := BothRead(d);
    ops := o2 + [Insert(0, d)];
    RunExtends(o2, Insert(0, d));
  }

  lemma BothRead(d: Decision) returns (ops: seq<Op>)
    requires d == Requesting(d, 5)
    ensures Run(ops).rows == map[] && Run(ops).inserts == multiset{d, d}
  {
    RunExtends([], ReadRequest(d, 5));
    var o1 := [] + [ReadRequest(d, 5)];
    assert Run(o1).rows == map[] && Run(o1).clock == 0 && Run(o1).inserts == multiset{d};
    RunExtends(o1, ReadRequest(d, 5));
    ops := o1 + [ReadRequest(d, 5)];
  }

  /** No request starts while another request for the same task is between its read and its
      insert. */
  ghost predicate RequestsDoNotOverlap(ops: seq<Op>)
  {
    forall i: nat, d: Decision :: !Overlaps(ops, i, d)
  }

  /** Operation `i` is a request that starts while `d` is queued for the same task. */
  ghost predicate Overlaps(ops: seq<Op>, i: nat, d: Decision)
  {
    && i < |ops| && ops[i].ReadRequest?
    && d in Run(ops[..i]).inserts && ForTask(d, ops[i].d.run, ops[i].d.task)
  }

  lemma PrefixDoesNotOverlap(ops: seq<Op>, n: nat)
    requires n < |ops| && RequestsDoNotOverlap(ops)
    ensures RequestsDoNotOverlap(ops[..n])
    ensures ops[n].ReadRequest? ==>
              forall d | d in Run(ops[..n]).inserts :: !ForTask(d, ops[n].d.run, ops[n].d.task)
  {
    forall i: nat, d: Decision ensures !Overlaps(ops[..n], i, d) {
      if i < n {
        assert ops[..n][..i] == ops[..i];
        assert !Overlaps(ops, i, d);
      }
    }
    forall d | ops[n].ReadRequest? && d in Run(ops[..n]).inserts
      ensures !ForTask(d, ops[n].d.run, ops[n].d.task)
    {
      assert !Overlaps(ops, n, d);
    }
  }

  /** One decision per task, counting those about to be inserted. */
  ghost predicate Unique(s: System)
  {
    OnePerTask(s.rows) && Distinct(s.inserts) && Awaited(s.rows, s.inserts)
  }

  ghost predicate Distinct(inserts: multiset<Decision>)
  {
    && (forall d | d in inserts :: inserts[d] == 1)
    && (forall d, e | d in inserts && e in inserts && ForTask(d, e.run, e.task) :: d == e)
  }

  ghost predicate Awaited(rows: Rows, inserts: multiset<Decision>)
  {
    forall d | d in inserts :: !HasTask(rows, d.run, d.task)
  }

  lemma InsertKeepsAwaited(rows: Rows, inserts: multiset<Decision>, id: nat, d: Decision)
    requires Distinct(inserts) && Awaited(rows, inserts) && d in inserts
    ensures Distinct(inserts - multiset{d}) && Awaited(rows[id := d], inserts - multiset{d})
  {
    var rest := inserts - multiset{d};
    forall e | e in rest ensures !HasTask(rows[id := d], e.run, e.task) {
      assert e in inserts && e != d && !ForTask(d, e.run, e.task);
      InsertKeepsAbsence(rows, id, d, e.run, e.task);
    }
  }

  lemma InsertKeepsOnePerTask(rows: Rows, id: nat, d: Decision)
    requires OnePerTask(rows) && id !in rows && !HasTask(rows, d.run, d.task)
    ensures OnePerTask(rows[id := d])
  {
    assert forall k | k in rows :: !ForTask(rows[k], d.run, d.task);
  }

  lemma InsertKeepsAbsence(rows: Rows, id: nat, d: Decision, run: string, task: string)
    requires !HasTask(rows, run, task) && !ForTask(d, run, task)
    ensures !HasTask(rows[id := d], run, task)
  {
  }

  lemma InsertStaysUnique(s: System, id: nat, d: Decision)
    requires Unique(s)
    ensures Unique(Next(s, Insert(id, d)))
  {
    if d in s.inserts && id !in s.rows {
      InsertKeepsOnePerTask(s.rows, id, d);
      InsertKeepsAwaited(s.rows, s.inserts, id, d);
    }
  }

  lemma StatusKeepsTasks(rows: Rows, id: nat, status: Status, now: int)
    requires id in rows
    ensures
      var after := rows[id := rows[id].Decided(status, now)];
      && (OnePerTask(rows) ==> OnePerTask(after))
      && forall run, task :: HasTask(after, run, task) ==> HasTask(rows, run, task)
  {
    var after := rows[id := rows[id].Decided(status, now)];
    forall run, task | HasTask(after, run, task)
      ensures HasTask(rows, run, task)
    {
      var k :| k in after && ForTask(after[k], run, task);
      assert k in rows && ForTask(rows[k], run, task);
    }
    if OnePerTask(rows) {
      forall a, b | a in after && b in after && ForTask(after[a], after[b].run, after[b].task)
        ensures a == b
      {
        assert ForTask(rows[a], rows[b].run, rows[b].task);
      }
    }
  }

  lemma WriteStaysUnique(s: System, w: Resolution)
    requires Unique(s)
    ensures Unique(Next(s, Write(w)))
  {
    if w in s.writes && w.id in s.rows && s.rows[w.id].status.Pending? {
      StatusKeepsTasks(s.rows, w.id, w.status, s.clock);
    }
  }

  lemma RequestQueues(s: System, d: Decision, timeout: int)
    ensures
      var next := Next(s, ReadRequest(d, timeout));
      && next.rows == s.rows
      && next.inserts == if HasTask(s.rows, d.run, d.task) then s.inserts
                         else s.inserts + multiset{Requesting(d, s.clock + timeout)}
  {
  }

  lemma RequestKeepsAwaited(rows: Rows, inserts: multiset<Decision>, d: Decision)
    requires Distinct(inserts) && Awaited(rows, inserts) && !HasTask(rows, d.run, d.task)
    requires forall e | e in inserts :: !ForTask(e, d.run, d.task)
    ensures Distinct(inserts + multiset{d}) && Awaited(rows, inserts + multiset{d})
  {
    assert ForTask(d, d.run, d.task) && d !in inserts;
  }

  lemma RequestStaysUnique(s: System, d: Decision, timeout: int)
    requires Unique(s) && forall e | e in s.inserts :: !ForTask(e, d.run, d.task)
    ensures Unique(Next(s, ReadRequest(d, timeout)))
  {
    RequestQueues(s, d, timeout);
    if !HasTask(s.rows, d.run, d.task) {
      RequestKeepsAwaited(s.rows, s.inserts, Requesting(d, s.clock + timeout));
    }
  }

  lemma OthersStayUnique(s: System, op: Op)
    requires Unique(s) && !op.Insert? && !op.Write? && !op.ReadRequest?
    ensures Unique(Next(s, op))
  {
    var next := Next(s, op);
    assert next.rows == s.rows && next.inserts == s.inserts;
  }

  /** Requests that do not overlap keep at most one decision per task, in every interleaving
      with resolutions and sweeps. */
  lemma {:induction false} DisjointRequestsStayUnique(ops: seq<Op>)
    requires RequestsDoNotOverlap(ops)
    ensures Unique(Run(ops))
  {
    if ops != [] {
      var n := |ops| - 1;
      PrefixDoesNotOverlap(ops, n);
      DisjointRequestsStayUnique(ops[..n]);
      var s, op := Run(ops[..n]), ops[n];
      match op
      case Insert(id, d) => InsertStaysUnique(s, id, d);
      case Write(w) => WriteStaysUnique(s, w);
      case ReadRequest(d, timeout) => RequestStaysUnique(s, d, timeout);
      case _ => OthersStayUnique(s, op);
    }
  }

  // ------------------------------------------------------------ exactly when tasks stay unique

  ghost predicate TwoRows(rows: Rows, run: string, task: string)
  {
    exists a, b | a in rows && b in rows :: a != b && ForTask(rows[a], run, task) && ForTask(rows[b], run, task)
  }

  ghost predicate OneQueued(inserts: multiset<Decision>, run: string, task: string)
  {
    exists d | d in inserts :: ForTask(d, run, task)
  }

  ghost predicate TwoQueued(inserts: multiset<Decision>, run: string, task: string)
  {
    exists d | d in inserts :: ForTask(d, run, task) && OneQueued(inserts - multiset{d}, run, task)
  }

  /** A task has, or is bound to get, two decisions. */
  ghost predicate Crowded(rows: Rows, inserts: multiset<Decision>, run: string, task: string)
  {
    || TwoRows(rows, run, task)
    || (HasTask(rows, run, task) && OneQueued(inserts, run, task))
    || TwoQueued(inserts, run, task)
  }

  lemma InsertStaysCrowded(rows: Rows, inserts: multiset<Decision>, id: nat, d: Decision, run: string, task: string)
    requires Crowded(rows, inserts, run, task) && d in inserts && id !in rows
    ensures Crowded(rows[id := d], inserts - multiset{d}, run, task)
  {
    var after, rest := rows[id := d], inserts - multiset{d};
    if TwoRows(rows, run, task) {
      RowsStay(rows, id, d, run, task);
    } else if HasTask(rows, run, task) && OneQueued(inserts, run, task) {
      var k :| k in rows && ForTask(rows[k], run, task);
      assert k in after && after[k] == rows[k];
      var e :| e in inserts && ForTask(e, run, task);
      if e == d {
        assert id in after && id != k && ForTask(after[id], run, task);
      } else {
        assert e in rest;
      }
    } else {
      OneOfTwoStays(inserts, d, run, task);
      if ForTask(d, run, task) {
        assert id in after && ForTask(after[id], run, task);
      }
    }
  }

  lemma RowsStay(rows: Rows, id: nat, d: Decision, run: string, task: string)
    requires TwoRows(rows, run, task) && id !in rows
    ensures TwoRows(rows[id := d], run, task)
  {
    var after := rows[id := d];
    var a, b :| a in rows && b in rows && a != b && ForTask(rows[a], run, task) && ForTask(rows[b], run, task);
    assert a in after && b in after && after[a] == rows[a] && after[b] == rows[b];
  }

  /** Taking one insert off a doubled task leaves one, and taking off any other leaves both. */
  lemma OneOfTwoStays(inserts: multiset<Decision>, d: Decision, run: string, task: string)
    requires TwoQueued(inserts, run, task) && d in inserts
    ensures ForTask(d, run, task) ==> OneQueued(inserts - multiset{d}, run, task)
    ensures !ForTask(d, run, task) ==> TwoQueued(inserts - multiset{d}, run, task)
  {
    var x :| x in inserts && ForTask(x, run, task) && OneQueued(inserts - multiset{x}, run, task);
    var y :| y in inserts - multiset{x} && ForTask(y, run, task);
    var rest := inserts - multiset{d};
    if ForTask(d, run, task) {
      assert x in rest || y in rest;
    } else {
      assert x in rest && y in rest - multiset{x};
    }
  }

  lemma WriteStaysCrowded(rows: Rows, inserts: multiset<Decision>, id: nat, d: Decision, run: string, task: string)
    requires Crowded(rows, inserts, run, task) && id in rows && ForTask(d, rows[id].run, rows[id].task)
    ensures Crowded(rows[id := d], inserts, run, task)
  {
    var after := rows[id := d];
    if TwoRows(rows, run, task) {
      var a, b :| a in rows && b in rows && a != b && ForTask(rows[a], run, task) && ForTask(rows[b], run, task);
      assert a in after && b in after && ForTask(after[a], run, task) && ForTask(after[b], run, task);
    } else if HasTask(rows, run, task) {
      var k :| k in rows && ForTask(rows[k], run, task);
      assert k in after && ForTask(after[k], run, task);
    }
  }

  lemma RequestStaysCrowded(rows: Rows, inserts: multiset<Decision>, d: Decision, run: string, task: string)
    requires Crowded(rows, inserts, run, task)
    ensures Crowded(rows, inserts + multiset{d}, run, task)
  {
    var after := inserts + multiset{d};
    if OneQueued(inserts, run, task) {
      var e :| e in inserts && ForTask(e, run, task);
      assert e in after;
    }
    if TwoQueued(inserts, run, task) {
      var x :| x in inserts && ForTask(x, run, task) && OneQueued(inserts - multiset{x}, run, task);
      var y :| y in inserts - multiset{x} && ForTask(y, run, task);
      assert x in after && y in after - multiset{x};
    }
  }

  /** After `ops` the task has, or is bound to get, two decisions. */
  ghost predicate CrowdedAfter(ops: seq<Op>, run: string, task: string)
  {
    Crowded(Run(ops).rows, Run(ops).inserts, run, task)
  }

  lemma OthersStayCrowded(s: System, op: Op, run: string, task: string)
    requires Crowded(s.rows, s.inserts, run, task) && !op.Insert? && !op.Write? && !op.ReadRequest?
    ensures Crowded(Next(s, op).rows, Next(s, op).inserts, run, task)
  {
    assert Next(s, op).rows == s.rows && Next(s, op).inserts == s.inserts;
  }

  lemma WriteStepStaysCrowded(s: System, w: Resolution, run: string, task: string)
    requires Crowded(s.rows, s.inserts, run, task)
    ensures Crowded(Next(s, Write(w)).rows, Next(s, Write(w)).inserts, run, task)
  {
    if w in s.writes && w.id in s.rows && s.rows[w.id].status.Pending? {
      WriteStaysCrowded(s.rows, s.inserts, w.id, s.rows[w.id].Decided(w.status, s.clock), run, task);
    }
  }

  lemma RequestStepStaysCrowded(s: System, d: Decision, timeout: int, run: string, task: string)
    requires Crowded(s.rows, s.inserts, run, task)
    ensures var next := Next(s, ReadRequest(d, timeout)); Crowded(next.rows, next.inserts, run, task)
  {
    RequestQueues(s, d, timeout);
    if !HasTask(s.rows, d.run, d.task) {
      RequestStaysCrowded(s.rows, s.inserts, Requesting(d, s.clock + timeout), run, task);
    }
  }

  lemma InsertStepStaysCrowded(s: System, id: nat, d: Decision, run: string, task: string)
    requires Crowded(s.rows, s.inserts, run, task)
    ensures Crowded(Next(s, Insert(id, d)).rows, Next(s, Insert(id, d)).inserts, run, task)
  {
    if d in s.inserts && id !in s.rows {
      InsertStaysCrowded(s.rows, s.inserts, id, d, run, task);
    }
  }

  lemma StepStaysCrowded(s: System, op: Op, run: string, task: string)
    requires Crowded(s.rows, s.inserts, run, task)
    ensures Crowded(Next(s, op).rows, Next(s, op).inserts, run, task)
  {
    match op
    case Insert(id, d) => InsertStepStaysCrowded(s, id, d, run, task);
    case Write(w) => WriteStepStaysCrowded(s, w, run, task);
    case ReadRequest(d, timeout) => RequestStepStaysCrowded(s, d, timeout, run, task);
    case _ => OthersStayCrowded(s, op, run, task);
  }

  lemma CrowdedExtends(ops: seq<Op>, op: Op, run: string, task: string)
    requires CrowdedAfter(ops, run, task)
    ensures CrowdedAfter(ops + [op], run, task)
  {
    RunExtends(ops, op);
    StepStaysCrowded(Run(ops), op, run, task);
  }

  /** A request that overlaps another for its task crowds it. */
  lemma OverlapCrowds(s: System, d: Decision, timeout: int, queued: Decision)
    requires queued in s.inserts && ForTask(queued, d.run, d.task)
    ensures var next := Next(s, ReadRequest(d, timeout)); Crowded(next.rows, next.inserts, d.run, d.task)
  {
    var added := Requesting(d, s.clock + timeout);
    if !HasTask(s.rows, d.run, d.task) {
      var after := s.inserts + multiset{added};
      assert added in after && ForTask(added, d.run, d.task);
      assert queued in after - multiset{added};
    }
  }

  lemma {:induction false} CrowdedStays(ops: seq<Op>, more: seq<Op>, run: string, task: string)
    requires CrowdedAfter(ops, run, task)
    ensures CrowdedAfter(ops + more, run, task)
    decreases |more|
  {
    if more == [] {
      assert ops + more == ops;
    } else {
      var n := |more| - 1;
      CrowdedStays(ops, more[..n], run, task);
      CrowdedExtends(ops + more[..n], more[n], run, task);
      assert ops + more == ops + more[..n] + [more[n]];
    }
  }

  lemma OverlapCrowdsAfter(ops: seq<Op>, d: Decision, timeout: int, queued: Decision)
    requires queued in Run(ops).inserts && ForTask(queued, d.run, d.task)
    ensures CrowdedAfter(ops + [ReadRequest(d, timeout)], d.run, d.task)
  {
    OverlapCrowds(Run(ops), d, timeout, queued);
    RunExtends(ops, ReadRequest(d, timeout));
  }

  lemma CrowdedEndsDouble(rows: Rows, run: string, task: string)
    requires Crowded(rows, multiset{}, run, task)
    ensures !OnePerTask(rows)
  {
    var a, b :| a in rows && b in rows && a != b && ForTask(rows[a], run, task) && ForTask(rows[b], run, task);
    assert ForTask(rows[a], rows[b].run, rows[b].task);
  }

  lemma OverlapEndsDouble(before: seq<Op>, d: Decision, timeout: int, queued: Decision, after: seq<Op>)
    requires queued in Run(before).inserts && ForTask(queued, d.run, d.task)
    requires Run(before + [ReadRequest(d, timeout)] + after).inserts == multiset{}
    ensures !OnePerTask(Run(before + [ReadRequest(d, timeout)] + after).rows)
  {
    OverlapCrowdsAfter(before, d, timeout, queued);
    CrowdedStays(before + [ReadRequest(d, timeout)], after, d.run, d.task);
    CrowdedEndsDouble(Run(before + [ReadRequest(d, timeout)] + after).rows, d.run, d.task);
  }

  lemma SplitAt(ops: seq<Op>, i: nat)
    requires i < |ops|
    ensures ops == ops[..i] + [ops[i]] + ops[i + 1..]
  {
  }

  lemma OverlapDoubles(ops: seq<Op>, i: nat, queued: Decision)
    requires Overlaps(ops, i, queued) && Run(ops).inserts == multiset{}
    ensures !OnePerTask(Run(ops).rows)
  {
    var before, request, after := ops[..i], ops[i], ops[i + 1..];
    SplitAt(ops, i);
    OverlapEndsDouble(before, request.d, request.timeout, queued, after);
  }

  /** Once every request has finished, each task has one decision if and only if no two
      requests for it overlapped. */
  lemma UniqueExactlyWithoutOverlap(ops: seq<Op>)
    requires Run(ops).inserts == multiset{}
    ensures OnePerTask(Run(ops).rows) <==> RequestsDoNotOverlap(ops)
  {
    if RequestsDoNotOverlap(ops) {
      DisjointRequestsStayUnique(ops);
    } else {
      var i: nat, d :| Overlaps(ops, i, d);
      OverlapDoubles(ops, i, d);
    }
  }
}
