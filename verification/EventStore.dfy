/** The durable event store: an append-only log with a projection per partition, compacted
    by retention. */
module EventStore {
  import opened Wrappers

  datatype Kind =
    | RunStarted | StepStarted | StepCompleted | StepFailed
    | HumanRequested | HumanResolved | RunCompleted | RunFailed
    | OtherEvent(name: string)

  /** `stepKey`, `attempt` and `status` are the fields of `data` that reconstruction reads;
      a missing attempt is 1 and a missing status `None`. */
  datatype Envelope = Envelope(id: string, partition: string, kind: Kind, stepKey: string,
                               attempt: int, status: Option<string>)

  /** An `events` row. */
  datatype Row = Row(sequence: nat, envelope: Envelope, storedAt: int)

  /** An `event_projections` row. */
  datatype Projection = Projection(status: string, counts: map<Kind, nat>, lastSequence: nat, lastKind: Kind)

  datatype Tables = Tables(rows: seq<Row>, projections: map<string, Projection>)

  /** The status each lifecycle event implies; other events leave it unchanged. */
  function StatusByEvent(k: Kind): Option<string>
  {
    match k
    case RunStarted | StepStarted | StepCompleted | StepFailed | HumanResolved => Some("running")
    case HumanRequested => Some("waiting_human")
    case RunCompleted => Some("completed")
    case RunFailed => Some("failed")
    case OtherEvent(_) => None
  }

  predicate TerminalStatus(s: string) { s == "completed" || s == "failed" }

  function CountOf(counts: map<Kind, nat>, k: Kind): nat { if k in counts then counts[k] else 0 }

  function MaxSequence(rows: seq<Row>, partition: string): nat
  {
    if rows == [] then 0
    else
      var rest := MaxSequence(rows[..|rows| - 1], partition);
      var last := rows[|rows| - 1];
      if last.envelope.partition == partition && last.sequence > rest then last.sequence else rest
  }

  predicate HasId(rows: seq<Row>, id: string)
  {
    exists i | 0 <= i < |rows| :: rows[i].envelope.id == id
  }

  /** Folds one envelope into its partition's projection. */
  function Upsert(p: Option<Projection>, e: Envelope, sequence: nat): Projection
  {
    var status := if p.Some? then p.value.status else "";
    var counts := if p.Some? then p.value.counts else map[];
    var implied := StatusByEvent(e.kind);
    Projection(if implied.Some? then implied.value else status,
               counts[e.kind := CountOf(counts, e.kind) + 1], sequence, e.kind)
  }

  function ProjectionOf(t: Tables, partition: string): Option<Projection>
  {
    if partition in t.projections then Some(t.projections[partition]) else None
  }

  /** One transaction: assign the next sequence, insert, upsert. A duplicate event id violates
      the primary key and rolls everything back. */
  function AppendTo(t: Tables, e: Envelope, storedAt: int): Tables
  {
    if HasId(t.rows, e.id) then t
    else
      var sequence := MaxSequence(t.rows, e.partition) + 1;
      Tables(t.rows + [Row(sequence, e, storedAt)],
             t.projections[e.partition := Upsert(ProjectionOf(t, e.partition), e, sequence)])
  }

  predicate Expired(t: Tables, r: Row, cutoff: int)
  {
    r.storedAt < cutoff &&
    r.envelope.partition in t.projections && TerminalStatus(t.projections[r.envelope.partition].status)
  }

  function Retained(t: Tables, rows: seq<Row>, cutoff: int): seq<Row>
  {
    if rows == [] then []
    else
      var rest := Retained(t, rows[..|rows| - 1], cutoff);
      var last := rows[|rows| - 1];
      if Expired(t, last, cutoff) then rest else rest + [last]
  }

  function PurgeFrom(t: Tables, cutoff: int): Tables
  {
    t.(rows := Retained(t, t.rows, cutoff))
  }

  /** The rows of one partition, in append order. */
  function RowsOf(rows: seq<Row>, partition: string): seq<Row>
  {
    if rows == [] then []
    else
      var rest := RowsOf(rows[..|rows| - 1], partition);
      var last := rows[|rows| - 1];
      if last.envelope.partition == partition then rest + [last] else rest
  }

  // ------------------------------------------------------------ whole histories

  datatype Op = Append(e: Envelope, storedAt: int) | Purge(cutoff: int)

  /** The tables together with everything each partition ever accepted, and the partitions
      some purge has compacted. */
  datatype World = World(tables: Tables, history: map<string, seq<Envelope>>, compacted: set<string>)

  function HistoryOf(w: World, partition: string): seq<Envelope>
  {
    if partition in w.history then w.history[partition] else []
  }

  function Next(w: World, op: Op): World
  {
    match op
    case Append(e, storedAt) =>
      if HasId(w.tables.rows, e.id) then w
      else World(AppendTo(w.tables, e, storedAt),
                 w.history[e.partition := HistoryOf(w, e.partition) + [e]], w.compacted)
    case Purge(cutoff) =>
      World(PurgeFrom(w.tables, cutoff), w.history,
            w.compacted + set i | 0 <= i < |w.tables.rows| && Expired(w.tables, w.tables.rows[i], cutoff)
                            :: w.tables.rows[i].envelope.partition)
  }

  function Run(ops: seq<Op>): World
  {
    if ops == [] then World(Tables([], map[]), map[], {})
    else Next(Run(ops[..|ops| - 1]), ops[|ops| - 1])
  }

  /** The status and counts a history implies, independently of any table. */
  function StatusOf(events: seq<Envelope>): string
  {
    if events == [] then ""
    else
      var implied := StatusByEvent(events[|events| - 1].kind);
      if implied.Some? then implied.value else StatusOf(events[..|events| - 1])
  }

  function Occurrences(events: seq<Envelope>, k: Kind): nat
  {
    if events == [] then 0
    else Occurrences(events[..|events| - 1], k) + if events[|events| - 1].kind == k then 1 else 0
  }

  /** Sequences start at 1 and grow along each partition, and event ids are unique. */
  predicate Ordered(rows: seq<Row>)
  {
    rows == [] ||
    (Ordered(rows[..|rows| - 1]) &&
     var last := rows[|rows| - 1];
     last.sequence > 0 &&
     forall r | r in rows[..|rows| - 1] ::
       r.envelope.id != last.envelope.id &&
       (r.envelope.partition == last.envelope.partition ==> r.sequence < last.sequence))
  }

  /** `rs` is the full log of `events`, numbered 1, 2, ... */
  predicate FullLog(rs: seq<Row>, events: seq<Envelope>)
  {
    |rs| == |events| && forall i | 0 <= i < |rs| :: rs[i].sequence == i + 1 && rs[i].envelope == events[i]
  }

  ghost predicate Summarizes(p: Projection, events: seq<Envelope>)
  {
    && events != [] && p.status == StatusOf(events) && p.lastKind == events[|events| - 1].kind
    && forall k :: CountOf(p.counts, k) == Occurrences(events, k)
  }

  /** The partition still has every event it accepted. */
  predicate LogIntact(w: World, k: string)
  {
    && FullLog(RowsOf(w.tables.rows, k), HistoryOf(w, k))
    && (k in w.tables.projections ==> w.tables.projections[k].lastSequence == |HistoryOf(w, k)|)
  }

  ghost predicate Consistent(w: World)
  {
    && Ordered(w.tables.rows)
    && w.tables.projections.Keys == w.history.Keys
    && (forall k | k in w.history :: Summarizes(w.tables.projections[k], w.history[k]))
    && (forall k | k !in w.compacted :: LogIntact(w, k))
  }

  lemma {:induction false} MaxSequenceBounds(rows: seq<Row>, k: string)
    ensures forall r | r in rows && r.envelope.partition == k :: r.sequence <= MaxSequence(rows, k)
  {
    if rows != [] {
      MaxSequenceBounds(rows[..|rows| - 1], k);
    }
  }

  /** Over a full log, the largest sequence is the number of events. */
  lemma {:induction false} MaxSequenceOfFullLog(rows: seq<Row>, k: string, events: seq<Envelope>)
    requires FullLog(RowsOf(rows, k), events)
    ensures MaxSequence(rows, k) == |events|
  {
    if rows != [] {
      var front, last := rows[..|rows| - 1], rows[|rows| - 1];
      if last.envelope.partition == k {
        var rs := RowsOf(rows, k);
        assert rs[..|rs| - 1] == RowsOf(front, k);
        assert rs[|rs| - 1] == last && last.sequence == |rs|;
        MaxSequenceOfFullLog(front, k, events[..|events| - 1]);
      } else {
        MaxSequenceOfFullLog(front, k, events);
      }
    }
  }

  lemma {:induction false} RetainedKeepsOrder(t: Tables, rows: seq<Row>, cutoff: int)
    requires Ordered(rows)
    ensures Ordered(Retained(t, rows, cutoff))
    ensures forall r :: r in Retained(t, rows, cutoff) <==> r in rows && !Expired(t, r, cutoff)
  {
    if rows != [] {
      var front, last := rows[..|rows| - 1], rows[|rows| - 1];
      RetainedKeepsOrder(t, front, cutoff);
      assert rows == front + [last];
      var kept := Retained(t, front, cutoff);
      if !Expired(t, last, cutoff) {
        assert (kept + [last])[..|kept|] == kept;
      }
    }
  }

  /** A partition none of whose rows expire keeps its log. */
  lemma {:induction false} RetainedPartition(t: Tables, rows: seq<Row>, cutoff: int, k: string)
    requires forall r | r in rows && r.envelope.partition == k :: !Expired(t, r, cutoff)
    ensures RowsOf(Retained(t, rows, cutoff), k) == RowsOf(rows, k)
  {
    if rows != [] {
      var front, last := rows[..|rows| - 1], rows[|rows| - 1];
      assert rows == front + [last];
      RetainedPartition(t, front, cutoff, k);
      var kept := Retained(t, front, cutoff);
      assert (kept + [last])[..|kept|] == kept;
    }
  }

  lemma UpsertSummarizes(p: Option<Projection>, events: seq<Envelope>, e: Envelope, sequence: nat)
    requires if p.None? then events == [] else Summarizes(p.value, events)
    ensures Summarizes(Upsert(p, e, sequence), events + [e])
  {
    var longer := events + [e];
    assert longer[..|events|] == events;
  }

  lemma AppendOrdered(rows: seq<Row>, r: Row)
    requires Ordered(rows) && !HasId(rows, r.envelope.id)
    requires r.sequence == MaxSequence(rows, r.envelope.partition) + 1
    ensures Ordered(rows + [r])
  {
    MaxSequenceBounds(rows, r.envelope.partition);
    assert (rows + [r])[..|rows|] == rows;
  }

  lemma AppendExtendsLog(rows: seq<Row>, row: Row, k: string, events: seq<Envelope>)
    requires FullLog(RowsOf(rows, k), events)
    requires row.sequence == MaxSequence(rows, row.envelope.partition) + 1
    ensures row.envelope.partition == k ==>
              row.sequence == |events| + 1 && FullLog(RowsOf(rows + [row], k), events + [row.envelope])
    ensures row.envelope.partition != k ==> FullLog(RowsOf(rows + [row], k), events)
  {
    MaxSequenceOfFullLog(rows, k, events);
    assert (rows + [row])[..|rows|] == rows;
  }

  lemma AppendKeepsSummaries(w: World, e: Envelope, storedAt: int)
    requires Consistent(w) && !HasId(w.tables.rows, e.id)
    ensures
      var next := Next(w, Append(e, storedAt));
      && next.tables.projections.Keys == next.history.Keys
      && forall k | k in next.history :: Summarizes(next.tables.projections[k], next.history[k])
  {
    UpsertSummarizes(ProjectionOf(w.tables, e.partition), HistoryOf(w, e.partition), e,
                     MaxSequence(w.tables.rows, e.partition) + 1);
  }

  lemma AppendKeepsLog(w: World, e: Envelope, storedAt: int, k: string)
    requires LogIntact(w, k) && !HasId(w.tables.rows, e.id)
    ensures LogIntact(Next(w, Append(e, storedAt)), k)
  {
    var row := Row(MaxSequence(w.tables.rows, e.partition) + 1, e, storedAt);
    AppendExtendsLog(w.tables.rows, row, k, HistoryOf(w, k));
  }

  lemma AppendKeepsConsistent(w: World, e: Envelope, storedAt: int)
    requires Consistent(w) && !HasId(w.tables.rows, e.id)
    ensures Consistent(Next(w, Append(e, storedAt)))
  {
    var next := Next(w, Append(e, storedAt));
    var row := Row(MaxSequence(w.tables.rows, e.partition) + 1, e, storedAt);
    AppendOrdered(w.tables.rows, row);
    AppendKeepsSummaries(w, e, storedAt);
    forall k | k !in w.compacted
      ensures LogIntact(next, k)
    {
      AppendKeepsLog(w, e, storedAt, k);
    }
  }

  lemma PurgeKeepsConsistent(w: World, cutoff: int)
    requires Consistent(w)
    ensures Consistent(Next(w, Purge(cutoff)))
  {
    var next := Next(w, Purge(cutoff));
    RetainedKeepsOrder(w.tables, w.tables.rows, cutoff);
    forall k | k !in next.compacted
      ensures LogIntact(next, k)
    {
      assert LogIntact(w, k);
      RetainedPartition(w.tables, w.tables.rows, cutoff, k);
    }
  }

  /** After any appends, rejected duplicates and purges: every projection is the fold of the
      partition's whole history, retained sequences grow along each partition, and a
      partition no purge has touched still has its full log, numbered from 1. */
  lemma {:induction false} EveryHistoryIsConsistent(ops: seq<Op>)
    ensures Consistent(Run(ops))
  {
    if ops != [] {
      var w, op := Run(ops[..|ops| - 1]), ops[|ops| - 1];
      EveryHistoryIsConsistent(ops[..|ops| - 1]);
      match op
      case Append(e, storedAt) =>
        if !HasId(w.tables.rows, e.id) {
          AppendKeepsConsistent(w, e, storedAt);
        }
      case Purge(cutoff) =>
        PurgeKeepsConsistent(w, cutoff);
    }
  }

  /** A purge touches no projection, no active partition and no young event, and removes
      exactly the old events of terminal partitions. */
  lemma PurgeIsCompaction(w: World, cutoff: int)
    requires Consistent(w)
    ensures
      var next := PurgeFrom(w.tables, cutoff);
      && next.projections == w.tables.projections
      && (forall r :: r in next.rows <==> r in w.tables.rows && !Expired(w.tables, r, cutoff))
      && (forall k | k in w.tables.projections && !TerminalStatus(w.tables.projections[k].status) ::
            RowsOf(next.rows, k) == RowsOf(w.tables.rows, k))
  {
    RetainedKeepsOrder(w.tables, w.tables.rows, cutoff);
    forall k | k in w.tables.projections && !TerminalStatus(w.tables.projections[k].status)
      ensures RowsOf(PurgeFrom(w.tables, cutoff).rows, k) == RowsOf(w.tables.rows, k)
    {
      RetainedPartition(w.tables, w.tables.rows, cutoff, k);
    }
  }

  // ------------------------------------------------------------ what the status says

  /** Every catalogued run, step and human event moves the status; nothing else does. */
  predicate Lifecycle(k: Kind) { !k.OtherEvent? }

  /** Event `i` is the last lifecycle event of the history. */
  predicate LastLifecycle(events: seq<Envelope>, i: nat)
  {
    i < |events| && Lifecycle(events[i].kind) && forall j | i < j < |events| :: !Lifecycle(events[j].kind)
  }

  /** The status a last lifecycle event of that kind leaves. */
  predicate Says(status: string, k: Kind)
  {
    && (status == "failed" <==> k.RunFailed?)
    && (status == "completed" <==> k.RunCompleted?)
    && (status == "waiting_human" <==> k.HumanRequested?)
    && (status == "running" <==> !k.RunFailed? && !k.RunCompleted? && !k.HumanRequested?)
  }

  lemma {:induction false} StatusFollowsLifecycle(events: seq<Envelope>, i: nat)
    requires LastLifecycle(events, i)
    ensures Says(StatusOf(events), events[i].kind)
    decreases |events|
  {
    var n := |events| - 1;
    if i < n {
      assert !Lifecycle(events[n].kind);
      StatusFollowsLifecycle(events[..n], i);
    }
  }

  lemma {:induction false} NoLifecycleNoStatus(events: seq<Envelope>)
    requires forall i | 0 <= i < |events| :: !Lifecycle(events[i].kind)
    ensures StatusOf(events) == ""
  {
    if events != [] {
      assert !Lifecycle(events[|events| - 1].kind);
      NoLifecycleNoStatus(events[..|events| - 1]);
    }
  }

  /** After every history, a partition's projection says `failed`, `completed` or
      `waiting_human` exactly if its last lifecycle event is a run failure, a run completion or
      a human request, and `running` after any other. */
  lemma ProjectionFollowsLifecycle(ops: seq<Op>, k: string, i: nat)
    requires LastLifecycle(HistoryOf(Run(ops), k), i)
    ensures k in Run(ops).tables.projections
    ensures Says(Run(ops).tables.projections[k].status, HistoryOf(Run(ops), k)[i].kind)
  {
    EveryHistoryIsConsistent(ops);
    StatusFollowsLifecycle(HistoryOf(Run(ops), k), i);
  }

  /** It is empty for a partition that has had events but no lifecycle event. */
  lemma ProjectionStartsEmpty(ops: seq<Op>, k: string)
    requires k in Run(ops).tables.projections
    requires forall i | 0 <= i < |HistoryOf(Run(ops), k)| :: !Lifecycle(HistoryOf(Run(ops), k)[i].kind)
    ensures Run(ops).tables.projections[k].status == ""
  {
    EveryHistoryIsConsistent(ops);
    NoLifecycleNoStatus(HistoryOf(Run(ops), k));
  }

  /** The last lifecycle event ends the run. */
  predicate RunEnded(events: seq<Envelope>)
  {
    exists i | 0 <= i < |events| :: LastLifecycle(events, i) && (events[i].kind.RunCompleted? || events[i].kind.RunFailed?)
  }

  lemma {:induction false} LifecycleOrNone(events: seq<Envelope>) returns (i: Option<nat>)
    ensures i.Some? ==> LastLifecycle(events, i.value)
    ensures i.None? ==> forall j | 0 <= j < |events| :: !Lifecycle(events[j].kind)
  {
    if events == [] {
      return None;
    }
    var n := |events| - 1;
    if Lifecycle(events[n].kind) {
      return Some(n);
    }
    i := LifecycleOrNone(events[..n]);
  }

  lemma TerminalMeansEnded(events: seq<Envelope>)
    ensures TerminalStatus(StatusOf(events)) <==> RunEnded(events)
  {
    var i := LifecycleOrNone(events);
    if i.Some? {
      StatusFollowsLifecycle(events, i.value);
      assert forall j: nat | LastLifecycle(events, j) :: j == i.value;
    } else {
      NoLifecycleNoStatus(events);
    }
  }

  /** After every history, a purge removes a row exactly if the row is old and the last
      lifecycle event its partition ever had is a run completion or a run failure. */
  lemma PurgeRemovesExactly(ops: seq<Op>, cutoff: int, r: Row)
    requires r in Run(ops).tables.rows
    ensures r !in PurgeFrom(Run(ops).tables, cutoff).rows <==>
              r.storedAt < cutoff && RunEnded(HistoryOf(Run(ops), r.envelope.partition))
  {
    var w, k := Run(ops), r.envelope.partition;
    EveryHistoryIsConsistent(ops);
    PurgeIsCompaction(w, cutoff);
    TerminalMeansEnded(HistoryOf(w, k));
  }

  // ------------------------------------------------------------ numbering

  /** `r` is the row of `k` with the largest sequence. */
  predicate Newest(rows: seq<Row>, k: string, r: Row)
  {
    r in rows && r.envelope.partition == k && r.sequence == MaxSequence(rows, k)
  }

  /** Operation `i` is a purge that removes the newest row of `k`. */
  ghost predicate LosesNewest(ops: seq<Op>, i: nat, k: string)
  {
    && i < |ops| && ops[i].Purge?
    && PurgesNewest(Run(ops[..i]).tables, ops[i].cutoff, k)
  }

  predicate PurgesNewest(t: Tables, cutoff: int, k: string)
  {
    exists r | r in t.rows :: Newest(t.rows, k, r) && Expired(t, r, cutoff)
  }

  lemma {:induction false} MaxIsAttained(rows: seq<Row>, k: string) returns (r: Option<Row>)
    ensures r.Some? ==> Newest(rows, k, r.value)
    ensures r.None? ==> MaxSequence(rows, k) == 0
  {
    if rows == [] {
      return None;
    }
    var front, last := rows[..|rows| - 1], rows[|rows| - 1];
    r := MaxIsAttained(front, k);
    if MaxSequence(rows, k) > MaxSequence(front, k) {
      r := Some(last);
    }
  }

  lemma {:induction false} MaxIsLeastBound(rows: seq<Row>, k: string, n: nat)
    requires forall r | r in rows && r.envelope.partition == k :: r.sequence <= n
    ensures MaxSequence(rows, k) <= n
  {
    if rows != [] {
      MaxIsLeastBound(rows[..|rows| - 1], k, n);
    }
  }

  lemma {:induction false} SequencesAreUnique(rows: seq<Row>, a: Row, b: Row)
    requires Ordered(rows) && a in rows && b in rows
    requires a.envelope.partition == b.envelope.partition && a.sequence == b.sequence
    ensures a == b && a.sequence > 0
  {
    var front, last := rows[..|rows| - 1], rows[|rows| - 1];
    assert rows == front + [last];
    if a in front && b in front {
      SequencesAreUnique(front, a, b);
    }
  }

  lemma PurgeLowersMax(t: Tables, cutoff: int, k: string)
    requires Ordered(t.rows)
    ensures MaxSequence(PurgeFrom(t, cutoff).rows, k) <= MaxSequence(t.rows, k)
  {
    RetainedKeepsOrder(t, t.rows, cutoff);
    MaxSequenceBounds(t.rows, k);
    MaxIsLeastBound(Retained(t, t.rows, cutoff), k, MaxSequence(t.rows, k));
  }

  lemma LosingNewestLowersMax(t: Tables, cutoff: int, k: string, newest: Row)
    requires Ordered(t.rows) && Newest(t.rows, k, newest) && Expired(t, newest, cutoff)
    ensures MaxSequence(PurgeFrom(t, cutoff).rows, k) < MaxSequence(t.rows, k)
  {
    var kept := Retained(t, t.rows, cutoff);
    RetainedKeepsOrder(t, t.rows, cutoff);
    MaxSequenceBounds(t.rows, k);
    SequencesAreUnique(t.rows, newest, newest);
    forall r | r in kept && r.envelope.partition == k ensures r.sequence <= MaxSequence(t.rows, k) - 1 {
      if r.sequence == newest.sequence {
        SequencesAreUnique(t.rows, r, newest);
      }
    }
    MaxIsLeastBound(kept, k, MaxSequence(t.rows, k) - 1);
  }

  lemma KeepingNewestKeepsMax(t: Tables, cutoff: int, k: string)
    requires Ordered(t.rows) && !PurgesNewest(t, cutoff, k)
    ensures MaxSequence(PurgeFrom(t, cutoff).rows, k) == MaxSequence(t.rows, k)
  {
    PurgeLowersMax(t, cutoff, k);
    var newest := MaxIsAttained(t.rows, k);
    if newest.Some? {
      RetainedKeepsOrder(t, t.rows, cutoff);
      MaxSequenceBounds(Retained(t, t.rows, cutoff), k);
      assert newest.value in Retained(t, t.rows, cutoff);
    }
  }

  lemma AppendRaisesMax(w: World, e: Envelope, storedAt: int, k: string)
    requires !HasId(w.tables.rows, e.id)
    ensures
      var next := Next(w, Append(e, storedAt));
      MaxSequence(next.tables.rows, k) - MaxSequence(w.tables.rows, k) == |HistoryOf(next, k)| - |HistoryOf(w, k)|
  {
    var row := Row(MaxSequence(w.tables.rows, e.partition) + 1, e, storedAt);
    assert (w.tables.rows + [row])[..|w.tables.rows|] == w.tables.rows;
  }

  /** How far the numbering of `k` is behind the number of events it accepted. */
  function Lag(w: World, k: string): int { |HistoryOf(w, k)| - MaxSequence(w.tables.rows, k) }

  /** Only a purge of the newest row moves the lag, and it raises it. */
  lemma LagGrows(w: World, op: Op, k: string)
    requires Consistent(w)
    ensures Lag(Next(w, op), k) >= Lag(w, k)
    ensures Lag(Next(w, op), k) > Lag(w, k) <==> op.Purge? && PurgesNewest(w.tables, op.cutoff, k)
  {
    match op
    case Append(e, storedAt) =>
      if !HasId(w.tables.rows, e.id) {
        AppendRaisesMax(w, e, storedAt, k);
      }
    case Purge(cutoff) =>
      if r :| r in w.tables.rows && Newest(w.tables.rows, k, r) && Expired(w.tables, r, cutoff) {
        LosingNewestLowersMax(w.tables, cutoff, k, r);
      } else {
        KeepingNewestKeepsMax(w.tables, cutoff, k);
      }
  }

  ghost predicate SomeLosesNewest(ops: seq<Op>, k: string)
  {
    exists i: nat :: LosesNewest(ops, i, k)
  }

  lemma LosesNewestExtends(ops: seq<Op>, k: string)
    requires ops != []
    ensures SomeLosesNewest(ops, k) <==>
              SomeLosesNewest(ops[..|ops| - 1], k) || LosesNewest(ops, |ops| - 1, k)
  {
    var n := |ops| - 1;
    forall i: nat | i < n ensures LosesNewest(ops, i, k) <==> LosesNewest(ops[..n], i, k) {
      assert ops[..n][..i] == ops[..i];
    }
  }

  lemma {:induction false} LagIsExact(ops: seq<Op>, k: string)
    ensures Lag(Run(ops), k) >= 0
    ensures Lag(Run(ops), k) > 0 <==> SomeLosesNewest(ops, k)
  {
    if ops != [] {
      var n := |ops| - 1;
      LagIsExact(ops[..n], k);
      EveryHistoryIsConsistent(ops[..n]);
      LagGrows(Run(ops[..n]), ops[n], k);
      LosesNewestExtends(ops, k);
    }
  }

  /** After any appends and purges, a partition's next event gets the number that follows all
      it ever accepted if and only if no purge removed its newest row. */
  lemma NumberingContinuesExactly(ops: seq<Op>, k: string)
    ensures MaxSequence(Run(ops).tables.rows, k) == |HistoryOf(Run(ops), k)| <==>
            forall i: nat :: !LosesNewest(ops, i, k)
  {
    LagIsExact(ops, k);
  }

  lemma RunExtends(ops: seq<Op>, op: Op)
    ensures Run(ops + [op]) == Next(Run(ops), op)
  {
    assert (ops + [op])[..|ops|] == ops;
  }

  lemma FirstAppend(e: Envelope)
    ensures
      var w := Run([Append(e, 0)]);
      && w.tables.rows == [Row(1, e, 0)] && w.history == map[e.partition := [e]]
      && w.tables.projections == map[e.partition := Upsert(None, e, 1)]
  {
    var t := Tables([], map[]);
    assert !HasId(t.rows, e.id) && MaxSequence(t.rows, e.partition) == 0;
    assert t.rows + [Row(1, e, 0)] == [Row(1, e, 0)];
    assert AppendTo(t, e, 0) == Tables([Row(1, e, 0)], map[e.partition := Upsert(None, e, 1)]);
    assert HistoryOf(World(t, map[], {}), e.partition) + [e] == [e];
    var ops: seq<Op> := [];
    RunExtends(ops, Append(e, 0));
    assert ops + [Append(e, 0)] == [Append(e, 0)];
  }

  /** It can happen: once the only event of a completed run is purged, its next event is
      numbered 1 again. */
  lemma NumberingCanRestart(e: Envelope, again: Envelope)
    requires e.kind.RunCompleted? && again.partition == e.partition
    ensures
      var w := Run([Append(e, 0), Purge(1)]);
      && HistoryOf(w, e.partition) == [e]
      && AppendTo(w.tables, again, 2).rows == [Row(1, again, 2)]
  {
    FirstAppend(e);
    var w := Run([Append(e, 0)]);
    assert [Append(e, 0)] + [Purge(1)] == [Append(e, 0), Purge(1)];
    RunExtends([Append(e, 0)], Purge(1));
    assert Expired(w.tables, Row(1, e, 0), 1);
    assert [Row(1, e, 0)][..0] == [];
    assert Retained(w.tables, [], 1) == [];
    assert Retained(w.tables, [Row(1, e, 0)], 1) == [];
  }

  // ------------------------------------------------------------ the store

  class Store {
    var tables: Tables

    constructor ()
      ensures tables == Tables([], map[])
    {
      tables := Tables([], map[]);
    }

    /** Appends an envelope; `None` when its id is already stored, and then nothing changes. */
    method AppendEvent(e: Envelope, storedAt: int) returns (stored: Option<Row>)
      modifies this
      ensures tables == AppendTo(old(tables), e, storedAt)
      ensures stored.None? <==> HasId(old(tables).rows, e.id)
      ensures stored.Some? ==> tables.rows == old(tables).rows + [stored.value]
    {
      if HasId(tables.rows, e.id) {
        return None;
      }
      var sequence := MaxSequence(tables.rows, e.partition) + 1;
      var row := Row(sequence, e, storedAt);
      var projection := Upsert(ProjectionOf(tables, e.partition), e, sequence);
      tables := Tables(tables.rows + [row], tables.projections[e.partition := projection]);
      stored := Some(row);
    }

    /** Deletes the old events of terminal partitions; a negative retention disables it. */
    method PurgeExpired(retention: int, now: int) returns (deleted: nat)
      modifies this
      ensures retention < 0 ==> tables == old(tables) && deleted == 0
      ensures retention >= 0 ==> tables == PurgeFrom(old(tables), now - retention)
      ensures deleted == |old(tables).rows| - |tables.rows|
    {
      if retention < 0 {
        return 0;
      }
      RetainedIsShorter(tables, tables.rows, now - retention);
      var kept := Retained(tables, tables.rows, now - retention);
      deleted := |tables.rows| - |kept|;
      tables := tables.(rows := kept);
    }
  }

  lemma {:induction false} RetainedIsShorter(t: Tables, rows: seq<Row>, cutoff: int)
    ensures |Retained(t, rows, cutoff)| <= |rows|
  {
    if rows != [] {
      RetainedIsShorter(t, rows[..|rows| - 1], cutoff);
    }
  }
}
