/** Rebuilding a run's view from its stored events, and how it relates to the projection. */
module EventReconstruction {
  import opened Wrappers
  import opened EventStore

  datatype StepView = StepView(key: string, status: string, attempt: int, sequence: nat)

  /** The view under construction; `open` maps a step key to the position of its latest start. */
  datatype View = View(status: string, steps: seq<StepView>, open: map<string, nat>)

  predicate IsStart(r: Row, key: string) { r.envelope.kind.StepStarted? && r.envelope.stepKey == key }

  predicate IsEnd(r: Row, key: string)
  {
    (r.envelope.kind.StepCompleted? || r.envelope.kind.StepFailed?) && r.envelope.stepKey == key
  }

  function PayloadStatus(e: Envelope): string { if e.status.Some? then e.status.value else "completed" }

  function EndStatus(e: Envelope): string
  {
    if e.kind.StepCompleted? then PayloadStatus(e) else "failed"
  }

  /** The status after one event: a completion event may carry its own. */
  function NextStatus(status: string, e: Envelope): string
  {
    if e.kind.RunCompleted? then PayloadStatus(e)
    else
      var implied := StatusByEvent(e.kind);
      if implied.Some? then implied.value else status
  }

  function Advance(v: View, r: Row): View
  {
    var e := r.envelope;
    var status := NextStatus(v.status, e);
    if e.kind.StepStarted? then
      View(status, v.steps + [StepView(e.stepKey, "running", 1, r.sequence)],
           v.open[e.stepKey := |v.steps|])
    else if e.kind.StepCompleted? || e.kind.StepFailed? then
      if e.stepKey in v.open && v.open[e.stepKey] < |v.steps| then
        var at := v.open[e.stepKey];
        View(status, v.steps[at := v.steps[at].(status := EndStatus(e), attempt := e.attempt)], v.open)
      else
        View(status, v.steps + [StepView(e.stepKey, EndStatus(e), e.attempt, r.sequence)], v.open)
    else v.(status := status)
  }

  /** The fold over a prefix of the log. */
  function Rebuild(rows: seq<Row>): View
  {
    if rows == [] then View("", [], map[])
    else Advance(Rebuild(rows[..|rows| - 1]), rows[|rows| - 1])
  }

  /** The loop of `reconstruct_run`. */
  method ReconstructRun(rows: seq<Row>) returns (status: string, steps: seq<StepView>)
    ensures status == Rebuild(rows).status && steps == Rebuild(rows).steps
  {
    status, steps := "", [];
    var open: map<string, nat> := map[];
    for i := 0 to |rows|
      invariant View(status, steps, open) == Rebuild(rows[..i])
      invariant forall k | k in open :: open[k] < |steps|
    {
      assert rows[..i + 1][..i] == rows[..i];
      var e := rows[i].envelope;
      status := NextStatus(status, e);
      if e.kind.StepStarted? {
        steps, open := steps + [StepView(e.stepKey, "running", 1, rows[i].sequence)],
                       open[e.stepKey := |steps|];
      } else if e.kind.StepCompleted? || e.kind.StepFailed? {
        if e.stepKey in open {
          var at := open[e.stepKey];
          steps := steps[at := steps[at].(status := EndStatus(e), attempt := e.attempt)];
        } else {
          steps := steps + [StepView(e.stepKey, EndStatus(e), e.attempt, rows[i].sequence)];
        }
      }
    }
    assert rows[..|rows|] == rows;
  }

  // ------------------------------------------------------------ status

  function Envelopes(rows: seq<Row>): seq<Envelope>
  {
    seq(|rows|, i requires 0 <= i < |rows| => rows[i].envelope)
  }

  /** The last event of the log that carries a status. */
  function LastBearing(events: seq<Envelope>): Option<Envelope>
  {
    if events == [] then None
    else if StatusByEvent(events[|events| - 1].kind).Some? then Some(events[|events| - 1])
    else LastBearing(events[..|events| - 1])
  }

  /** The view's status differs from the folded one exactly when the last status-bearing
      event is a run completion whose payload says something else. */
  lemma {:induction false} StatusAgrees(rows: seq<Row>)
    ensures
      var last := LastBearing(Envelopes(rows));
      Rebuild(rows).status == StatusOf(Envelopes(rows)) <==>
      !(last.Some? && last.value.kind.RunCompleted? && PayloadStatus(last.value) != "completed")
  {
    if rows != [] {
      var n := |rows| - 1;
      assert Envelopes(rows)[..n] == Envelopes(rows[..n]);
      StatusAgrees(rows[..n]);
    }
  }

  /** The same, over whole histories: for every partition no purge has compacted, the view
      rebuilt from the log and the materialised projection agree on the status unless the
      completion event overrides it. */
  lemma ReconstructionMatchesProjection(ops: seq<Op>, k: string)
    requires k !in Run(ops).compacted && k in Run(ops).history
    ensures
      var w := Run(ops);
      var log := RowsOf(w.tables.rows, k);
      var last := LastBearing(w.history[k]);
      && k in w.tables.projections
      && (Rebuild(log).status == w.tables.projections[k].status <==>
          !(last.Some? && last.value.kind.RunCompleted? && PayloadStatus(last.value) != "completed"))
  {
    EveryHistoryIsConsistent(ops);
    IntactLogIsHistory(Run(ops), k);
    StatusAgrees(RowsOf(Run(ops).tables.rows, k));
  }

  lemma IntactLogIsHistory(w: World, k: string)
    requires Consistent(w) && k !in w.compacted && k in w.history
    ensures Envelopes(RowsOf(w.tables.rows, k)) == w.history[k]
    ensures k in w.tables.projections && w.tables.projections[k].status == StatusOf(w.history[k])
  {
    assert LogIntact(w, k);
    var log := RowsOf(w.tables.rows, k);
    assert forall i | 0 <= i < |log| :: Envelopes(log)[i] == log[i].envelope == w.history[k][i];
    assert Summarizes(w.tables.projections[k], w.history[k]);
  }

  // ------------------------------------------------------------ steps

  predicate Increasing(rows: seq<Row>)
  {
    forall i, j | 0 <= i < j < |rows| :: rows[i].sequence < rows[j].sequence
  }

  /** Step sequences grow along the view and none is past `bound`. */
  predicate StepsOrdered(v: View, bound: int)
  {
    && (forall i, j | 0 <= i < j < |v.steps| :: v.steps[i].sequence < v.steps[j].sequence)
    && (forall i | 0 <= i < |v.steps| :: v.steps[i].sequence <= bound)
  }

  lemma AdvanceKeepsOrder(v: View, r: Row)
    requires StepsOrdered(v, r.sequence - 1)
    ensures StepsOrdered(Advance(v, r), r.sequence)
  {
  }

  /** One event changes at most the step its key has open. */
  lemma AdvanceTouches(v: View, r: Row, j: nat)
    requires j < |v.steps|
    ensures
      var key, after := r.envelope.stepKey, Advance(v, r).steps;
      && j < |after|
      && after[j] == if IsEnd(r, key) && key in v.open && v.open[key] == j
                     then v.steps[j].(status := EndStatus(r.envelope), attempt := r.envelope.attempt)
                     else v.steps[j]
  {
  }

  /** The rebuilt steps follow the order of the log. */
  lemma {:induction false} StepsFollowTheLog(rows: seq<Row>)
    requires Increasing(rows)
    ensures StepsOrdered(Rebuild(rows), if rows == [] then -1 else rows[|rows| - 1].sequence)
  {
    if rows != [] {
      var front := rows[..|rows| - 1];
      StepsFollowTheLog(front);
      if front != [] {
        assert rows[|front| - 1].sequence < rows[|front|].sequence;
      }
      AdvanceKeepsOrder(Rebuild(front), rows[|front|]);
    }
  }

  lemma {:induction false} RowsOfMembers(rows: seq<Row>, k: string)
    ensures forall r | r in RowsOf(rows, k) :: r in rows && r.envelope.partition == k
  {
    if rows != [] {
      RowsOfMembers(rows[..|rows| - 1], k);
    }
  }

  lemma {:induction false} PartitionIncreases(rows: seq<Row>, k: string)
    requires Ordered(rows)
    ensures Increasing(RowsOf(rows, k))
  {
    if rows != [] {
      var front, last := rows[..|rows| - 1], rows[|rows| - 1];
      PartitionIncreases(front, k);
      RowsOfMembers(front, k);
      if last.envelope.partition == k {
        LastIncreases(RowsOf(front, k), last);
      }
    }
  }

  lemma LastIncreases(rows: seq<Row>, last: Row)
    requires Increasing(rows) && forall r | r in rows :: r.sequence < last.sequence
    ensures Increasing(rows + [last])
  {
    forall i, j | 0 <= i < j < |rows + [last]| ensures (rows + [last])[i].sequence < (rows + [last])[j].sequence {
      assert rows[i] in rows;
    }
  }

  /** After any appends and purges, the steps rebuilt for a partition have strictly increasing
      sequences. */
  lemma EveryViewIsOrdered(ops: seq<Op>, k: string)
    ensures
      var steps := Rebuild(RowsOf(Run(ops).tables.rows, k)).steps;
      forall i, j | 0 <= i < j < |steps| :: steps[i].sequence < steps[j].sequence
  {
    EveryHistoryIsConsistent(ops);
    PartitionIncreases(Run(ops).tables.rows, k);
    StepsFollowTheLog(RowsOf(Run(ops).tables.rows, k));
  }

  /** The position of the latest start of a key. */
  function LatestStart(rows: seq<Row>, key: string): (p: Option<nat>)
    ensures p.Some? ==>
              && p.value < |rows| && IsStart(rows[p.value], key)
              && forall t | p.value < t < |rows| :: !IsStart(rows[t], key)
    ensures p.None? ==> forall t | 0 <= t < |rows| :: !IsStart(rows[t], key)
  {
    if rows == [] then None
    else if IsStart(rows[|rows| - 1], key) then Some(|rows| - 1)
    else LatestStart(rows[..|rows| - 1], key)
  }

  /** An end event for the step started at `p` occurs before its key starts again. */
  predicate Closed(rows: seq<Row>, p: nat)
    requires p < |rows|
  {
    exists q | 0 <= q < |rows| :: Ends(rows, p, q, rows[p].envelope.stepKey)
  }

  /** The step a start event creates. */
  function StepAt(rows: seq<Row>, p: nat): nat
    requires p < |rows|
  {
    |Rebuild(rows[..p]).steps|
  }

  /** Event `q` ends the step started at `p` before its key starts again. */
  predicate Ends(rows: seq<Row>, p: nat, q: nat, key: string)
  {
    p < q < |rows| && IsEnd(rows[q], key) && forall t | p < t < q :: !IsStart(rows[t], key)
  }

  lemma EndsInFront(rows: seq<Row>, n: nat, p: nat, q: nat, key: string)
    requires q < n <= |rows|
    ensures Ends(rows[..n], p, q, key) <==> Ends(rows, p, q, key)
  {
    assert forall t | 0 <= t < n :: rows[..n][t] == rows[t];
  }

  lemma EndsAtLast(rows: seq<Row>, p: nat, key: string)
    requires p < |rows| - 1 && IsStart(rows[p], key)
    ensures Ends(rows, p, |rows| - 1, key) <==>
              IsEnd(rows[|rows| - 1], key) && LatestStart(rows[..|rows| - 1], key) == Some(p)
  {
    var n := |rows| - 1;
    var front := rows[..n];
    assert forall t | 0 <= t < n :: front[t] == rows[t];
    var s := LatestStart(front, key);
    assert IsStart(front[p], key);
    assert s.Some? && s.value >= p;
  }

  /** One more event closes a step exactly when it ends the latest start of its key. */
  lemma ClosedByLast(rows: seq<Row>, p: nat)
    requires p < |rows| - 1 && IsStart(rows[p], rows[p].envelope.stepKey)
    ensures
      var n := |rows| - 1;
      var key := rows[p].envelope.stepKey;
      Closed(rows, p) <==>
      Closed(rows[..n], p) || (IsEnd(rows[n], key) && LatestStart(rows[..n], key) == Some(p))
  {
    var n, key := |rows| - 1, rows[p].envelope.stepKey;
    EndsAtLast(rows, p, key);
    if q: nat :| Ends(rows[..n], p, q, key) {
      EndsInFront(rows, n, p, q, key);
    }
    if q: nat :| Ends(rows, p, q, key) && q < n {
      EndsInFront(rows, n, p, q, key);
    }
  }

  /** `open` points at the step of each key's latest start. */
  ghost predicate OpenTracksStarts(rows: seq<Row>)
  {
    var v := Rebuild(rows);
    forall key ::
      var s := LatestStart(rows, key);
      if s.None? then key !in v.open
      else key in v.open && v.open[key] == StepAt(rows, s.value) && v.open[key] < |v.steps|
  }

  lemma {:induction false} OpenIsTracked(rows: seq<Row>)
    ensures OpenTracksStarts(rows)
  {
    if rows != [] {
      var n := |rows| - 1;
      OpenIsTracked(rows[..n]);
      forall key
        ensures
          var v, s := Rebuild(rows), LatestStart(rows, key);
          if s.None? then key !in v.open
          else key in v.open && v.open[key] == StepAt(rows, s.value) && v.open[key] < |v.steps|
      {
        var s := LatestStart(rows[..n], key);
        if s.Some? {
          assert rows[..n][..s.value] == rows[..s.value];
        }
      }
    }
  }

  /** What the view says about the step started at `p`. */
  predicate StartIsShown(rows: seq<Row>, p: nat)
    requires p < |rows|
  {
    var v := Rebuild(rows);
    var j := StepAt(rows, p);
    && j < |v.steps|
    && v.steps[j].key == rows[p].envelope.stepKey && v.steps[j].sequence == rows[p].sequence
    && (v.steps[j].status == "running" <==> !Closed(rows, p))
  }

  /** Step completions never report themselves as still running. */
  predicate EndsAreFinal(rows: seq<Row>)
  {
    forall i | 0 <= i < |rows| :: rows[i].envelope.kind.StepCompleted? ==>
      PayloadStatus(rows[i].envelope) != "running"
  }

  lemma {:induction false} StepAtGrows(rows: seq<Row>, p: nat, q: nat)
    requires p < q <= |rows| && rows[p].envelope.kind.StepStarted?
    ensures |Rebuild(rows[..p]).steps| < |Rebuild(rows[..q]).steps|
    decreases q
  {
    assert rows[..q][..q - 1] == rows[..q - 1];
    if p < q - 1 {
      StepAtGrows(rows, p, q - 1);
    }
  }

  /** A step is left `running` exactly when no end event for its key arrives before that key
      starts again; every start event has its own step, whatever else the log holds. */
  lemma {:induction false} RunningMeansUnfinished(rows: seq<Row>, p: nat)
    requires EndsAreFinal(rows) && p < |rows| && rows[p].envelope.kind.StepStarted?
    ensures StartIsShown(rows, p)
    decreases |rows|
  {
    var n := |rows| - 1;
    var front, last := rows[..n], rows[n];
    if p == n {
      assert front == rows[..p];
    } else {
      RunningMeansUnfinished(front, p);
      ClosedByLast(rows, p);
      assert front[..p] == rows[..p];
      LastTouches(rows, p);
    }
  }

  lemma DistinctStarts(rows: seq<Row>, p: nat, q: nat)
    requires p < |rows| && q < |rows|
    requires rows[p].envelope.kind.StepStarted? && rows[q].envelope.kind.StepStarted?
    ensures StepAt(rows, p) == StepAt(rows, q) <==> p == q
  {
    if p < q {
      StepAtGrows(rows, p, q);
    } else if q < p {
      StepAtGrows(rows, q, p);
    }
  }

  /** The step an end event of `key` would close is the one started at `p` exactly when `p` is
      the latest start of that key. */
  lemma OpenIsThatStart(rows: seq<Row>, n: nat, key: string, p: nat)
    requires p < n < |rows| && rows[p].envelope.kind.StepStarted?
    ensures
      var open := Rebuild(rows[..n]).open;
      key in open && open[key] == StepAt(rows, p) <==> LatestStart(rows[..n], key) == Some(p)
  {
    var front := rows[..n];
    OpenIsTracked(front);
    var s := LatestStart(front, key);
    if s.Some? {
      assert front[..s.value] == rows[..s.value] && front[s.value] == rows[s.value];
      DistinctStarts(rows, p, s.value);
    }
  }

  lemma LatestStartHasKey(rows: seq<Row>, n: nat, key: string, p: nat)
    requires p < n <= |rows| && LatestStart(rows[..n], key) == Some(p)
    ensures rows[p].envelope.stepKey == key
  {
    assert IsStart(rows[..n][p], key);
  }

  /** The last event changes the step started at `p` exactly when it ends that very start. */
  lemma LastTouches(rows: seq<Row>, p: nat)
    requires EndsAreFinal(rows) && p < |rows| - 1 && rows[p].envelope.kind.StepStarted?
    requires StepAt(rows, p) < |Rebuild(rows[..|rows| - 1]).steps|
    ensures
      var n := |rows| - 1;
      var key := rows[p].envelope.stepKey;
      var before, after, j := Rebuild(rows[..n]).steps, Rebuild(rows).steps, StepAt(rows, p);
      && j < |after|
      && if IsEnd(rows[n], key) && LatestStart(rows[..n], key) == Some(p)
         then after[j].key == before[j].key && after[j].sequence == before[j].sequence &&
              after[j].status != "running"
         else after[j] == before[j]
  {
    var n := |rows| - 1;
    var last := rows[n];
    AdvanceTouches(Rebuild(rows[..n]), last, StepAt(rows, p));
    OpenIsThatStart(rows, n, last.envelope.stepKey, p);
    if LatestStart(rows[..n], last.envelope.stepKey) == Some(p) {
      LatestStartHasKey(rows, n, last.envelope.stepKey, p);
    }
  }

  // ------------------------------------------------------------ how a closed step ended

  /** Event `q` is the last to end the step started at `p`: it and no later event ends that key
      before the key starts again. */
  predicate LastEnd(rows: seq<Row>, p: nat, q: nat)
    requires p < |rows|
  {
    var key := rows[p].envelope.stepKey;
    && p < q < |rows| && IsEnd(rows[q], key) && (forall t | p < t < q :: !IsStart(rows[t], key))
    && forall t | q < t < |rows| :: IsEnd(rows[t], key) ==> exists u | q < u < t :: IsStart(rows[u], key)
  }

  /** How an end event says its step ended. */
  predicate ShowsEnd(v: StepView, e: Envelope)
  {
    && v.attempt == e.attempt
    && (e.kind.StepFailed? ==> v.status == "failed")
    && (e.kind.StepCompleted? && e.status.Some? ==> v.status == e.status.value)
    && (e.kind.StepCompleted? && e.status.None? ==> v.status == "completed")
  }

  lemma LastEndIsOpen(rows: seq<Row>, p: nat)
    requires p < |rows| - 1 && rows[p].envelope.kind.StepStarted? && LastEnd(rows, p, |rows| - 1)
    ensures LatestStart(rows[..|rows| - 1], rows[p].envelope.stepKey) == Some(p)
  {
    var n, key := |rows| - 1, rows[p].envelope.stepKey;
    var front := rows[..n];
    assert IsStart(front[p], key) && forall t | p < t < n :: front[t] == rows[t];
  }

  /** A later event that does not end the step leaves it as its last end left it. */
  lemma LastEndStays(rows: seq<Row>, p: nat, q: nat)
    requires p < q < |rows| - 1 && rows[p].envelope.kind.StepStarted? && LastEnd(rows, p, q)
    ensures LastEnd(rows[..|rows| - 1], p, q)
    ensures !(IsEnd(rows[|rows| - 1], rows[p].envelope.stepKey) &&
              LatestStart(rows[..|rows| - 1], rows[p].envelope.stepKey) == Some(p))
  {
    var n, key := |rows| - 1, rows[p].envelope.stepKey;
    var front := rows[..n];
    assert forall t | 0 <= t < n :: front[t] == rows[t];
    if IsEnd(rows[n], key) {
      var u :| q < u < n && IsStart(rows[u], key);
      assert IsStart(front[u], key);
    }
    forall t | q < t < |front| && IsEnd(front[t], key) ensures exists u | q < u < t :: IsStart(front[u], key) {
      var u :| q < u < t && IsStart(rows[u], key);
      assert IsStart(front[u], key);
    }
  }

  /** One end event of the latest start shows on its step. */
  lemma LastShowsEnd(rows: seq<Row>, p: nat)
    requires p < |rows| - 1 && rows[p].envelope.kind.StepStarted? && LastEnd(rows, p, |rows| - 1)
    requires StepAt(rows, p) < |Rebuild(rows[..|rows| - 1]).steps|
    ensures StepAt(rows, p) < |Rebuild(rows).steps|
    ensures ShowsEnd(Rebuild(rows).steps[StepAt(rows, p)], rows[|rows| - 1].envelope)
  {
    var n, key := |rows| - 1, rows[p].envelope.stepKey;
    LastEndIsOpen(rows, p);
    OpenIsThatStart(rows, n, key, p);
    AdvanceTouches(Rebuild(rows[..n]), rows[n], StepAt(rows, p));
  }

  lemma {:induction false} StartHasStep(rows: seq<Row>, p: nat, n: nat)
    requires p < n <= |rows| && rows[p].envelope.kind.StepStarted?
    ensures StepAt(rows, p) < |Rebuild(rows[..n]).steps|
  {
    StepAtGrows(rows, p, n);
  }

  /** A step shows the status and attempt of the last event that ended it: failed, or what the
      completion reported, completed by default. */
  lemma {:induction false} ClosedShowsLastEnd(rows: seq<Row>, p: nat, q: nat)
    requires p < |rows| && rows[p].envelope.kind.StepStarted? && LastEnd(rows, p, q)
    ensures StepAt(rows, p) < |Rebuild(rows).steps|
    ensures ShowsEnd(Rebuild(rows).steps[StepAt(rows, p)], rows[q].envelope)
    decreases |rows|
  {
    var n := |rows| - 1;
    StartHasStep(rows, p, n);
    if q == n {
      LastShowsEnd(rows, p);
    } else {
      LastEndStays(rows, p, q);
      ClosedShowsLastEnd(rows[..n], p, q);
      assert rows[..n][..p] == rows[..p];
      LastLeaves(rows, p);
    }
  }

  lemma LastLeaves(rows: seq<Row>, p: nat)
    requires p < |rows| - 1 && rows[p].envelope.kind.StepStarted?
    requires StepAt(rows, p) < |Rebuild(rows[..|rows| - 1]).steps|
    requires !(IsEnd(rows[|rows| - 1], rows[p].envelope.stepKey) &&
               LatestStart(rows[..|rows| - 1], rows[p].envelope.stepKey) == Some(p))
    ensures StepAt(rows, p) < |Rebuild(rows).steps|
    ensures Rebuild(rows).steps[StepAt(rows, p)] == Rebuild(rows[..|rows| - 1]).steps[StepAt(rows, p)]
  {
    var n := |rows| - 1;
    var key := rows[n].envelope.stepKey;
    AdvanceTouches(Rebuild(rows[..n]), rows[n], StepAt(rows, p));
    OpenIsThatStart(rows, n, key, p);
    if LatestStart(rows[..n], key) == Some(p) {
      LatestStartHasKey(rows, n, key, p);
    }
  }

  /** An end event of a key that never started is not lost: it adds a step of its own. */
  lemma OrphanEndAddsStep(rows: seq<Row>, key: string)
    requires rows != [] && IsEnd(rows[|rows| - 1], key) && LatestStart(rows[..|rows| - 1], key).None?
    ensures
      var before, after, e := Rebuild(rows[..|rows| - 1]).steps, Rebuild(rows).steps, rows[|rows| - 1];
      && |after| == |before| + 1 && after[..|before|] == before
      && after[|before|].key == key && after[|before|].sequence == e.sequence && ShowsEnd(after[|before|], e.envelope)
  {
    OpenIsTracked(rows[..|rows| - 1]);
  }
}
