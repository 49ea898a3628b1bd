/** Garbage collection of stored artifacts, alone and racing writers. */
module ArtifactGc {
  datatype ObjectKey = ObjectKey(bucket: string, key: string)

  /** The stored objects with the time each was last written. */
  type Objects = map<ObjectKey, int>

  /** What a sweep collects: unreferenced objects of at least the given age. References are
      by key alone, whatever the bucket. */
  function Garbage(objects: Objects, referenced: set<string>, olderThan: int, now: int): set<ObjectKey>
  {
    set o | o in objects && o.key !in referenced && now - objects[o] >= olderThan
  }

  datatype CleanupResult = CleanupResult(removed: seq<ObjectKey>, scanned: nat, dryRun: bool)

  lemma Appended(s: seq<ObjectKey>, listed: set<ObjectKey>, o: ObjectKey)
    requires multiset(s) == multiset(listed) && o !in listed
    ensures multiset(s + [o]) == multiset(listed + {o})
  {
  }

  lemma Listing(s: seq<ObjectKey>, listed: set<ObjectKey>)
    requires multiset(s) == multiset(listed)
    ensures forall o :: o in s <==> o in listed
  {
    forall o ensures o in s <==> o in listed {
      assert o in s <==> o in multiset(s);
    }
  }

  class LocalArtifactStore {
    var objects: Objects

    constructor ()
      ensures objects == map[]
    {
      objects := map[];
    }

    /** The sweep loop, in whatever order the store enumerates its objects. A dry run reports
        exactly what a real run on the same state removes, each object once. */
    method SweepObjects(referenced: set<string>, olderThan: int, dryRun: bool, now: int)
      returns (r: CleanupResult)
      modifies this
      ensures multiset(r.removed) == multiset(Garbage(old(objects), referenced, olderThan, now))
      ensures r.scanned == |old(objects)| && r.dryRun == dryRun
      ensures objects == if dryRun then old(objects)
                         else old(objects) - Garbage(old(objects), referenced, olderThan, now)
    {
      var removed: seq<ObjectKey> := [];
      var scanned := 0;
      var left := objects.Keys;
      ghost var garbage := Garbage(objects, referenced, olderThan, now);
      ghost var swept: set<ObjectKey> := {};
      while left != {}
        invariant left <= old(objects).Keys && scanned + |left| == |old(objects).Keys|
        invariant swept == garbage - left && multiset(removed) == multiset(swept)
        invariant objects == if dryRun then old(objects) else old(objects) - swept
        decreases left
      {
        var o :| o in left;
        assert o in objects && objects[o] == old(objects)[o];
        left := left - {o};
        scanned := scanned + 1;
        if o.key !in referenced && now - objects[o] >= olderThan {
          assert o !in swept;
          Appended(removed, swept, o);
          removed, swept := removed + [o], swept + {o};
          if !dryRun {
            objects := objects - {o};
          }
        }
      }
      r := CleanupResult(removed, scanned, dryRun);
    }

    /** The age- and allowlist-based sweep: it removes, or reports, exactly the objects that are
        not referenced and at least that old. */
    method CleanupOrphaned(referenced: set<string>, olderThan: int, dryRun: bool, now: int)
      returns (r: CleanupResult)
      modifies this
      ensures forall o :: o in r.removed <==>
                            o in old(objects) && o.key !in referenced && old(objects)[o] + olderThan <= now
      ensures multiset(r.removed) == multiset(Garbage(old(objects), referenced, olderThan, now))
      ensures r.scanned == |old(objects)| && r.dryRun == dryRun
      ensures objects == if dryRun then old(objects)
                         else old(objects) - Garbage(old(objects), referenced, olderThan, now)
    {
      r := SweepObjects(referenced, olderThan, dryRun, now);
      Listing(r.removed, Garbage(old(objects), referenced, olderThan, now));
    }

    /** The reference-based collector; a negative retention disables it. */
    method CleanupUnreferenced(pointers: set<string>, retention: int, dryRun: bool, now: int)
      returns (r: CleanupResult)
      modifies this
      ensures retention < 0 ==> objects == old(objects) && r == CleanupResult([], 0, dryRun)
      ensures retention >= 0 ==>
                && multiset(r.removed) == multiset(Garbage(old(objects), pointers, retention, now))
                && objects == if dryRun then old(objects)
                              else old(objects) - Garbage(old(objects), pointers, retention, now)
    {
      if retention < 0 {
        return CleanupResult([], 0, dryRun);
      }
      r := CleanupOrphaned(pointers, retention, dryRun, now);
    }
  }

  // ------------------------------------------------------------ racing writers

  /** The bounds of a deployment: how long a writer may take from writing its payload to
      recording the pointer, how long a sweep may take from reading the pointers to fixing its
      reference time, and the retention window. */
  datatype Bounds = Bounds(delay: nat, lag: nat, retention: nat)

  datatype Pointer = Pointer(written: nat, recorded: nat)

  /** A sweep in progress: it has listed the pointed-to keys, and maybe fixed its reference. */
  datatype Sweep = Listed(keys: set<string>, at: nat) | Sweeping(keys: set<string>, at: nat, reference: nat)

  /** `pending` holds writers between their write and their record, `sweeps` the collectors at
      work, by process. `lost` records that a recorded pointer's object was deleted, or was
      already gone when it was recorded. */
  datatype System = System(clock: nat, objects: map<ObjectKey, nat>, rows: map<ObjectKey, Pointer>,
                           pending: set<(ObjectKey, nat)>, sweeps: map<nat, Sweep>, lost: bool)

  datatype Op =
    | Tick(elapsed: nat)
    | Put(key: ObjectKey)
    | Record(key: ObjectKey, written: nat)
    | DeleteRow(key: ObjectKey)
    | ListPointers(who: nat)
    | FixReference(who: nat)
    | Check(who: nat, key: ObjectKey)

  /** The sweep may delete the object. */
  predicate Collects(b: Bounds, objects: map<ObjectKey, nat>, sweep: Sweep, key: ObjectKey)
  {
    && sweep.Sweeping? && key in objects && key.key !in sweep.keys
    && objects[key] + b.retention <= sweep.reference
  }

  function Next(b: Bounds, s: System, op: Op): System
  {
    match op
    case Tick(elapsed) => s.(clock := s.clock + elapsed)
    case Put(key) => s.(objects := s.objects[key := s.clock], pending := s.pending + {(key, s.clock)})
    case Record(key, written) =>
      if (key, written) !in s.pending || s.clock > written + b.delay then s
      else s.(pending := s.pending - {(key, written)},
              rows := s.rows[key := Pointer(written, s.clock)],
              lost := s.lost || key !in s.objects)
    case DeleteRow(key) => s.(rows := s.rows - {key})
    case ListPointers(who) => s.(sweeps := s.sweeps[who := Listed(set o | o in s.rows :: o.key, s.clock)])
    case FixReference(who) =>
      if who in s.sweeps && s.sweeps[who].Listed? && s.clock <= s.sweeps[who].at + b.lag
      then s.(sweeps := s.sweeps[who := Sweeping(s.sweeps[who].keys, s.sweeps[who].at, s.clock)]) else s
    case Check(who, key) =>
      if who in s.sweeps && Collects(b, s.objects, s.sweeps[who], key)
      then s.(objects := s.objects - {key}, lost := s.lost || key in s.rows)
      else s
  }

  function Run(b: Bounds, ops: seq<Op>): System
  {
    if ops == [] then System(0, map[], map[], {}, map[], false)
    else Next(b, Run(b, ops[..|ops| - 1]), ops[|ops| - 1])
  }

  /** No interleaving loses an object that has, or gets, a pointer. */
  ghost predicate Safe(b: Bounds) { forall ops :: !Run(b, ops).lost }

  ghost predicate Sound(b: Bounds, s: System)
  {
    && !s.lost && Stored(b, s.clock, s.objects, s.rows) && Awaited(b, s.clock, s.objects, s.pending)
    && forall who | who in s.sweeps :: SweepSound(b, s.clock, s.rows, s.sweeps[who])
  }

  /** Every pointer's object is there, no older than the write the pointer records. */
  ghost predicate Stored(b: Bounds, clock: nat, objects: map<ObjectKey, nat>, rows: map<ObjectKey, Pointer>)
  {
    && (forall k | k in objects :: objects[k] <= clock)
    && (forall k | k in rows ::
          && k in objects && rows[k].written <= objects[k]
          && rows[k].recorded <= rows[k].written + b.delay)
  }

  /** So is the object of every writer that can still record its pointer. */
  ghost predicate Awaited(b: Bounds, clock: nat, objects: map<ObjectKey, nat>, pending: set<(ObjectKey, nat)>)
  {
    forall w | w in pending && clock <= w.1 + b.delay :: w.0 in objects && w.1 <= objects[w.0]
  }

  /** A pointer a sweep did not list was recorded after it listed. */
  ghost predicate SweepSound(b: Bounds, clock: nat, rows: map<ObjectKey, Pointer>, sweep: Sweep)
  {
    && sweep.at <= clock
    && (sweep.Sweeping? ==> sweep.reference <= clock && sweep.reference <= sweep.at + b.lag)
    && forall k | k in rows && k.key !in sweep.keys :: sweep.at <= rows[k].recorded
  }

  /** The steps of the interleaved sweep delete exactly what the sweep loop, given the keys the
      sweep listed and its reference time, counts as garbage. */
  lemma CollectsTheGarbage(b: Bounds, s: System, sweep: Sweep, key: ObjectKey)
    requires sweep.Sweeping?
    ensures Collects(b, s.objects, sweep, key) <==>
            key in Garbage(map k | k in s.objects :: s.objects[k] as int, sweep.keys, b.retention, sweep.reference)
  {
  }

  /** What a sweep collects has no pointer, and no writer can give it one any more. */
  lemma CollectedIsGarbage(b: Bounds, s: System, sweep: Sweep, key: ObjectKey)
    requires b.delay + b.lag < b.retention && Sound(b, s)
    requires SweepSound(b, s.clock, s.rows, sweep) && Collects(b, s.objects, sweep, key)
    ensures key !in s.rows && forall w | w in s.pending && w.0 == key :: s.clock > w.1 + b.delay
  {
  }

  lemma CheckIsSound(b: Bounds, s: System, who: nat, key: ObjectKey)
    requires b.delay + b.lag < b.retention && Sound(b, s)
    ensures Sound(b, Next(b, s, Check(who, key)))
  {
    if who in s.sweeps && Collects(b, s.objects, s.sweeps[who], key) {
      CollectedIsGarbage(b, s, s.sweeps[who], key);
    }
  }

  lemma RecordIsSound(b: Bounds, s: System, key: ObjectKey, written: nat)
    requires Sound(b, s)
    ensures Sound(b, Next(b, s, Record(key, written)))
  {
  }

  lemma SweepStepIsSound(b: Bounds, s: System, op: Op)
    requires Sound(b, s) && (op.ListPointers? || op.FixReference?)
    ensures Sound(b, Next(b, s, op))
  {
  }

  lemma StepIsSound(b: Bounds, s: System, op: Op)
    requires b.delay + b.lag < b.retention && Sound(b, s)
    ensures Sound(b, Next(b, s, op))
  {
    match op
    case Check(who, key) => CheckIsSound(b, s, who, key);
    case Record(key, written) => RecordIsSound(b, s, key, written);
    case ListPointers(_) => SweepStepIsSound(b, s, op);
    case FixReference(_) => SweepStepIsSound(b, s, op);
    case _ =>
  }

  /** In every interleaving of writers and any number of collectors. */
  lemma {:induction false} EveryRunIsSound(b: Bounds, ops: seq<Op>)
    requires b.delay + b.lag < b.retention
    ensures Sound(b, Run(b, ops))
  {
    if ops != [] {
      EveryRunIsSound(b, ops[..|ops| - 1]);
      StepIsSound(b, Run(b, ops[..|ops| - 1]), ops[|ops| - 1]);
    }
  }

  lemma RunExtends(b: Bounds, ops: seq<Op>, op: Op)
    ensures Run(b, ops + [op]) == Next(b, Run(b, ops), op)
  {
    assert (ops + [op])[..|ops|] == ops;
  }

  /** A writer that is slow to record, and a collector that lists just before it does. */
  lemma ListedJustBefore(b: Bounds, k: ObjectKey) returns (ops: seq<Op>)
    ensures
      var s := Run(b, ops);
      && s.clock == b.delay && s.objects == map[k := 0] && k in s.rows
      && s.sweeps == map[0 := Listed({}, b.delay)]
  {
    var o1 := [] + [Put(k)];
    RunExtends(b, [], Put(k));
    var o2 := o1 + [Tick(b.delay)];
    RunExtends(b, o1, Tick(b.delay));
    assert Run(b, o2).objects == map[k := 0] && (k, 0) in Run(b, o2).pending;
    assert Run(b, o2).rows == map[] && Run(b, o2).sweeps == map[];
    assert (set o | o in Run(b, o2).rows :: o.key) == {};
    var o3 := o2 + [ListPointers(0)];
    RunExtends(b, o2, ListPointers(0));
    assert Run(b, o3).sweeps == map[0 := Listed({}, b.delay)];
    ops := o3 + [Record(k, 0)];
    RunExtends(b, o3, Record(k, 0));
  }

  /** With a shorter retention, a writer that records right after the sweep listed pointers
      loses its object. */
  lemma ShortRetentionLoses(b: Bounds) returns (ops: seq<Op>)
    requires b.delay + b.lag >= b.retention
    ensures Run(b, ops).lost
  {
    var k := ObjectKey("artifacts", "k");
    var o4 := ListedJustBefore(b, k);
    var o5 := o4 + [Tick(b.lag)];
    RunExtends(b, o4, Tick(b.lag));
    var o6 := o5 + [FixReference(0)];
    RunExtends(b, o5, FixReference(0));
    assert Run(b, o6).sweeps == map[0 := Sweeping({}, b.delay, b.delay + b.lag)];
    ops := o6 + [Check(0, k)];
    RunExtends(b, o6, Check(0, k));
  }

  /** The collector is safe against writers exactly when the retention window is longer than
      a writer's record delay and a sweep's reference lag together. */
  lemma SafeExactly(b: Bounds)
    ensures Safe(b) <==> b.delay + b.lag < b.retention
  {
    if b.delay + b.lag < b.retention {
      forall ops ensures !Run(b, ops).lost { EveryRunIsSound(b, ops); }
    } else {
      var ops := ShortRetentionLoses(b);
    }
  }
}
