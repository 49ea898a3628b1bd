/** In-process lock leases: token-guarded entries with an expiry, taken and renewed under a
    mutex. `acquire` reads the clock before it enters the mutex. */
module LockLeases {
  import opened Wrappers

  /** The unique token of a lease. */
  type Token = nat

  datatype Entry = Entry(token: Token, expiry: real)

  type Table = map<string, Entry>

  predicate Owns(t: Table, name: string, token: Token) { name in t && t[name].token == token }

  /** The critical section of `acquire`, with the clock value read before it. */
  function Acquired(t: Table, name: string, token: Token, now: real, ttl: real): (Table, bool)
  {
    if name in t && t[name].expiry > now then (t, false)
    else (t[name := Entry(token, now + ttl)], true)
  }

  /** A requested duration of zero falls back to the default, like a missing one. */
  function Duration(requested: Option<real>, ttl: real): real
  {
    if requested.Some? && requested.value != 0.0 then requested.value else ttl
  }

  function Renewed(t: Table, name: string, token: Token, clock: real, duration: real): (Table, bool)
  {
    if Owns(t, name, token) then (t[name := Entry(token, clock + duration)], true) else (t, false)
  }

  function Released(t: Table, name: string, token: Token): (Table, bool)
  {
    if Owns(t, name, token) then (t - {name}, true) else (t, false)
  }

  /** The shared lock table; each method body runs under the mutex. */
  class LocalLockManager {
    var state: Table

    constructor ()
      ensures state == map[]
    {
      state := map[];
    }

    method Acquire(name: string, token: Token, now: real, ttl: real) returns (ok: bool)
      modifies this
      ensures (state, ok) == Acquired(old(state), name, token, now, ttl)
    {
      if name in state && state[name].expiry > now {
        return false;
      }
      state := state[name := Entry(token, now + ttl)];
      ok := true;
    }

    method Renew(name: string, token: Token, ttl: real, requested: Option<real>, clock: real) returns (ok: bool)
      modifies this
      ensures (state, ok) == Renewed(old(state), name, token, clock, Duration(requested, ttl))
    {
      if name !in state || state[name].token != token {
        return false;
      }
      state := state[name := Entry(token, clock + Duration(requested, ttl))];
      ok := true;
    }

    method Release(name: string, token: Token) returns (ok: bool)
      modifies this
      ensures (state, ok) == Released(old(state), name, token)
    {
      if name !in state || state[name].token != token {
        return false;
      }
      state := state - {name};
      ok := true;
    }
  }

  // ------------------------------------------------------------ interleavings

  /** A lease as its users see it: clock values read by acquisitions still waiting for the
      mutex, and the expiry recorded by the last success, if it still claims the lock. */
  datatype Lease = Lease(name: string, ttl: real, waiting: set<real>, until: Option<real>)

  datatype System = System(clock: real, table: Table, leases: map<Token, Lease>)

  datatype Op =
    | Tick(elapsed: real)
    | CreateLease(token: Token, name: string, ttl: real)
    | ReadClock(token: Token)
    | EnterAcquire(token: Token, read: real)
    | RenewLease(token: Token, requested: Option<real>)
    | ReleaseLease(token: Token)

  function WithLease(s: System, t: Token, l: Lease): System { s.(leases := s.leases[t := l]) }

  /** One step of any thread. Steps that cannot happen leave the system unchanged. */
  function Next(s: System, op: Op): System
  {
    match op
    case Tick(elapsed) => if elapsed >= 0.0 then s.(clock := s.clock + elapsed) else s
    case CreateLease(t, name, ttl) =>
      if t in s.leases then s else WithLease(s, t, Lease(name, ttl, {}, None))
    case ReadClock(t) =>
      if t !in s.leases then s
      else WithLease(s, t, s.leases[t].(waiting := s.leases[t].waiting + {s.clock}))
    case EnterAcquire(t, read) =>
      if t !in s.leases || read !in s.leases[t].waiting then s
      else
        var l := s.leases[t].(waiting := s.leases[t].waiting - {read});
        var (table, ok) := Acquired(s.table, l.name, t, read, l.ttl);
        WithLease(s.(table := table), t, if ok then l.(until := Some(read + l.ttl)) else l)
    case RenewLease(t, requested) =>
      if t !in s.leases then s
      else
        var l := s.leases[t];
        var (table, ok) := Renewed(s.table, l.name, t, s.clock, Duration(requested, l.ttl));
        WithLease(s.(table := table), t,
                  l.(until := if ok then Some(s.clock + Duration(requested, l.ttl)) else None))
    case ReleaseLease(t) =>
      if t !in s.leases then s
      else
        var l := s.leases[t];
        WithLease(s.(table := Released(s.table, l.name, t).0), t, l.(until := None))
  }

  function Run(start: real, ops: seq<Op>): System
  {
    if ops == [] then System(start, map[], map[])
    else Next(Run(start, ops[..|ops| - 1]), ops[|ops| - 1])
  }

  /** The lease believes it holds its lock: its last success has not expired. */
  predicate Believes(s: System, t: Token)
  {
    t in s.leases && s.leases[t].until.Some? && s.clock < s.leases[t].until.value
  }

  /** A believing lease owns the table entry, with the expiry it recorded. */
  ghost predicate Sound(s: System)
  {
    && (forall t | t in s.leases :: forall r | r in s.leases[t].waiting :: r <= s.clock)
    && (forall t | Believes(s, t) ::
          s.leases[t].name in s.table &&
          s.table[s.leases[t].name] == Entry(t, s.leases[t].until.value))
    && (forall n | n in s.table :: s.table[n].token in s.leases)
  }

  lemma StepIsSound(s: System, op: Op)
    requires Sound(s)
    ensures Sound(Next(s, op))
  {
    var next := Next(s, op);
    forall t | Believes(next, t)
      ensures next.leases[t].name in next.table &&
              next.table[next.leases[t].name] == Entry(t, next.leases[t].until.value)
    {
      assert Believes(s, t) || (op.EnterAcquire? && op.token == t) || (op.RenewLease? && op.token == t);
    }
  }

  lemma {:induction false} EveryRunIsSound(start: real, ops: seq<Op>)
    ensures Sound(Run(start, ops))
  {
    if ops != [] {
      EveryRunIsSound(start, ops[..|ops| - 1]);
      StepIsSound(Run(start, ops[..|ops| - 1]), ops[|ops| - 1]);
    }
  }

  /** Mutual exclusion, in every interleaving: two leases never both believe they hold the
      same name. */
  lemma MutualExclusion(start: real, ops: seq<Op>, a: Token, b: Token)
    requires Believes(Run(start, ops), a) && Believes(Run(start, ops), b)
    requires Run(start, ops).leases[a].name == Run(start, ops).leases[b].name
    ensures a == b
  {
    EveryRunIsSound(start, ops);
  }

  /** Every entry belongs to a lease on that name that recorded its expiry. */
  ghost predicate Recorded(s: System)
  {
    forall n | n in s.table :: OwnerRecorded(s.leases, n, s.table[n])
  }

  predicate OwnerRecorded(leases: map<Token, Lease>, name: string, e: Entry)
  {
    e.token in leases && leases[e.token].name == name && leases[e.token].until == Some(e.expiry)
  }

  lemma StepIsRecorded(s: System, op: Op)
    requires Recorded(s)
    ensures Recorded(Next(s, op))
  {
    var next := Next(s, op);
    forall n | n in next.table ensures OwnerRecorded(next.leases, n, next.table[n]) {
      if n in s.table {
        assert OwnerRecorded(s.leases, n, s.table[n]);
      }
    }
  }

  lemma {:induction false} EveryRunIsRecorded(start: real, ops: seq<Op>)
    ensures Recorded(Run(start, ops))
  {
    if ops != [] {
      EveryRunIsRecorded(start, ops[..|ops| - 1]);
      StepIsRecorded(Run(start, ops[..|ops| - 1]), ops[|ops| - 1]);
    }
  }

  /** Some lease believes it holds the name. */
  ghost predicate Held(s: System, name: string)
  {
    exists t :: Believes(s, t) && s.leases[t].name == name
  }

  /** In every interleaving, an acquisition made now succeeds exactly if no lease believes it
      holds the name: a free, released or expired lock is always taken, a held one never. */
  lemma AcquiresExactlyWhenFree(start: real, ops: seq<Op>, name: string, token: Token, ttl: real)
    ensures var s := Run(start, ops); Acquired(s.table, name, token, s.clock, ttl).1 <==> !Held(s, name)
  {
    var s := Run(start, ops);
    EveryRunIsSound(start, ops);
    EveryRunIsRecorded(start, ops);
    if name in s.table {
      assert OwnerRecorded(s.leases, name, s.table[name]);
      assert s.table[name].expiry > s.clock ==> Believes(s, s.table[name].token);
    }
  }

  /** A renewed lease lasts the requested time from now, or its own if none or zero is asked. */
  lemma RenewalLasts(t: Table, name: string, token: Token, clock: real, requested: Option<real>, ttl: real)
    requires name in t && t[name].token == token
    ensures
      var (after, ok) := Renewed(t, name, token, clock, Duration(requested, ttl));
      && ok && name in after && after[name].token == token
      && (requested.None? || requested.value == 0.0 ==> after[name].expiry - clock == ttl)
      && (requested.Some? && requested.value != 0.0 ==> after[name].expiry - clock == requested.value)
  {
  }

  /** Renewing or releasing touches at most the caller's own entry, and succeeds exactly when
      the entry is the caller's, expired or not; acquiring takes over only an expired entry. */
  lemma OthersAreUndisturbed(t: Table, name: string, token: Token, now: real, d: real, other: string)
    requires other in t && !(other == name && t[other].token == token)
    ensures other in Renewed(t, name, token, now, d).0 && Renewed(t, name, token, now, d).0[other] == t[other]
    ensures other in Released(t, name, token).0 && Released(t, name, token).0[other] == t[other]
    ensures t[other].expiry > now ==>
              other in Acquired(t, name, token, now, d).0 && Acquired(t, name, token, now, d).0[other] == t[other]
  {
  }
}
