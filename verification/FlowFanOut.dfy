/** The `map` node: a child flow per item on a bounded pool, under shared budgets. */
module FlowFanOut {
  import opened Wrappers
  import opened Documents
  import opened FlowBudgets

  /** An amount of each budgeted resource. */
  datatype Amount = Amount(tokens: real, cost: real)
  {
    function Plus(other: Amount): Amount { Amount(tokens + other.tokens, cost + other.cost) }
    function Minus(other: Amount): Amount { Amount(tokens - other.tokens, cost - other.cost) }
    predicate AtMost(other: Amount) { tokens <= other.tokens && cost <= other.cost }
  }

  const NOTHING := Amount(0.0, 0.0)

  function Total(amounts: seq<Amount>): Amount
  {
    if amounts == [] then NOTHING
    else Total(amounts[..|amounts| - 1]).Plus(amounts[|amounts| - 1])
  }

  lemma {:induction false} TotalUpdate(amounts: seq<Amount>, i: nat, x: Amount)
    requires i < |amounts|
    ensures Total(amounts[i := x]) == Total(amounts).Minus(amounts[i]).Plus(x)
    decreases |amounts|
  {
    var n := |amounts| - 1;
    if i < n {
      TotalUpdate(amounts[..n], i, x);
      assert amounts[i := x][..n] == amounts[..n][i := x];
    } else {
      assert amounts[i := x][..n] == amounts[..n];
    }
  }

  predicate NonNegative(amounts: seq<Amount>)
  {
    forall i | 0 <= i < |amounts| :: NOTHING.AtMost(amounts[i])
  }

  lemma TotalGains(amounts: seq<Amount>, i: nat, x: Amount)
    requires i < |amounts| && amounts[i] == NOTHING
    ensures Total(amounts[i := x]) == Total(amounts).Plus(x)
  {
    TotalUpdate(amounts, i, x);
  }

  lemma GrantsStayNonNegative(amounts: seq<Amount>, i: nat, x: Amount)
    requires i < |amounts| && NOTHING.AtMost(x) && NonNegative(amounts)
    ensures NonNegative(amounts[i := x])
  {
  }

  lemma {:induction false} TotalNothing(n: nat)
    ensures Total(seq(n, _ => NOTHING)) == NOTHING
  {
    if n > 0 {
      TotalNothing(n - 1);
      assert seq(n, _ => NOTHING)[..n - 1] == seq(n - 1, _ => NOTHING);
    }
  }

  lemma {:induction false} TotalNonNegative(amounts: seq<Amount>)
    requires NonNegative(amounts)
    ensures NOTHING.AtMost(Total(amounts))
  {
    if amounts != [] {
      TotalNonNegative(amounts[..|amounts| - 1]);
    }
  }

  /** A finished child run and the branch it belongs to. */
  datatype Child = Child(branch: nat, completed: bool, output: Fields, used: Amount)

  /** The parent's budget, what it had spent before the node, the pool size, the item count. */
  datatype Fan = Fan(limit: Amount, base: Amount, workers: nat, count: nat)

  /** The handler's bookkeeping: the next item, running branches with what each was granted,
      finished branches, and the running totals of usage and reservations. */
  datatype Pool = Pool(next: nat, pending: set<nat>, granted: seq<Amount>, used: seq<Amount>,
                       finished: seq<Option<Child>>, children: Amount, reserved: Amount)

  function EmptyPool(n: nat): Pool
  {
    Pool(0, {}, seq(n, _ => NOTHING), seq(n, _ => NOTHING), seq(n, _ => None), NOTHING, NOTHING)
  }

  /** Every item below `next` is either running under its grant or finished with its usage
      charged. */
  ghost predicate Tracked(fan: Fan, p: Pool)
  {
    && |p.granted| == |p.used| == |p.finished| == fan.count && p.next <= fan.count
    && |p.pending| <= fan.workers
    && (forall i | i in p.pending :: i < p.next && p.finished[i].None?)
    && (forall i | 0 <= i < p.next :: p.finished[i].None? ==> i in p.pending)
    && (forall i | p.next <= i < fan.count :: p.finished[i].None?)
    && (forall i | 0 <= i < fan.count :: i !in p.pending ==> p.granted[i] == NOTHING)
    && (forall i | 0 <= i < fan.count :: p.used[i] ==
          if p.finished[i].None? then NOTHING else p.finished[i].value.used)
    && (forall i | 0 <= i < fan.count :: p.finished[i].Some? ==> p.finished[i].value.branch == i)
  }

  /** The running totals are the sums of the grants and of the usages. */
  predicate Summed(p: Pool)
  {
    && NonNegative(p.granted)
    && p.reserved == Total(p.granted) && p.children == Total(p.used)
  }

  ghost predicate Booked(fan: Fan, p: Pool) { Tracked(fan, p) && Summed(p) }

  /** Everything spent or promised fits the parent's budget. */
  predicate Fits(fan: Fan, p: Pool)
  {
    fan.base.Plus(p.children).Plus(p.reserved).AtMost(fan.limit)
  }

  /** The check the code makes counts only finished branches. */
  predicate Breach(fan: Fan, p: Pool)
  {
    !fan.base.Plus(p.children).AtMost(fan.limit)
  }

  lemma FittingNeverBreaches(fan: Fan, p: Pool)
    requires Booked(fan, p) && Fits(fan, p)
    ensures !Breach(fan, p)
  {
    TotalNonNegative(p.granted);
  }

  /** What is left to reserve, and among how many branches it is shared. */
  function Left(fan: Fan, p: Pool): Amount { fan.limit.Minus(fan.base.Plus(p.children).Plus(p.reserved)) }

  function Branches(fan: Fan, p: Pool): (d: int)
    ensures d >= 1
    ensures fan.workers >= 1 && p.next < fan.count ==>
              d <= fan.workers && d <= fan.count - p.next && (d == fan.workers || d == fan.count - p.next)
  {
    var branches := MinInt(fan.workers, fan.count - p.next);
    if branches < 1 then 1 else branches
  }

  /** An even share of the unreserved remaining budget; token grants are whole. */
  function Share(fan: Fan, p: Pool): Amount
  {
    var left, divisor := Left(fan, p), Branches(fan, p) as real;
    Amount(Truncate((if left.tokens < 0.0 then 0.0 else left.tokens) / divisor) as real,
           (if left.cost < 0.0 then 0.0 else left.cost) / divisor)
  }

  /** Starts the next branch under a reservation of `share`. */
  function Reserve(p: Pool, share: Amount): Pool
    requires p.next < |p.granted|
  {
    p.(next := p.next + 1, pending := p.pending + {p.next},
       granted := p.granted[p.next := share], reserved := p.reserved.Plus(share))
  }

  function Launch(fan: Fan, p: Pool): Pool
    requires p.next < |p.granted|
  {
    Reserve(p, Share(fan, p))
  }

  /** Books a completed branch: its grant is returned and its usage charged. */
  function Settle(p: Pool, c: Child): Pool
    requires c.branch < |p.granted| == |p.used| == |p.finished|
  {
    p.(pending := p.pending - {c.branch},
       granted := p.granted[c.branch := NOTHING], used := p.used[c.branch := c.used],
       finished := p.finished[c.branch := Some(c)],
       children := p.children.Plus(c.used), reserved := p.reserved.Minus(p.granted[c.branch]))
  }

  lemma QuotientAtMost(x: real, d: real)
    requires 0.0 <= x && 1.0 <= d
    ensures 0.0 <= x / d <= x
  {
    var q := x / d;
    assert q * d == x;
    assert q >= 0.0;
    assert q * (d - 1.0) >= 0.0;
  }

  /** A share is never negative, and a reservation that fits still fits with it. */
  lemma ShareFits(fan: Fan, p: Pool)
    ensures NOTHING.AtMost(Share(fan, p))
    ensures Fits(fan, p) ==> fan.base.Plus(p.children).Plus(p.reserved).Plus(Share(fan, p)).AtMost(fan.limit)
  {
    var left, divisor := Left(fan, p), Branches(fan, p) as real;
    QuotientAtMost(if left.tokens < 0.0 then 0.0 else left.tokens, divisor);
    QuotientAtMost(if left.cost < 0.0 then 0.0 else left.cost, divisor);
  }

  lemma QuotientTimes(x: real, d: real)
    requires 1.0 <= d
    ensures d * (x / d) == x
  {
  }

  /** The share is even: as many as can run together use up the whole remaining cost, and each
      gets its part of the remaining tokens but for less than one. */
  lemma ShareIsEven(fan: Fan, p: Pool)
    requires Fits(fan, p)
    ensures var d := Branches(fan, p) as real;
            && d * Share(fan, p).cost == Left(fan, p).cost
            && Share(fan, p).tokens <= Left(fan, p).tokens / d < Share(fan, p).tokens + 1.0
  {
    var left, d := Left(fan, p), Branches(fan, p) as real;
    QuotientAtMost(left.tokens, d);
    QuotientTimes(left.cost, d);
  }

  /** The cap a branch runs under: its share, and the parent's remaining time. */
  function BranchCap(parent: Session, fan: Fan, p: Pool): Budgets
  {
    Budgets(Share(fan, p).cost, ChildCap(parent).maxWallClock, Truncate(Share(fan, p).tokens))
  }

  /** The branch runs under exactly what the pool reserves for it. */
  lemma BranchCapIsReserved(parent: Session, fan: Fan, p: Pool)
    requires p.next < |p.granted|
    ensures var cap := BranchCap(parent, fan, p);
            Launch(fan, p).granted[p.next] == Amount(cap.maxTokens as real, cap.maxCost)
  {
    TruncateOfWhole(Truncate((if Left(fan, p).tokens < 0.0 then 0.0 else Left(fan, p).tokens) / Branches(fan, p) as real));
  }

  lemma TruncateGrows(x: real, y: real)
    requires 0.0 <= x <= y
    ensures Truncate(x) <= Truncate(y)
  {
  }

  lemma TruncateOfWhole(n: int)
    ensures Truncate(n as real) == n
  {
  }

  /** What a share draws on is at most what the parent has left. */
  lemma LeftWithin(parent: Session, fan: Fan, p: Pool)
    requires fan.limit == Amount(parent.effective.maxTokens as real, parent.effective.maxCost)
    requires fan.base == Amount(parent.tokens, parent.cost)
    requires NOTHING.AtMost(p.children) && NOTHING.AtMost(p.reserved)
    ensures Left(fan, p).tokens <= parent.effective.maxTokens as real - parent.tokens
    ensures Left(fan, p).cost <= parent.effective.maxCost - parent.cost
  {
  }

  /** A whole share of at most `x` is within the whole part of any larger amount. */
  lemma WholeShareWithin(x: real, y: real, d: real)
    requires x <= y && 1.0 <= d
    ensures Truncate((if x < 0.0 then 0.0 else x) / d) <= if Truncate(y) < 0 then 0 else Truncate(y)
  {
    var left := if x < 0.0 then 0.0 else x;
    QuotientAtMost(left, d);
    if x < 0.0 {
      TruncateGrows(left / d, 0.0);
    } else {
      TruncateGrows(left / d, y);
    }
  }

  lemma ShareWithin(x: real, y: real, d: real)
    requires x <= y && 1.0 <= d
    ensures (if x < 0.0 then 0.0 else x) / d <= if y < 0.0 then 0.0 else y
  {
    QuotientAtMost(if x < 0.0 then 0.0 else x, d);
  }

  /** A branch's cap is within the parent's remaining budget, so a branch is a spawned child
      like any other. */
  lemma BranchIsSpawned(parent: Session, fan: Fan, p: Pool, manifest: Budgets, child: Session)
    requires fan.limit == Amount(parent.effective.maxTokens as real, parent.effective.maxCost)
    requires fan.base == Amount(parent.tokens, parent.cost)
    requires NOTHING.AtMost(p.children) && NOTHING.AtMost(p.reserved)
    requires child.effective == MergeBudgets(manifest, BranchCap(parent, fan, p))
    ensures SpawnedBy(parent, child)
  {
    var left, d := Left(fan, p), Branches(fan, p) as real;
    LeftWithin(parent, fan, p);
    WholeShareWithin(left.tokens, parent.effective.maxTokens as real - parent.tokens, d);
    ShareWithin(left.cost, parent.effective.maxCost - parent.cost, d);
    TruncateOfWhole(Truncate((if left.tokens < 0.0 then 0.0 else left.tokens) / d));
    CapSpawns(parent, child, manifest, BranchCap(parent, fan, p));
  }

  lemma ReserveKeepsTrack(fan: Fan, p: Pool, share: Amount)
    requires Tracked(fan, p) && p.next < fan.count && |p.pending| < fan.workers
    ensures Tracked(fan, Reserve(p, share)) && |Reserve(p, share).pending| == |p.pending| + 1
  {
    assert p.next !in p.pending;
  }

  lemma ReserveKeepsSums(p: Pool, share: Amount)
    requires Summed(p) && p.next < |p.granted| && p.granted[p.next] == NOTHING && NOTHING.AtMost(share)
    ensures Summed(Reserve(p, share))
  {
    TotalGains(p.granted, p.next, share);
    GrantsStayNonNegative(p.granted, p.next, share);
  }

  lemma LaunchKeepsBooks(fan: Fan, p: Pool)
    requires Booked(fan, p) && p.next < fan.count && |p.pending| < fan.workers
    ensures Booked(fan, Launch(fan, p)) && |Launch(fan, p).pending| == |p.pending| + 1
    ensures Fits(fan, p) ==> Fits(fan, Launch(fan, p))
  {
    ShareFits(fan, p);
    ReservationKeepsBooks(fan, p, Share(fan, p));
  }

  lemma ReservationKeepsBooks(fan: Fan, p: Pool, share: Amount)
    requires Booked(fan, p) && p.next < fan.count && |p.pending| < fan.workers && NOTHING.AtMost(share)
    requires Fits(fan, p) ==> fan.base.Plus(p.children).Plus(p.reserved).Plus(share).AtMost(fan.limit)
    ensures Booked(fan, Reserve(p, share)) && |Reserve(p, share).pending| == |p.pending| + 1
    ensures Fits(fan, p) ==> Fits(fan, Reserve(p, share))
  {
    ReserveKeepsSums(p, share);
    ReserveKeepsTrack(fan, p, share);
  }

  lemma SettleKeepsTrack(fan: Fan, p: Pool, c: Child)
    requires Tracked(fan, p) && c.branch in p.pending
    ensures Tracked(fan, Settle(p, c))
  {
    assert p.pending == (p.pending - {c.branch}) + {c.branch};
  }

  lemma SettleKeepsSums(p: Pool, c: Child)
    requires c.branch < |p.granted| == |p.used| == |p.finished| && p.used[c.branch] == NOTHING
    requires Summed(p)
    ensures Summed(Settle(p, c))
  {
    TotalUpdate(p.granted, c.branch, NOTHING);
    GrantsStayNonNegative(p.granted, c.branch, NOTHING);
    TotalGains(p.used, c.branch, c.used);
  }

  /** Charging at most what was reserved keeps the books within the budget. */
  lemma SettleFits(fan: Fan, p: Pool, c: Child)
    requires c.branch < |p.granted| == |p.used| == |p.finished|
    requires Fits(fan, p) && c.used.AtMost(p.granted[c.branch])
    ensures Fits(fan, Settle(p, c))
  {
  }

  lemma SettleKeepsBooks(fan: Fan, p: Pool, c: Child)
    requires Booked(fan, p) && c.branch in p.pending && c.used.AtMost(p.granted[c.branch])
    ensures Booked(fan, Settle(p, c))
    ensures Fits(fan, p) ==> Fits(fan, Settle(p, c))
  {
    SettleKeepsTrack(fan, p, c);
    SettleKeepsSums(p, c);
    if Fits(fan, p) {
      SettleFits(fan, p, c);
    }
  }

  function UsageOf(children: seq<Child>): seq<Amount>
  {
    seq(|children|, i requires 0 <= i < |children| => children[i].used)
  }

  datatype MapResult =
    | Collected(children: seq<Child>, metrics: Amount)
    | OverBudget
    | ChildFailed(branch: nat)

  /** Runs a child under `cap`. A run never completes over its effective budget, so a
      completed child has used at most its grant. */
  method RunChild(branch: nat, cap: Amount) returns (c: Child)
    ensures c.branch == branch
    ensures c.completed ==> c.used.AtMost(cap)
  {
    c := *;
    c := c.(branch := branch, completed := c.completed && c.used.AtMost(cap));
  }

  /** Launches branches while the pool has room. */
  method Fill(fan: Fan, start: Pool) returns (p: Pool, breach: bool)
    requires Booked(fan, start)
    ensures Booked(fan, p) && p.next - |p.pending| == start.next - |start.pending|
    ensures Fits(fan, start) ==> Fits(fan, p) && !breach
    ensures !breach ==> p.next == fan.count || |p.pending| == fan.workers
  {
    p, breach := start, false;
    while p.next < fan.count && |p.pending| < fan.workers
      invariant Booked(fan, p) && p.next - |p.pending| == start.next - |start.pending|
      invariant Fits(fan, start) ==> Fits(fan, p)
      decreases fan.count - p.next
    {
      if Breach(fan, p) {
        if Fits(fan, p) {
          FittingNeverBreaches(fan, p);
        }
        return p, true;
      }
      LaunchKeepsBooks(fan, p);
      p := Launch(fan, p);
    }
  }

  lemma RemoveFromUnion(running: set<nat>, left: set<nat>, i: nat)
    requires running !! left && i in left
    ensures (running + left) - {i} == running + (left - {i}) && running !! (left - {i})
  {
  }

  method CollectOne(fan: Fan, start: Pool, i: nat) returns (p: Pool, ok: bool)
    requires Booked(fan, start) && i in start.pending
    ensures ok ==> Booked(fan, p) && p.next == start.next && p.pending == start.pending - {i}
    ensures ok && Fits(fan, start) ==> Fits(fan, p)
  {
    var child := RunChild(i, start.granted[i]);
    if !child.completed {
      return start, false;
    }
    SettleKeepsBooks(fan, start, child);
    p, ok := Settle(start, child), true;
  }

  /** Collects a set of finished branches, in whatever order they are found. */
  method Collect(fan: Fan, start: Pool, done: set<nat>) returns (p: Pool, failure: Option<nat>)
    requires Booked(fan, start) && done <= start.pending
    ensures failure.None? ==> Booked(fan, p) && p.next == start.next && p.pending == start.pending - done
    ensures failure.None? && Fits(fan, start) ==> Fits(fan, p)
    ensures failure.Some? ==> failure.value in done
  {
    p, failure := start, None;
    var left := done;
    ghost var running := start.pending - done;
    while left != {}
      invariant left <= done && Booked(fan, p)
      invariant p.next == start.next && running !! left && p.pending == running + left
      invariant Fits(fan, start) ==> Fits(fan, p)
      decreases left
    {
      var i :| i in left;
      var ok;
      p, ok := CollectOne(fan, p, i);
      if !ok {
        return p, Some(i);
      }
      RemoveFromUnion(running, left, i);
      left := left - {i};
    }
  }

  /** The map handler, for every interleaving of branch launches and completions. Started
      within budget it never reports a budget breach, and when it succeeds every item has its
      own completed child, in item order, with the aggregate charge within the budget. */
  method MapHandler(fan: Fan) returns (r: MapResult)
    requires fan.workers >= 1
    ensures r.OverBudget? ==> !fan.base.AtMost(fan.limit)
    ensures r.Collected? ==>
              && |r.children| == fan.count
              && (forall i | 0 <= i < fan.count :: r.children[i].branch == i)
              && r.metrics == Total(UsageOf(r.children))
              && (fan.base.AtMost(fan.limit) ==> fan.base.Plus(r.metrics).AtMost(fan.limit))
  {
    var p := EmptyPool(fan.count);
    TotalNothing(fan.count);
    while p.pending != {} || p.next < fan.count
      invariant Booked(fan, p)
      invariant fan.base.AtMost(fan.limit) ==> Fits(fan, p)
      decreases fan.count - p.next + |p.pending|
    {
      var breach, failure;
      p, breach := Fill(fan, p);
      if breach {
        return OverBudget;
      }
      var done: set<nat> :| done <= p.pending && (p.pending == {} || done != {});
      p, failure := Collect(fan, p, done);
      if failure.Some? {
        return ChildFailed(failure.value);
      }
      if Breach(fan, p) {
        if Fits(fan, p) {
          FittingNeverBreaches(fan, p);
        }
        return OverBudget;
      }
    }
    if Fits(fan, p) {
      FittingNeverBreaches(fan, p);
    }
    AllFinished(fan, p);
    r := Collected(seq(fan.count, i requires 0 <= i < fan.count => p.finished[i].value), p.children);
  }

  /** When nothing runs or waits, every item has its own finished child and the charge is the
      sum of their usage. */
  lemma AllFinished(fan: Fan, p: Pool)
    requires Booked(fan, p) && p.pending == {} && p.next == fan.count
    ensures forall i | 0 <= i < fan.count :: p.finished[i].Some? && p.finished[i].value.branch == i
    ensures p.children == Total(UsageOf(seq(fan.count, i requires 0 <= i < fan.count => p.finished[i].value)))
  {
    assert p.used == UsageOf(seq(fan.count, i requires 0 <= i < fan.count => p.finished[i].value));
  }
}
