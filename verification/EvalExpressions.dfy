/** The expression language of deterministic checks and quality gates. */
module EvalExpressions {
  import opened Wrappers
  import opened Documents

  datatype Operator = Eq | Ne | Lt | Le | Gt | Ge | UnsupportedOperator

  datatype Expr =
    | Constant(value: Scalar)
    | Name(id: string)
    | Attribute(base: Expr, attr: string)
    | Not(operand: Expr)
    | Negate(operand: Expr)
    | Plus(operand: Expr)
    | BoolOp(conjunction: bool, values: seq<Expr>)
    | Compare(left: Expr, links: seq<Link>)
    | Unsupported

  datatype Link = Link(op: Operator, operand: Expr)

  /** The context names resolve against, and Python's ordering of values, which raises on
      values it cannot order. */
  datatype Env = Env(context: Fields, order: (Operator, Value, Value) -> Option<bool>)

  /** An evaluation that raises has no value. */
  type Outcome = Option<Value>

  function Literal(id: string): Option<Value>
  {
    if id == "true" then Some(Bool(true))
    else if id == "false" then Some(Bool(false))
    else if id == "null" then Some(Null)
    else None
  }

  function Lookup(id: string, context: Fields): Outcome
  {
    if Literal(id).Some? then Literal(id) else if id in context then Some(context[id]) else None
  }

  function Field(base: Outcome, attr: string): Outcome
  {
    if base.Some? && base.value.Dict? && attr in base.value.fields
    then Some(base.value.fields[attr]) else None
  }

  /** Unary minus and plus; both turn a boolean into a number. */
  function Signed(v: Outcome, negative: bool): Outcome
  {
    if v.None? then None
    else
      match v.value
      case Num(n) => Some(Num(if negative then -n else n))
      case Bool(b) => Some(Num(if !b then 0.0 else if negative then -1.0 else 1.0))
      case _ => None
  }

  function Negated(v: Outcome): Outcome
  {
    if v.None? then None else Some(Bool(!Truthy(v.value)))
  }

  function Holds(op: Operator, a: Value, b: Value, env: Env): Option<bool>
  {
    match op
    case Eq => Some(PyEq(a, b))
    case Ne => Some(!PyEq(a, b))
    case UnsupportedOperator => None
    case _ => env.order(op, a, b)
  }

  /** What the comparisons mean: equality identifies booleans with 0 and 1 and separates all
      other kinds, inequality is its negation, and the rest is Python's ordering. */
  lemma ComparisonsMean(a: Value, b: Value, env: Env)
    ensures Holds(Eq, a, b, env).Some? && Holds(Ne, a, b, env) == Some(!Holds(Eq, a, b, env).value)
    ensures a == b ==> Holds(Eq, a, b, env) == Some(true)
    ensures a.Num? && b.Num? ==> Holds(Eq, a, b, env) == Some(a.n == b.n)
    ensures a.Str? && b.Str? ==> Holds(Eq, a, b, env) == Some(a.s == b.s)
    ensures a.Bool? && b.Num? ==> Holds(Eq, a, b, env) == Some(b.n == if a.b then 1.0 else 0.0)
    ensures (a.Str? || a.Null?) && (b.Num? || b.Bool? || b.Dict? || b.List?) ==> Holds(Eq, a, b, env) == Some(false)
    ensures forall op | op in {Lt, Le, Gt, Ge} :: Holds(op, a, b, env) == env.order(op, a, b)
    ensures Holds(UnsupportedOperator, a, b, env).None?
  {
  }

  // ------------------------------------------------------------ the eager evaluator

  /** Evaluates every operand of `and` and `or` before combining them. */
  function Eval(e: Expr, env: Env): Outcome
    decreases e, 1, 0
  {
    match e
    case Constant(v) => Some(v)
    case Name(id) => Lookup(id, env.context)
    case Attribute(base, attr) => Field(Eval(base, env), attr)
    case Not(operand) => Negated(Eval(operand, env))
    case Negate(operand) => Signed(Eval(operand, env), true)
    case Plus(operand) => Signed(Eval(operand, env), false)
    case BoolOp(conjunction, values) => Combine(e, 0, conjunction, env)
    case Compare(left, links) =>
      var l := Eval(left, env);
      if l.None? then None else Chain(e, 0, l.value, true, env)
    case Unsupported => None
  }

  /** `all` or `any` of the operands from `i` on, given what the earlier ones amount to. */
  function Combine(e: Expr, i: nat, sofar: bool, env: Env): Outcome
    requires e.BoolOp? && i <= |e.values|
    decreases e, 0, |e.values| - i
  {
    if i == |e.values| then Some(Bool(sofar))
    else
      var v := Eval(e.values[i], env);
      if v.None? then None
      else Combine(e, i + 1, if e.conjunction then sofar && Truthy(v.value) else sofar || Truthy(v.value), env)
  }

  /** The links from `i` on. Operands are always evaluated; once the result is false the
      comparisons themselves are skipped. */
  function Chain(e: Expr, i: nat, left: Value, result: bool, env: Env): Outcome
    requires e.Compare? && i <= |e.links|
    decreases e, 0, |e.links| - i
  {
    if i == |e.links| then Some(Bool(result))
    else if e.links[i].op.UnsupportedOperator? then None
    else
      var right := Eval(e.links[i].operand, env);
      if right.None? then None
      else
        var hit := if result then Holds(e.links[i].op, left, right.value, env) else Some(false);
        if hit.None? then None else Chain(e, i + 1, right.value, hit.value, env)
  }

  /** What names and attributes read: the three literals always mean themselves, other names are
      looked up, attributes reach into mappings, and whatever is missing raises. */
  lemma PathsMean(id: string, attr: string, env: Env)
    ensures Eval(Name("true"), env) == Some(Bool(true)) && Eval(Name("false"), env) == Some(Bool(false))
    ensures Eval(Name("null"), env) == Some(Null)
    ensures id !in {"true", "false", "null"} ==>
              Eval(Name(id), env) == if id in env.context then Some(env.context[id]) else None
    ensures forall base ::
              var b := Eval(base, env);
              Eval(Attribute(base, attr), env) ==
                if b.Some? && b.value.Dict? && attr in b.value.fields then Some(b.value.fields[attr]) else None
  {
  }

  /** What the unary operators do. */
  lemma UnaryMeans(e: Expr, env: Env)
    requires Eval(e, env).Some?
    ensures
      var v := Eval(e, env).value;
      && Eval(Not(e), env) == Some(Bool(!Truthy(v)))
      && (v.Num? ==> Eval(Negate(e), env) == Some(Num(0.0 - v.n)) && Eval(Plus(e), env) == Some(v))
      && (v.Bool? ==> Eval(Negate(e), env) == Some(Num(if v.b then -1.0 else 0.0)) &&
                      Eval(Plus(e), env) == Some(Num(if v.b then 1.0 else 0.0)))
      && (!v.Num? && !v.Bool? ==> Eval(Negate(e), env).None? && Eval(Plus(e), env).None?)
  {
  }

  lemma {:induction false} CombineMeans(e: Expr, i: nat, sofar: bool, env: Env)
    requires e.BoolOp? && i <= |e.values| && forall j | 0 <= j < |e.values| :: Eval(e.values[j], env).Some?
    ensures Combine(e, i, sofar, env) ==
            Some(Bool(if e.conjunction then sofar && forall j | i <= j < |e.values| :: Truthy(Eval(e.values[j], env).value)
                      else sofar || exists j | i <= j < |e.values| :: Truthy(Eval(e.values[j], env).value)))
    decreases |e.values| - i
  {
    if i < |e.values| {
      var v := Truthy(Eval(e.values[i], env).value);
      CombineMeans(e, i + 1, if e.conjunction then sofar && v else sofar || v, env);
    }
  }

  /** `and` is true exactly if every operand is truthy, `or` exactly if some is. */
  lemma ConnectivesMean(e: Expr, env: Env)
    requires e.BoolOp? && forall j | 0 <= j < |e.values| :: Eval(e.values[j], env).Some?
    ensures Eval(e, env) ==
            Some(Bool(if e.conjunction then forall j | 0 <= j < |e.values| :: Truthy(Eval(e.values[j], env).value)
                      else exists j | 0 <= j < |e.values| :: Truthy(Eval(e.values[j], env).value)))
  {
    CombineMeans(e, 0, e.conjunction, env);
  }

  method EvalOperands(values: seq<Expr>, conjunction: bool, env: Env) returns (r: Outcome)
    ensures r == Eval(BoolOp(conjunction, values), env)
    decreases values, 0
  {
    ghost var e := BoolOp(conjunction, values);
    var sofar := conjunction;
    for i := 0 to |values|
      invariant Combine(e, i, sofar, env) == Combine(e, 0, conjunction, env)
    {
      var v := EvalNode(values[i], env);
      if v.None? {
        return None;
      }
      sofar := if conjunction then sofar && Truthy(v.value) else sofar || Truthy(v.value);
    }
    r := Some(Bool(sofar));
  }

  /** The chained-comparison loop. */
  method EvalChain(e: Expr, env: Env) returns (r: Outcome)
    requires e.Compare?
    ensures r == Eval(e, env)
    decreases e, 0
  {
    var first := EvalNode(e.left, env);
    if first.None? {
      return None;
    }
    var left, result := first.value, true;
    for i := 0 to |e.links|
      invariant Chain(e, i, left, result, env) == Chain(e, 0, first.value, true, env)
    {
      if e.links[i].op.UnsupportedOperator? {
        return None;
      }
      var right := EvalNode(e.links[i].operand, env);
      if right.None? {
        return None;
      }
      if result {
        var hit := Holds(e.links[i].op, left, right.value, env);
        if hit.None? {
          return None;
        }
        result := hit.value;
      }
      left := right.value;
    }
    r := Some(Bool(result));
  }

  method EvalNode(e: Expr, env: Env) returns (r: Outcome)
    ensures r == Eval(e, env)
    decreases e, 1
  {
    match e
    case Constant(v) => r := Some(v);
    case Name(id) => r := Lookup(id, env.context);
    case Attribute(base, attr) =>
      r := EvalNode(base, env);
      r := Field(r, attr);
    case Not(operand) =>
      r := EvalNode(operand, env);
      r := Negated(r);
    case Negate(operand) =>
      r := EvalNode(operand, env);
      r := Signed(r, true);
    case Plus(operand) =>
      r := EvalNode(operand, env);
      r := Signed(r, false);
    case BoolOp(conjunction, values) => r := EvalOperands(values, conjunction, env);
    case Compare(_, _) => r := EvalChain(e, env);
    case Unsupported => r := None;
  }

  // ------------------------------------------------------------ the short-circuit evaluator

  function Lazy(e: Expr, env: Env): Outcome
    decreases e, 1, 0
  {
    match e
    case Constant(v) => Some(v)
    case Name(id) => Lookup(id, env.context)
    case Attribute(base, attr) => Field(Lazy(base, env), attr)
    case Not(operand) => Negated(Lazy(operand, env))
    case Negate(operand) => Signed(Lazy(operand, env), true)
    case Plus(operand) => Signed(Lazy(operand, env), false)
    case BoolOp(_, _) => LazyCombine(e, 0, env)
    case Compare(left, _) =>
      var l := Lazy(left, env);
      if l.None? then None else LazyChain(e, 0, l.value, env)
    case Unsupported => None
  }

  /** Stops at the first operand that decides the result. */
  function LazyCombine(e: Expr, i: nat, env: Env): Outcome
    requires e.BoolOp? && i <= |e.values|
    decreases e, 0, |e.values| - i
  {
    if i == |e.values| then Some(Bool(e.conjunction))
    else
      var v := Lazy(e.values[i], env);
      if v.None? then None
      else if Truthy(v.value) != e.conjunction then Some(Bool(!e.conjunction))
      else LazyCombine(e, i + 1, env)
  }

  /** Stops at the first comparison that fails. */
  function LazyChain(e: Expr, i: nat, left: Value, env: Env): Outcome
    requires e.Compare? && i <= |e.links|
    decreases e, 0, |e.links| - i
  {
    if i == |e.links| then Some(Bool(true))
    else
      var right := Lazy(e.links[i].operand, env);
      if right.None? then None
      else
        var hit := Holds(e.links[i].op, left, right.value, env);
        if hit.None? then None
        else if !hit.value then Some(Bool(false))
        else LazyChain(e, i + 1, right.value, env)
  }

  /** Whenever the eager evaluator succeeds, short-circuiting gives the same value. */
  lemma {:induction false} EagerAgreesWithLazy(e: Expr, env: Env)
    ensures Eval(e, env).Some? ==> Lazy(e, env) == Eval(e, env)
    decreases e, 1, 0
  {
    match e
    case Constant(_) | Name(_) | Unsupported =>
    case Attribute(base, _) => EagerAgreesWithLazy(base, env);
    case Not(operand) => EagerAgreesWithLazy(operand, env);
    case Negate(operand) => EagerAgreesWithLazy(operand, env);
    case Plus(operand) => EagerAgreesWithLazy(operand, env);
    case BoolOp(conjunction, values) => CombineAgrees(e, 0, env);
    case Compare(left, _) =>
      EagerAgreesWithLazy(left, env);
      if Eval(left, env).Some? {
        ChainAgrees(e, 0, Eval(left, env).value, env);
      }
  }

  lemma {:induction false} DecidedStays(e: Expr, i: nat, env: Env)
    requires e.BoolOp? && i <= |e.values|
    ensures Combine(e, i, !e.conjunction, env).Some? ==> Combine(e, i, !e.conjunction, env).value == Bool(!e.conjunction)
    decreases |e.values| - i
  {
    if i < |e.values| {
      DecidedStays(e, i + 1, env);
    }
  }

  lemma {:induction false} CombineAgrees(e: Expr, i: nat, env: Env)
    requires e.BoolOp? && i <= |e.values|
    ensures Combine(e, i, e.conjunction, env).Some? ==> LazyCombine(e, i, env) == Combine(e, i, e.conjunction, env)
    decreases e, 0, |e.values| - i
  {
    if i < |e.values| {
      EagerAgreesWithLazy(e.values[i], env);
      CombineAgrees(e, i + 1, env);
      DecidedStays(e, i + 1, env);
    }
  }

  lemma {:induction false} BrokenStays(e: Expr, i: nat, left: Value, env: Env)
    requires e.Compare? && i <= |e.links|
    ensures Chain(e, i, left, false, env).Some? ==> Chain(e, i, left, false, env).value == Bool(false)
    decreases |e.links| - i
  {
    if i < |e.links| && Eval(e.links[i].operand, env).Some? {
      BrokenStays(e, i + 1, Eval(e.links[i].operand, env).value, env);
    }
  }

  lemma {:induction false} ChainAgrees(e: Expr, i: nat, left: Value, env: Env)
    requires e.Compare? && i <= |e.links|
    ensures Chain(e, i, left, true, env).Some? ==> LazyChain(e, i, left, env) == Chain(e, i, left, true, env)
    decreases e, 0, |e.links| - i
  {
    if i < |e.links| && Eval(e.links[i].operand, env).Some? {
      var right := Eval(e.links[i].operand, env).value;
      EagerAgreesWithLazy(e.links[i].operand, env);
      ChainAgrees(e, i + 1, right, env);
      BrokenStays(e, i + 1, right, env);
    }
  }

  // ------------------------------------------------------------ chains as conjunctions

  function LeftOf(e: Expr, i: nat): Expr
    requires e.Compare? && i <= |e.links|
  {
    if i == 0 then e.left else e.links[i - 1].operand
  }

  function Pair(e: Expr, i: nat): Expr
    requires e.Compare? && i < |e.links|
  {
    Compare(LeftOf(e, i), [e.links[i]])
  }

  /** `a < b < c` written out as `a < b and b < c`. */
  function Conjunction(e: Expr): Expr
    requires e.Compare?
  {
    BoolOp(true, seq(|e.links|, i requires 0 <= i < |e.links| => Pair(e, i)))
  }

  lemma PairValue(e: Expr, i: nat, env: Env)
    requires e.Compare? && i < |e.links| && Eval(LeftOf(e, i), env).Some?
    ensures var left, link := Eval(LeftOf(e, i), env).value, e.links[i];
            Eval(Pair(e, i), env) ==
            (if link.op.UnsupportedOperator? || Eval(link.operand, env).None? then None
             else
               var hit := Holds(link.op, left, Eval(link.operand, env).value, env);
               if hit.None? then None else Some(Bool(hit.value)))
  {
    var p := Pair(e, i);
    assert p.links[0] == e.links[i];
    if Eval(p.links[0].operand, env).Some? {
      var right := Eval(p.links[0].operand, env).value;
      assert forall b :: Chain(p, 1, right, b, env) == Some(Bool(b));
    }
  }

  lemma {:induction false} ConjunctionFrom(e: Expr, i: nat, left: Value, sofar: bool, env: Env)
    requires e.Compare? && i <= |e.links| && Eval(LeftOf(e, i), env) == Some(left)
    ensures Combine(Conjunction(e), i, sofar, env).Some? ==>
              Chain(e, i, left, sofar, env) == Combine(Conjunction(e), i, sofar, env)
    ensures Chain(e, i, left, true, env).Some? ==>
              LazyCombine(Conjunction(e), i, env) == Chain(e, i, left, true, env)
    decreases |e.links| - i
  {
    if i < |e.links| {
      PairValue(e, i, env);
      EagerAgreesWithLazy(Pair(e, i), env);
      assert Conjunction(e).values[i] == Pair(e, i);
      var right := Eval(e.links[i].operand, env);
      if right.Some? && Eval(Pair(e, i), env).Some? {
        ConjunctionFrom(e, i + 1, right.value, sofar && Truthy(Eval(Pair(e, i), env).value), env);
        BrokenStays(e, i + 1, right.value, env);
      }
    }
  }

  /** A chain has the value of the conjunction of its adjacent pairs whenever that conjunction
      has one; and every value of a chain is the short-circuit value of the conjunction. */
  lemma ChainIsConjunction(e: Expr, env: Env)
    requires e.Compare? && e.links != []
    ensures Eval(Conjunction(e), env).Some? ==> Eval(e, env) == Eval(Conjunction(e), env)
    ensures Eval(e, env).Some? ==> Lazy(Conjunction(e), env) == Eval(e, env)
  {
    if Eval(e.left, env).Some? {
      ConjunctionFrom(e, 0, Eval(e.left, env).value, true, env);
    } else {
      assert Conjunction(e).values[0] == Pair(e, 0);
      assert Eval(Pair(e, 0), env).None?;
    }
  }

  /** Both sides of link `i` have values and can be compared. */
  predicate Compares(e: Expr, i: nat, env: Env)
    requires e.Compare? && i < |e.links|
  {
    && Eval(LeftOf(e, i), env).Some? && Eval(e.links[i].operand, env).Some?
    && Holds(e.links[i].op, Eval(LeftOf(e, i), env).value, Eval(e.links[i].operand, env).value, env).Some?
  }

  lemma {:induction false} OperandsHaveValues(e: Expr, i: nat, left: Value, result: bool, env: Env)
    requires e.Compare? && i <= |e.links| && Chain(e, i, left, result, env).Some?
    ensures forall j | i <= j < |e.links| :: Eval(e.links[j].operand, env).Some?
    decreases |e.links| - i
  {
    if i < |e.links| {
      var right := Eval(e.links[i].operand, env).value;
      var hit := if result then Holds(e.links[i].op, left, right, env) else Some(false);
      OperandsHaveValues(e, i + 1, right, hit.value, env);
    }
  }

  lemma PairCompares(e: Expr, i: nat, env: Env)
    requires e.Compare? && i < |e.links| && Eval(LeftOf(e, i), env).Some?
    ensures Eval(Pair(e, i), env).Some? <==> Compares(e, i, env)
  {
    PairValue(e, i, env);
  }

  lemma {:induction false} CombinesWhenAllHaveValues(e: Expr, i: nat, sofar: bool, env: Env)
    requires e.BoolOp? && i <= |e.values|
    ensures Combine(e, i, sofar, env).Some? <==> forall j | i <= j < |e.values| :: Eval(e.values[j], env).Some?
    decreases |e.values| - i
  {
    if i < |e.values| && Eval(e.values[i], env).Some? {
      var v := Truthy(Eval(e.values[i], env).value);
      CombinesWhenAllHaveValues(e, i + 1, if e.conjunction then sofar && v else sofar || v, env);
    }
  }

  lemma ConjunctionHasValueExactly(e: Expr, env: Env)
    requires e.Compare? && Eval(e, env).Some?
    ensures Eval(Conjunction(e), env).Some? <==> forall i | 0 <= i < |e.links| :: Compares(e, i, env)
  {
    var c := Conjunction(e);
    CombinesWhenAllHaveValues(c, 0, true, env);
    OperandsHaveValues(e, 0, Eval(e.left, env).value, true, env);
    forall i | 0 <= i < |e.links| ensures Eval(c.values[i], env).Some? <==> Compares(e, i, env) {
      assert c.values[i] == Pair(e, i);
      PairCompares(e, i, env);
    }
  }

  /** A chain that has a value equals its written-out conjunction if and only if every adjacent
      pair of its operands can be compared. */
  lemma ChainIsConjunctionExactly(e: Expr, env: Env)
    requires e.Compare? && e.links != [] && Eval(e, env).Some?
    ensures Eval(Conjunction(e), env) == Eval(e, env) <==> forall i | 0 <= i < |e.links| :: Compares(e, i, env)
  {
    ConjunctionHasValueExactly(e, env);
    ChainIsConjunction(e, env);
  }

  /** The converse fails: a chain skips the comparisons after a false one, so it can have a
      value where the eager conjunction raises. */
  lemma ChainSkipsComparisons(env: Env)
    requires env.order(Lt, Num(2.0), Str("a")).None?
    ensures var e := Compare(Constant(Num(1.0)),
                             [Link(Eq, Constant(Num(2.0))), Link(Lt, Constant(Str("a")))]);
            Eval(e, env) == Some(Bool(false)) && Eval(Conjunction(e), env).None?
  {
    var e := Compare(Constant(Num(1.0)),
                     [Link(Eq, Constant(Num(2.0))), Link(Lt, Constant(Str("a")))]);
    assert Chain(e, 2, Str("a"), false, env) == Some(Bool(false));
    assert Chain(e, 1, Num(2.0), false, env) == Some(Bool(false));
    PairValue(e, 1, env);
    var c := Conjunction(e);
    assert c.values[0] == Pair(e, 0) && c.values[1] == Pair(e, 1);
    PairValue(e, 0, env);
    assert Combine(c, 0, true, env) == Combine(c, 1, false, env);
  }

  // ------------------------------------------------------------ extending the context

  /** `to` is `from` with names added. */
  ghost predicate AddsNames(from: Env, to: Env)
  {
    to.order == from.order && forall k | k in from.context :: k in to.context && to.context[k] == from.context[k]
  }

  /** A value is unaffected by names the context gains. */
  lemma {:induction false} FreshNamesAreIgnored(e: Expr, from: Env, to: Env)
    requires AddsNames(from, to) && Eval(e, from).Some?
    ensures Eval(e, to) == Eval(e, from)
    decreases e, 1, 0
  {
    match e
    case Constant(_) | Name(_) =>
    case Attribute(base, _) => FreshNamesAreIgnored(base, from, to);
    case Not(operand) => FreshNamesAreIgnored(operand, from, to);
    case Negate(operand) => FreshNamesAreIgnored(operand, from, to);
    case Plus(operand) => FreshNamesAreIgnored(operand, from, to);
    case BoolOp(conjunction, values) =>
      forall i | 0 <= i < |values| && Eval(values[i], from).Some? { FreshNamesAreIgnored(values[i], from, to); }
      SameOperands(e, 0, conjunction, from, to);
    case Compare(left, links) =>
      FreshNamesAreIgnored(left, from, to);
      forall i | 0 <= i < |links| && Eval(links[i].operand, from).Some? {
        FreshNamesAreIgnored(links[i].operand, from, to);
      }
      SameLinks(e, 0, Eval(left, from).value, true, from, to);
  }

  predicate Same(e: Expr, from: Env, to: Env) { Eval(e, from).Some? ==> Eval(e, to) == Eval(e, from) }

  lemma {:induction false} SameOperands(e: Expr, i: nat, sofar: bool, from: Env, to: Env)
    requires e.BoolOp? && i <= |e.values| && forall j | 0 <= j < |e.values| :: Same(e.values[j], from, to)
    ensures Combine(e, i, sofar, from).Some? ==> Combine(e, i, sofar, to) == Combine(e, i, sofar, from)
    decreases |e.values| - i
  {
    if i < |e.values| && Eval(e.values[i], from).Some? {
      assert Same(e.values[i], from, to);
      var v := Truthy(Eval(e.values[i], from).value);
      SameOperands(e, i + 1, if e.conjunction then sofar && v else sofar || v, from, to);
    }
  }

  lemma {:induction false} SameLinks(e: Expr, i: nat, left: Value, result: bool, from: Env, to: Env)
    requires e.Compare? && i <= |e.links| && to.order == from.order
    requires forall j | 0 <= j < |e.links| :: Same(e.links[j].operand, from, to)
    ensures Chain(e, i, left, result, from).Some? ==> Chain(e, i, left, result, to) == Chain(e, i, left, result, from)
    decreases |e.links| - i
  {
    if i < |e.links| && Eval(e.links[i].operand, from).Some? {
      assert Same(e.links[i].operand, from, to);
      var right := Eval(e.links[i].operand, from).value;
      var hit := if result then Holds(e.links[i].op, left, right, from) else Some(false);
      if hit.Some? {
        SameLinks(e, i + 1, right, hit.value, from, to);
      }
    }
  }

  /** `w` is `v` with fields added to mappings, at any depth of mappings. */
  predicate Extends(v: Value, w: Value)
  {
    v == w ||
    (v.Dict? && w.Dict? &&
     forall k | k in v.fields :: k in w.fields && Extends(v.fields[k], w.fields[k]))
  }

  predicate ExtendsFields(f: Fields, g: Fields)
  {
    forall k | k in f :: k in g && Extends(f[k], g[k])
  }

  /** Mappings are used only as the base of an attribute: no path whose value is compared,
      tested or returned denotes one. */
  predicate UsesNoMapping(e: Expr, env: Env)
  {
    match e
    case Constant(_) | Unsupported => true
    case Name(_) | Attribute(_, _) => Eval(e, env).Some? ==> !Eval(e, env).value.Dict?
    case Not(operand) => UsesNoMapping(operand, env)
    case Negate(operand) => UsesNoMapping(operand, env)
    case Plus(operand) => UsesNoMapping(operand, env)
    case BoolOp(_, values) => forall i | 0 <= i < |values| :: UsesNoMapping(values[i], env)
    case Compare(left, links) =>
      UsesNoMapping(left, env) && forall i | 0 <= i < |links| :: UsesNoMapping(links[i].operand, env)
  }

  lemma OnlyPathsAreMappings(e: Expr, env: Env)
    requires Eval(e, env).Some? && Eval(e, env).value.Dict?
    ensures e.Name? || e.Attribute?
  {
    match e
    case BoolOp(conjunction, _) => CombineIsBool(e, 0, conjunction, env);
    case Compare(left, _) => ChainIsBool(e, 0, Eval(left, env).value, true, env);
    case _ =>
  }

  lemma {:induction false} CombineIsBool(e: Expr, i: nat, sofar: bool, env: Env)
    requires e.BoolOp? && i <= |e.values| && Combine(e, i, sofar, env).Some?
    ensures Combine(e, i, sofar, env).value.Bool?
    decreases |e.values| - i
  {
    if i < |e.values| {
      var v := Truthy(Eval(e.values[i], env).value);
      CombineIsBool(e, i + 1, if e.conjunction then sofar && v else sofar || v, env);
    }
  }

  lemma {:induction false} ChainIsBool(e: Expr, i: nat, left: Value, result: bool, env: Env)
    requires e.Compare? && i <= |e.links| && Chain(e, i, left, result, env).Some?
    ensures Chain(e, i, left, result, env).value.Bool?
    decreases |e.links| - i
  {
    if i < |e.links| {
      var right := Eval(e.links[i].operand, env).value;
      var hit := if result then Holds(e.links[i].op, left, right, env) else Some(false);
      ChainIsBool(e, i + 1, right, hit.value, env);
    }
  }

  /** In an extended context a path still resolves, to an extension of what it was. */
  lemma {:induction false} PathsExtend(e: Expr, from: Env, to: Env)
    requires (e.Name? || e.Attribute?) && Eval(e, from).Some?
    requires ExtendsFields(from.context, to.context)
    ensures Eval(e, to).Some? && Extends(Eval(e, from).value, Eval(e, to).value)
  {
    if e.Attribute? {
      OnlyPathsAreMappings(e.base, from);
      PathsExtend(e.base, from, to);
    }
  }

  /** A value is unaffected by fields that mappings anywhere in the context gain, as long as
      the expression uses mappings only to reach into them. */
  lemma {:induction false} FreshFieldsAreIgnored(e: Expr, from: Env, to: Env)
    requires ExtendsFields(from.context, to.context) && to.order == from.order
    requires UsesNoMapping(e, from) && Eval(e, from).Some?
    ensures Eval(e, to) == Eval(e, from)
    decreases e, 1, 0
  {
    match e
    case Constant(_) =>
    case Name(_) | Attribute(_, _) => PathsExtend(e, from, to);
    case Not(operand) => FreshFieldsAreIgnored(operand, from, to);
    case Negate(operand) => FreshFieldsAreIgnored(operand, from, to);
    case Plus(operand) => FreshFieldsAreIgnored(operand, from, to);
    case BoolOp(conjunction, values) =>
      forall i | 0 <= i < |values| && Eval(values[i], from).Some? { FreshFieldsAreIgnored(values[i], from, to); }
      SameOperands(e, 0, conjunction, from, to);
    case Compare(left, links) =>
      FreshFieldsAreIgnored(left, from, to);
      forall i | 0 <= i < |links| && Eval(links[i].operand, from).Some? {
        FreshFieldsAreIgnored(links[i].operand, from, to);
      }
      SameLinks(e, 0, Eval(left, from).value, true, from, to);
  }

  /** Without that condition a fresh field can change the result: an empty mapping is false
      until it gains one. */
  lemma FreshFieldCanChangeResult(from: Env, to: Env)
    requires to.order == from.order
    requires from.context == map["quality" := Dict(map[])]
    requires to.context == map["quality" := Dict(map["mean" := Num(1.0)])]
    ensures ExtendsFields(from.context, to.context)
    ensures Eval(Not(Name("quality")), from) == Some(Bool(true))
    ensures Eval(Not(Name("quality")), to) == Some(Bool(false))
  {
    assert "mean" in to.context["quality"].fields;
  }
}
