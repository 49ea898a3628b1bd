/** The flow expression language: path lookups, literals, comparisons and boolean
    operators, and the templates that embed expressions in input bindings. */
module FlowExpressions {
  import opened Wrappers
  import opened Documents

  datatype Segment = Key(key: string) | Index(index: int)

  datatype Comparison = Eq | Ne | Lt | Le | Gt | Ge

  datatype Expr =
    | Literal(value: Scalar)
    | Path(segments: seq<Segment>)
    | Compare(op: Comparison, left: Expr, right: Expr)
    | And(left: Expr, right: Expr)
    | Or(left: Expr, right: Expr)
    | Not(operand: Expr)

  /** A binding value: `Exact` is a string that is one whole template, `Interpolated`
      a string with templates embedded in text. */
  datatype Template =
    | Exact(expr: Expr)
    | Interpolated(parts: seq<Part>)
    | Object(entries: map<string, Template>)
    | Array(elements: seq<Template>)
    | Constant(value: Scalar)

  datatype Part = Text(text: string) | Hole(expr: Expr)

  /** Missing keys and indexes resolve to null; a negative index counts from the end. */
  function Resolve(segments: seq<Segment>, current: Value): Value
  {
    if segments == [] then current
    else
      match segments[0]
      case Index(i) =>
        var elements := if current.List? then current.items
                        else if current.Tuple? then current.parts else [];
        if (current.List? || current.Tuple?) && -|elements| <= i < |elements|
        then Resolve(segments[1..], if i < 0 then elements[|elements| + i] else elements[i])
        else Null
      case Key(k) =>
        if current.Dict? && k in current.fields
        then Resolve(segments[1..], current.fields[k])
        else Null
  }

  predicate IsNumber(v: Value) { v.Num? || v.Bool? }

  function Number(v: Value): real
    requires IsNumber(v)
  {
    if v.Num? then v.n else if v.b then 1.0 else 0.0
  }

  /** `None` is an `ExpressionError`: an ordering of values that are not numbers. */
  function Evaluate(e: Expr, state: Value): Option<Value>
  {
    match e
    case Literal(v) => Some(v)
    case Path(segments) => Some(Resolve(segments, state))
    case Not(operand) =>
      var v := Evaluate(operand, state);
      if v.None? then None else Some(Bool(!Truthy(v.value)))
    case And(left, right) =>
      var l := Evaluate(left, state);
      if l.None? then None
      else if !Truthy(l.value) then Some(Bool(false))
      else
        var r := Evaluate(right, state);
        if r.None? then None else Some(Bool(Truthy(r.value)))
    case Or(left, right) =>
      var l := Evaluate(left, state);
      if l.None? then None
      else if Truthy(l.value) then Some(Bool(true))
      else
        var r := Evaluate(right, state);
        if r.None? then None else Some(Bool(Truthy(r.value)))
    case Compare(op, left, right) =>
      var l := Evaluate(left, state);
      var r := Evaluate(right, state);
      if l.None? || r.None? then None
      else if op.Eq? then Some(Bool(PyEq(l.value, r.value)))
      else if op.Ne? then Some(Bool(!PyEq(l.value, r.value)))
      else if !IsNumber(l.value) || !IsNumber(r.value) then None
      else
        var a, b := Number(l.value), Number(r.value);
        Some(Bool(match op
                  case Lt => a < b
                  case Le => a <= b
                  case Gt => a > b
                  case _ => a >= b))
  }

  function Interpolate(parts: seq<Part>, state: Value, show: Value -> string): Option<string>
  {
    if parts == [] then Some("")
    else
      var rest := Interpolate(parts[1..], state, show);
      match parts[0]
      case Text(t) => if rest.None? then None else Some(t + rest.value)
      case Hole(e) =>
        var v := Evaluate(e, state);
        if v.None? || rest.None? then None else Some(show(v.value) + rest.value)
  }

  /** Renders a binding; `show` is Python's `str`. */
  function Render(t: Template, state: Value, show: Value -> string): Option<Value>
  {
    match t
    case Exact(e) => Evaluate(e, state)
    case Interpolated(parts) =>
      var text := Interpolate(parts, state, show);
      if text.None? then None else Some(Str(text.value))
    case Object(entries) =>
      if forall k | k in entries :: Render(entries[k], state, show).Some?
      then Some(Dict(map k | k in entries :: Render(entries[k], state, show).value))
      else None
    case Array(elements) =>
      if forall i | 0 <= i < |elements| :: Render(elements[i], state, show).Some?
      then Some(List(seq(|elements|,
                         i requires 0 <= i < |elements| => Render(elements[i], state, show).value)))
      else None
    case Constant(v) => Some(v)
  }

  lemma {:induction false} ResolveJson(segments: seq<Segment>, current: Value)
    requires IsJson(current)
    ensures IsJson(Resolve(segments, current))
    decreases |segments|
  {
    if segments != [] {
      match segments[0]
      case Index(i) =>
        if current.List? && -|current.items| <= i < |current.items| {
          ResolveJson(segments[1..],
                      if i < 0 then current.items[|current.items| + i] else current.items[i]);
        }
      case Key(k) =>
        if current.Dict? && k in current.fields {
          ResolveJson(segments[1..], current.fields[k]);
        }
    }
  }

  lemma EvaluateJson(e: Expr, state: Value)
    requires IsJson(state)
    ensures Evaluate(e, state).Some? ==> IsJson(Evaluate(e, state).value)
  {
    if e.Path? {
      ResolveJson(e.segments, state);
    }
  }

  /** Rendering bindings over a JSON state gives a JSON document: what a step row
      stores is exactly what the handler was given. */
  lemma {:induction false} RenderJson(t: Template, state: Value, show: Value -> string)
    requires IsJson(state)
    ensures Render(t, state, show).Some? ==> IsJson(Render(t, state, show).value)
  {
    match t
    case Exact(e) => EvaluateJson(e, state);
    case Interpolated(_) | Constant(_) =>
    case Object(entries) =>
      forall k | k in entries { RenderJson(entries[k], state, show); }
    case Array(elements) =>
      forall i | 0 <= i < |elements| { RenderJson(elements[i], state, show); }
  }

  /** What the operators mean: equality is Python's, an ordering compares numbers and fails on
      anything else, and the connectives stop at the operand that decides them. */
  lemma OperatorsMean(left: Expr, right: Expr, state: Value)
    requires Evaluate(left, state).Some?
    ensures
      var a, r := Evaluate(left, state).value, Evaluate(right, state);
      && Evaluate(Not(left), state) == Some(Bool(!Truthy(a)))
      && (Truthy(a) ==> Evaluate(Or(left, right), state) == Some(Bool(true)))
      && (!Truthy(a) ==> Evaluate(And(left, right), state) == Some(Bool(false)))
      && (Truthy(a) && r.Some? ==> Evaluate(And(left, right), state) == Some(Bool(Truthy(r.value))))
      && (!Truthy(a) && r.Some? ==> Evaluate(Or(left, right), state) == Some(Bool(Truthy(r.value))))
      && (r.None? ==> forall op :: Evaluate(Compare(op, left, right), state).None?)
      && (r.Some? ==>
            && Evaluate(Compare(Eq, left, right), state) == Some(Bool(PyEq(a, r.value)))
            && Evaluate(Compare(Ne, left, right), state) == Some(Bool(!PyEq(a, r.value))))
  {
  }

  lemma OrderingsMean(left: Expr, right: Expr, state: Value)
    requires Evaluate(left, state).Some? && Evaluate(right, state).Some?
    ensures
      var a, b := Evaluate(left, state).value, Evaluate(right, state).value;
      if (a.Num? || a.Bool?) && (b.Num? || b.Bool?) then
        && Evaluate(Compare(Lt, left, right), state) == Some(Bool(Number(a) < Number(b)))
        && Evaluate(Compare(Gt, left, right), state) == Some(Bool(Number(b) < Number(a)))
        && Evaluate(Compare(Le, left, right), state) == Some(Bool(!(Number(b) < Number(a))))
        && Evaluate(Compare(Ge, left, right), state) == Some(Bool(!(Number(a) < Number(b))))
      else
        && Evaluate(Compare(Lt, left, right), state).None? && Evaluate(Compare(Gt, left, right), state).None?
        && Evaluate(Compare(Le, left, right), state).None? && Evaluate(Compare(Ge, left, right), state).None?
  {
  }

  /** Indexing counts from either end; anything missing is null. */
  lemma IndexingMeans(items: seq<Value>, i: int)
    ensures
      var v := Resolve([Index(i)], List(items));
      && (0 <= i < |items| ==> v == items[i])
      && (-|items| <= i < 0 ==> v == items[|items| + i])
      && (i < -|items| || |items| <= i ==> v == Null)
  {
    var path := [Index(i)];
    assert path[1..] == [];
    assert forall v :: Resolve(path[1..], v) == v;
  }

  /** Interpolation concatenates its parts, and fails if any hole does. */
  lemma {:induction false} InterpolationConcatenates(a: seq<Part>, b: seq<Part>, state: Value, show: Value -> string)
    ensures
      var x, y := Interpolate(a, state, show), Interpolate(b, state, show);
      Interpolate(a + b, state, show) == if x.Some? && y.Some? then Some(x.value + y.value) else None
    decreases |a|
  {
    if a == [] {
      assert a + b == b;
      assert forall t: string :: "" + t == t;
    } else {
      InterpolationConcatenates(a[1..], b, state, show);
      assert (a + b)[1..] == a[1..] + b && (a + b)[0] == a[0];
      var x, y := Interpolate(a[1..], state, show), Interpolate(b, state, show);
      if x.Some? && y.Some? {
        assert forall t: string :: t + (x.value + y.value) == (t + x.value) + y.value;
      }
    }
  }

  lemma InterpolatesPart(p: Part, state: Value, show: Value -> string)
    ensures p.Text? ==> Interpolate([p], state, show) == Some(p.text)
    ensures p.Hole? && Evaluate(p.expr, state).None? ==> Interpolate([p], state, show).None?
    ensures p.Hole? && Evaluate(p.expr, state).Some? ==>
              Interpolate([p], state, show) == Some(show(Evaluate(p.expr, state).value))
  {
    assert [p][1..] == [];
    assert Interpolate([], state, show) == Some("");
    assert forall t: string :: t + "" == t;
  }

  /** Rendering keeps the shape of a binding and renders each part of it. */
  lemma RendersPartByPart(t: Template, state: Value, show: Value -> string)
    requires Render(t, state, show).Some?
    ensures var v := Render(t, state, show).value;
            match t
            case Constant(c) => v == c
            case Exact(e) => Evaluate(e, state) == Some(v)
            case Interpolated(parts) => v.Str? && Interpolate(parts, state, show) == Some(v.s)
            case Object(entries) =>
              v.Dict? && v.fields.Keys == entries.Keys &&
              forall k | k in entries :: Render(entries[k], state, show) == Some(v.fields[k])
            case Array(elements) =>
              v.List? && |v.items| == |elements| &&
              forall i | 0 <= i < |elements| :: Render(elements[i], state, show) == Some(v.items[i])
  {
  }
}
