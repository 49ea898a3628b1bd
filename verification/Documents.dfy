/** Python values as flow nodes produce them, and the JSON documents that survive
    being written to the run store and read back. */
module Documents {
  import opened Wrappers

  /** `Tuple` and `Opaque` are the values JSON alters (a tuple is read back as a
      list) or refuses (an object with no JSON form). */
  datatype Value =
    | Null
    | Bool(b: bool)
    | Num(n: real)
    | Str(s: string)
    | List(items: seq<Value>)
    | Tuple(parts: seq<Value>)
    | Dict(fields: map<string, Value>)
    | Opaque(tag: nat)

  type Fields = map<string, Value>

  /** The constants an expression or a JSON manifest can hold. */
  type Scalar = v: Value | v.Null? || v.Bool? || v.Num? || v.Str? witness Null

  /** `json.loads(json.dumps(v))`; `None` is the `TypeError` of an unserialisable value. */
  function RoundTrip(v: Value): Option<Value>
  {
    match v
    case Null | Bool(_) | Num(_) | Str(_) => Some(v)
    case List(items) =>
      if forall i | 0 <= i < |items| :: RoundTrip(items[i]).Some?
      then Some(List(seq(|items|, i requires 0 <= i < |items| => RoundTrip(items[i]).value)))
      else None
    case Tuple(parts) =>
      if forall i | 0 <= i < |parts| :: RoundTrip(parts[i]).Some?
      then Some(List(seq(|parts|, i requires 0 <= i < |parts| => RoundTrip(parts[i]).value)))
      else None
    case Dict(fields) =>
      if forall k | k in fields :: RoundTrip(fields[k]).Some?
      then Some(Dict(map k | k in fields :: RoundTrip(fields[k]).value))
      else None
    case Opaque(_) => None
  }

  /** The documents JSON can represent exactly. */
  predicate IsJson(v: Value)
  {
    match v
    case Null | Bool(_) | Num(_) | Str(_) => true
    case List(items) => forall i | 0 <= i < |items| :: IsJson(items[i])
    case Dict(fields) => forall k | k in fields :: IsJson(fields[k])
    case Tuple(_) | Opaque(_) => false
  }

  predicate JsonFields(fields: Fields)
  {
    forall k | k in fields :: IsJson(fields[k])
  }

  /** Whatever survives the round trip is a JSON document. */
  lemma {:induction false} RoundTripYieldsJson(v: Value)
    ensures RoundTrip(v).Some? ==> IsJson(RoundTrip(v).value)
  {
    match v
    case Null | Bool(_) | Num(_) | Str(_) | Opaque(_) =>
    case List(items) =>
      forall i | 0 <= i < |items| { RoundTripYieldsJson(items[i]); }
    case Tuple(parts) =>
      forall i | 0 <= i < |parts| { RoundTripYieldsJson(parts[i]); }
    case Dict(fields) =>
      forall k | k in fields { RoundTripYieldsJson(fields[k]); }
  }

  /** The round trip is the identity exactly on JSON documents, so it is idempotent. */
  lemma {:induction false} RoundTripFixpoint(v: Value)
    ensures RoundTrip(v) == Some(v) <==> IsJson(v)
  {
    match v
    case Null | Bool(_) | Num(_) | Str(_) | Opaque(_) | Tuple(_) =>
    case List(items) =>
      forall i | 0 <= i < |items| { RoundTripFixpoint(items[i]); }
      if IsJson(v) {
        assert RoundTrip(v).value.items == items;
      }
    case Dict(fields) =>
      forall k | k in fields { RoundTripFixpoint(fields[k]); }
      if IsJson(v) {
        assert RoundTrip(v).value.fields == fields;
      }
  }

  /** What `==` compares: Python identifies `True` with 1 and `False` with 0. */
  function Comparable(v: Value): Value
  {
    match v
    case Bool(b) => Num(if b then 1.0 else 0.0)
    case List(items) => List(seq(|items|, i requires 0 <= i < |items| => Comparable(items[i])))
    case Tuple(parts) => Tuple(seq(|parts|, i requires 0 <= i < |parts| => Comparable(parts[i])))
    case Dict(fields) => Dict(map k | k in fields :: Comparable(fields[k]))
    case Null | Num(_) | Str(_) | Opaque(_) => v
  }

  predicate PyEq(a: Value, b: Value)
  {
    Comparable(a) == Comparable(b)
  }

  /** `bool(v)`. */
  predicate Truthy(v: Value)
  {
    match v
    case Null => false
    case Bool(b) => b
    case Num(n) => n != 0.0
    case Str(s) => s != ""
    case List(items) => items != []
    case Tuple(parts) => parts != []
    case Dict(fields) => fields != map[]
    case Opaque(_) => true
  }

  /** `==` on containers compares them part by part, tells kinds apart, and knows booleans only
      as the numbers 0 and 1. */
  lemma EqualityMeans(a: Value, b: Value)
    ensures a.List? && b.List? ==>
              (PyEq(a, b) <==> |a.items| == |b.items| && forall i | 0 <= i < |a.items| :: PyEq(a.items[i], b.items[i]))
    ensures a.Dict? && b.Dict? ==>
              (PyEq(a, b) <==> a.fields.Keys == b.fields.Keys && forall k | k in a.fields :: PyEq(a.fields[k], b.fields[k]))
    ensures a.Bool? ==> PyEq(a, Num(if a.b then 1.0 else 0.0))
    ensures a.Num? && b.Num? ==> (PyEq(a, b) <==> a.n == b.n)
    ensures a.Str? ==> (PyEq(a, b) <==> b == a)
    ensures a.Null? ==> (PyEq(a, b) <==> b == a)
    ensures a.List? && !b.List? ==> !PyEq(a, b)
    ensures a.Dict? && !b.Dict? ==> !PyEq(a, b)
  {
    if a.List? && b.List? {
      var x, y := Comparable(a).items, Comparable(b).items;
      assert forall i | 0 <= i < |x| :: x[i] == Comparable(a.items[i]);
      assert forall i | 0 <= i < |y| :: y[i] == Comparable(b.items[i]);
      if |a.items| == |b.items| && forall i | 0 <= i < |a.items| :: PyEq(a.items[i], b.items[i]) {
        assert forall i | 0 <= i < |x| :: x[i] == y[i];
        assert x == y;
      }
      if PyEq(a, b) {
        assert x == y && |x| == |a.items| && |y| == |b.items|;
        forall i | 0 <= i < |a.items| ensures PyEq(a.items[i], b.items[i]) { assert x[i] == y[i]; }
      }
    } else if a.Dict? && b.Dict? {
      var x, y := Comparable(a).fields, Comparable(b).fields;
      assert x.Keys == a.fields.Keys && y.Keys == b.fields.Keys;
      assert PyEq(a, b) <==> x == y;
    }
  }

  /** The false values are null, false, zero and everything empty. */
  lemma TruthMeans(v: Value)
    ensures !Truthy(v) <==>
              v in {Null, Bool(false), Num(0.0), Str(""), List([]), Tuple([]), Dict(map[])}
  {
  }
}
