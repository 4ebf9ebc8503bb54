/** The `_convert_type` helper every generated module starts with: the
    validators of array fields call it to turn what the user passed (lists and
    tuples, nested to any depth) into tuples whose leaves are cast to the core
    type `int` or `float`, or, for a field without a core type, to `None`. */
module Coercion {
  import opened Wrappers
  import opened Strings

  /** The Python values a validator can be handed. */
  datatype Value =
    | List(elems: seq<Value>)
    | Tuple(elems: seq<Value>)
    | Int(i: int)
    | Float(x: real)
    | Bool(b: bool)
    | Str(s: string)
    | NoneValue
    | Item(kind: Target, root: Value) // an instance of a generated `...Item` wrapper class

  /** The `convert_to` argument: the class `int`, the class `float`, or `None`,
      which a validator passes when its field has no core type. */
  datatype Target = IntType | FloatType | NoType

  /** The target a validator passes for the core type it printed. */
  function TargetOf(core: Option<string>): (t: Target)
    ensures t == IntType <==> core == Some("int")
    ensures t == FloatType <==> core == Some("float")
    ensures t == NoType <==> core.None? || (core.value != "int" && core.value != "float")
  {
    if core == Some("int") then IntType
    else if core == Some("float") then FloatType
    else NoType
  }

  /** The TypeError or ValueError `int(v)` or `float(v)` raises. */
  datatype CastError = CannotCast(v: Value)

  predicate IsContainer(v: Value) {
    v.List? || v.Tuple?
  }

  /** `int(x)` of a float: the integer part, rounding toward zero. */
  function Truncate(x: real): (r: int)
    ensures x >= 0.0 ==> 0 <= r && r as real <= x < r as real + 1.0
    ensures x < 0.0 ==> r <= 0 && r as real - 1.0 < x <= r as real
  {
    if x >= 0.0 then x.Floor else -((-x).Floor)
  }

  /** A value held as the target type itself. */
  predicate HasTargetType(v: Value, t: Target) {
    match t
    case IntType => v.Int?
    case FloatType => v.Float?
    case NoType => false
  }

  /** `convert_to(v)` on a value that is not a list or a tuple. */
  function Cast(v: Value, t: Target): (r: Result<Value, CastError>)
    ensures r.Ok? ==> HasTargetType(r.value, t)
    ensures HasTargetType(v, t) ==> r == Ok(v)
    ensures r.Err? ==> r.error == CannotCast(v)
  {
    if t == NoType then Err(CannotCast(v)) // calling `None` raises TypeError
    else match v
    case Int(i) => Ok(if t == IntType then v else Float(i as real))
    case Float(x) => Ok(if t == IntType then Int(Truncate(x)) else v)
    case Bool(b) =>
      var n := if b then 1 else 0;
      Ok(if t == IntType then Int(n) else Float(n as real))
    case Str(s) =>
      (match ParseInt(s)
       case Some(n) => Ok(if t == IntType then Int(n) else Float(n as real))
       case None => Err(CannotCast(v)))
    case Item(kind, root) =>
      // the wrapper defines only `__int__` or only `__float__`, returning its root
      if kind == t && HasTargetType(root, t) then Ok(root) else Err(CannotCast(v))
    case _ => Err(CannotCast(v))
  }

  /** `_convert_type(v, convert_to)`. */
  function Convert(v: Value, t: Target): Result<Value, CastError>
    decreases v, 1
  {
    if IsContainer(v) then
      var ys :- ConvertAll(v.elems, t);
      Ok(Tuple(ys))
    else Cast(v, t)
  }

  /** The generator `(_convert_type(x, convert_to) for x in iter)` drained by
      `tuple`: element by element, the first failure propagating. */
  function ConvertAll(xs: seq<Value>, t: Target): (r: Result<seq<Value>, CastError>)
    decreases xs, 0
  {
    if xs == [] then Ok([])
    else
      var y :- Convert(xs[0], t);
      var rest :- ConvertAll(xs[1..], t);
      Ok([y] + rest)
  }

  // ---------------------------------------------------------------------------
  // Specifications

  /** `r` is `v` with every list or tuple level made a tuple of the same
      length, element by element, and every leaf cast. */
  predicate Mirrors(v: Value, r: Value, t: Target)
    decreases v
  {
    if IsContainer(v) then
      && r.Tuple? && |r.elems| == |v.elems|
      && forall i :: 0 <= i < |v.elems| ==> Mirrors(v.elems[i], r.elems[i], t)
    else Cast(v, t) == Ok(r)
  }

  /** Every leaf of `v` can be cast. */
  predicate Castable(v: Value, t: Target)
    decreases v
  {
    if IsContainer(v) then forall i :: 0 <= i < |v.elems| ==> Castable(v.elems[i], t)
    else Cast(v, t).Ok?
  }

  /** What `_convert_type` produces: tuples all the way down, leaves of the target type. */
  predicate Normal(v: Value, t: Target)
    decreases v
  {
    if IsContainer(v) then v.Tuple? && forall i :: 0 <= i < |v.elems| ==> Normal(v.elems[i], t)
    else HasTargetType(v, t)
  }

  // ---------------------------------------------------------------------------
  // Properties

  /** `_convert_type` keeps the shape: a tuple per list or tuple, of the same
      length, holding the converted elements. */
  lemma {:induction false} ConvertMirrors(v: Value, t: Target)
    requires Convert(v, t).Ok?
    ensures Mirrors(v, Convert(v, t).value, t)
    decreases v, 1
  {
    if IsContainer(v) {
      ConvertAllMirrors(v.elems, t);
    }
  }

  lemma {:induction false} ConvertAllMirrors(xs: seq<Value>, t: Target)
    requires ConvertAll(xs, t).Ok?
    ensures |ConvertAll(xs, t).value| == |xs|
    ensures forall i :: 0 <= i < |xs| ==> Mirrors(xs[i], ConvertAll(xs, t).value[i], t)
    decreases xs, 0
  {
    if xs != [] {
      ConvertMirrors(xs[0], t);
      ConvertAllMirrors(xs[1..], t);
      var ys := ConvertAll(xs, t).value;
      assert ys == [Convert(xs[0], t).value] + ConvertAll(xs[1..], t).value;
      forall i | 1 <= i < |xs|
        ensures Mirrors(xs[i], ys[i], t)
      {
        assert xs[i] == xs[1..][i - 1];
      }
    }
  }

  /** `_convert_type` raises nothing exactly when every leaf can be cast. */
  lemma {:induction false} ConvertOkIff(v: Value, t: Target)
    ensures Convert(v, t).Ok? <==> Castable(v, t)
    decreases v, 1
  {
    if IsContainer(v) {
      ConvertAllOkIff(v.elems, t);
    }
  }

  lemma {:induction false} ConvertAllOkIff(xs: seq<Value>, t: Target)
    ensures ConvertAll(xs, t).Ok? <==> forall i :: 0 <= i < |xs| ==> Castable(xs[i], t)
    decreases xs, 0
  {
    if xs != [] {
      ConvertOkIff(xs[0], t);
      ConvertAllOkIff(xs[1..], t);
      assert forall i :: 1 <= i < |xs| ==> xs[i] == xs[1..][i - 1];
    }
  }

  /** Whatever `_convert_type` returns is in normal form. */
  lemma {:induction false} MirrorsNormal(v: Value, r: Value, t: Target)
    requires Mirrors(v, r, t)
    ensures Normal(r, t)
    decreases v
  {
    if IsContainer(v) {
      forall i | 0 <= i < |r.elems|
        ensures Normal(r.elems[i], t)
      {
        MirrorsNormal(v.elems[i], r.elems[i], t);
      }
    }
  }

  /** On a value in normal form `_convert_type` changes nothing. */
  lemma {:induction false} ConvertNormal(v: Value, t: Target)
    requires Normal(v, t)
    ensures Convert(v, t) == Ok(v)
    decreases v, 1
  {
    if IsContainer(v) {
      ConvertAllNormal(v.elems, t);
    }
  }

  lemma {:induction false} ConvertAllNormal(xs: seq<Value>, t: Target)
    requires forall i :: 0 <= i < |xs| ==> Normal(xs[i], t)
    ensures ConvertAll(xs, t) == Ok(xs)
    decreases xs, 0
  {
    if xs != [] {
      ConvertNormal(xs[0], t);
      assert forall i :: 0 <= i < |xs[1..]| ==> xs[1..][i] == xs[i + 1];
      ConvertAllNormal(xs[1..], t);
      assert [xs[0]] + xs[1..] == xs;
    }
  }

  /** A value with no leaf: lists and tuples nested in one another, all empty at the bottom. */
  predicate NoLeaves(v: Value)
    decreases v
  {
    IsContainer(v) && forall i :: 0 <= i < |v.elems| ==> NoLeaves(v.elems[i])
  }

  /** With `convert_to = None` every leaf raises, so only values without leaves pass. */
  lemma {:induction false} NoTypeCastable(v: Value)
    ensures Castable(v, NoType) <==> NoLeaves(v)
    decreases v
  {
    if IsContainer(v) {
      forall i | 0 <= i < |v.elems|
        ensures Castable(v.elems[i], NoType) <==> NoLeaves(v.elems[i])
      {
        NoTypeCastable(v.elems[i]);
      }
    }
  }

  /** The validator of a field without a core type raises on every value that has a leaf. */
  lemma NoTypeConvert(v: Value)
    ensures Convert(v, NoType).Ok? <==> NoLeaves(v)
  {
    ConvertOkIff(v, NoType);
    NoTypeCastable(v);
  }

  /** Validating twice is validating once. */
  lemma ConvertIdempotent(v: Value, t: Target)
    requires Convert(v, t).Ok?
    ensures Convert(Convert(v, t).value, t) == Convert(v, t)
  {
    ConvertMirrors(v, t);
    MirrorsNormal(v, Convert(v, t).value, t);
    ConvertNormal(Convert(v, t).value, t);
  }

  /** The colour `wrgb=(1, 2, 3, 4)` of a colour-set message: its `conlist`
      field hands the validator a list of four wrapper items, which comes back
      as a tuple of four ints. */
  lemma WrgbExample()
    ensures Convert(List([Item(IntType, Int(1)), Item(IntType, Int(2)), Item(IntType, Int(3)), Item(IntType, Int(4))]), IntType)
         == Ok(Tuple([Int(1), Int(2), Int(3), Int(4)]))
  {
    var v := List([Item(IntType, Int(1)), Item(IntType, Int(2)), Item(IntType, Int(3)), Item(IntType, Int(4))]);
    var w := Tuple([Int(1), Int(2), Int(3), Int(4)]);
    assert Castable(v, IntType) by {
      forall i | 0 <= i < 4
        ensures Cast(v.elems[i], IntType).Ok?
      {
      }
    }
    ConvertOkIff(v, IntType);
    ConvertMirrors(v, IntType);
    var r := Convert(v, IntType).value;
    forall i | 0 <= i < 4
      ensures r.elems[i] == w.elems[i]
    {
      assert Mirrors(v.elems[i], r.elems[i], IntType);
    }
    assert r.elems == w.elems;
  }

  /** A plain list of ints is turned into the tuple of the same ints. */
  lemma IntListExample()
    ensures Convert(List([Int(1), Int(2), Int(3), Int(4)]), IntType)
         == Ok(Tuple([Int(1), Int(2), Int(3), Int(4)]))
  {
    ConvertAllNormal([Int(1), Int(2), Int(3), Int(4)], IntType);
  }
}
