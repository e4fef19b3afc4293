/**
  Argument coercion and validation of core/control/call_router.cpp.

  Doubles are modelled as reals; the only rounding the source guards against,
  an integer past 2^53, is the explicit bound below. The integer ranges are
  subset types, so a conversion that could wrap would not verify.
 */
module Arguments {
  import opened Options
  import opened Registry

  const INT64_MAX: int := 0x7fff_ffff_ffff_ffff
  const MAX_EXACT_DOUBLE: int := 0x20_0000_0000_0000

  type Int64 = i: int | -INT64_MAX - 1 <= i <= INT64_MAX
  type Uint64 = u: int | 0 <= u <= 2 * INT64_MAX + 1

  datatype Value =
    | BoolValue(b: bool) | Int64Value(i: Int64) | Uint64Value(u: Uint64)
    | DoubleValue(d: real) | StringValue(s: string) | BytesValue(bytes: seq<int>) | Unset

  type Args = map<string, Value>

  /** One argument against one parameter type; `None` is the refusal. */
  function CoerceValue(v: Value, kind: ValueType): Option<Value> {
    match kind
    case Uint64Type =>
      if !v.Int64Value? then Some(v)
      else if v.i < 0 then None
      else Some(Uint64Value(v.i))
    case Int64Type =>
      if !v.Uint64Value? then Some(v)
      else if v.u > INT64_MAX then None
      else Some(Int64Value(v.u))
    case DoubleType =>
      if v.Int64Value? then
        if v.i > MAX_EXACT_DOUBLE || v.i < -MAX_EXACT_DOUBLE then None else Some(DoubleValue(v.i as real))
      else if v.Uint64Value? then
        if v.u > MAX_EXACT_DOUBLE then None else Some(DoubleValue(v.u as real))
      else Some(v)
    case _ => Some(v)
  }

  /** The pass over the spec's own argument list, which may name an argument twice. */
  function Coerce(specs: seq<ArgSpec>, args: Args): Option<Args> {
    if specs == [] then Some(args)
    else if specs[0].name !in args then Coerce(specs[1..], args)
    else
      match CoerceValue(args[specs[0].name], specs[0].kind)
      case None => None
      case Some(v) => Coerce(specs[1..], args[specs[0].name := v])
  }

  /** `coerce_arguments`: the loop over the spec, rewriting the map in place. */
  method CoerceArguments(specs: seq<ArgSpec>, args: Args) returns (coerced: Option<Args>)
    ensures coerced == Coerce(specs, args)
  {
    var rewritten := args;
    var i := 0;
    while i < |specs|
      invariant 0 <= i <= |specs|
      invariant Coerce(specs[i..], rewritten) == Coerce(specs, args)
    {
      assert specs[i..][1..] == specs[i + 1..];
      if specs[i].name in rewritten {
        var v := CoerceValue(rewritten[specs[i].name], specs[i].kind);
        if v.None? {
          return None;
        }
        rewritten := rewritten[specs[i].name := v.value];
      }
      i := i + 1;
    }
    return Some(rewritten);
  }

  // ---- What one argument goes through -------------------------------------

  /** The parameter types declared for one name, in order. */
  function KindsOf(specs: seq<ArgSpec>, name: string): seq<ValueType> {
    if specs == [] then []
    else (if specs[0].name == name then [specs[0].kind] else []) + KindsOf(specs[1..], name)
  }

  function Chain(kinds: seq<ValueType>, v: Value): Option<Value> {
    if kinds == [] then Some(v)
    else
      match CoerceValue(v, kinds[0])
      case None => None
      case Some(w) => Chain(kinds[1..], w)
  }

  /** One name through the pass: its own chain, whatever the other names do. */
  lemma {:induction false} CoercionAt(specs: seq<ArgSpec>, args: Args, name: string)
    requires name in args
    ensures Chain(KindsOf(specs, name), args[name]).None? ==> Coerce(specs, args).None?
    ensures Coerce(specs, args).Some? ==>
            && Coerce(specs, args).value.Keys == args.Keys
            && Chain(KindsOf(specs, name), args[name]) == Some(Coerce(specs, args).value[name])
  {
    if specs != [] {
      var first := specs[0];
      var rest := KindsOf(specs[1..], name);
      if first.name == name {
        assert KindsOf(specs, name) == [first.kind] + rest;
        assert KindsOf(specs, name)[1..] == rest;
      } else {
        assert KindsOf(specs, name) == rest;
      }
      if first.name !in args {
        CoercionAt(specs[1..], args, name);
      } else {
        var v := CoerceValue(args[first.name], first.kind);
        if v.Some? {
          CoercionAt(specs[1..], args[first.name := v.value], name);
        }
      }
    }
  }

  /** A refused pass was refused for some supplied name. */
  lemma {:induction false} CoercionRefusedAt(specs: seq<ArgSpec>, args: Args) returns (name: string)
    requires Coerce(specs, args).None?
    ensures name in args && Chain(KindsOf(specs, name), args[name]).None?
  {
    var first := specs[0];
    var v := if first.name in args then CoerceValue(args[first.name], first.kind) else None;
    if first.name in args && v.None? {
      name := first.name;
      assert KindsOf(specs, name)[0] == first.kind;
    } else {
      var next := if first.name in args then args[first.name := v.value] else args;
      name := CoercionRefusedAt(specs[1..], next);
      if first.name == name {
        assert KindsOf(specs, name)[1..] == KindsOf(specs[1..], name);
      } else {
        assert KindsOf(specs, name) == KindsOf(specs[1..], name);
      }
    }
  }

  /** Names do not interact: the pass is the per-name chain at every name. */
  lemma CoercionIsPointwise(specs: seq<ArgSpec>, args: Args)
    ensures Coerce(specs, args).None? <==>
            exists name :: name in args && Chain(KindsOf(specs, name), args[name]).None?
    ensures Coerce(specs, args).Some? ==>
            var out := Coerce(specs, args).value;
            out.Keys == args.Keys &&
            forall name :: name in args ==> Chain(KindsOf(specs, name), args[name]) == Some(out[name])
  {
    if Coerce(specs, args).None? {
      var name := CoercionRefusedAt(specs, args);
    }
    forall name | name in args {
      CoercionAt(specs, args, name);
    }
    if args == map[] && Coerce(specs, args).Some? {
      NothingToCoerce(specs);
    }
  }

  lemma {:induction false} NothingToCoerce(specs: seq<ArgSpec>)
    ensures Coerce(specs, map[]) == Some(map[])
  {
    if specs != [] {
      NothingToCoerce(specs[1..]);
    }
  }

  predicate IsInteger(v: Value) { v.Int64Value? || v.Uint64Value? }

  function IntegerOf(v: Value): int
    requires IsInteger(v)
  {
    if v.Int64Value? then v.i else v.u
  }

  /** The number a value denotes, if it denotes one. */
  function Number(v: Value): Option<real> {
    match v
    case Int64Value(i) => Some(i as real)
    case Uint64Value(u) => Some(u as real)
    case DoubleValue(d) => Some(d)
    case _ => None
  }

  /** Whether the source calls the integer representable by the parameter type. */
  predicate Fits(n: int, kind: ValueType) {
    match kind
    case Uint64Type => 0 <= n
    case Int64Type => n <= INT64_MAX
    case DoubleType => -MAX_EXACT_DOUBLE <= n <= MAX_EXACT_DOUBLE
    case _ => true
  }

  /** Every declared type fits, up to the first double. */
  predicate FitsAll(kinds: seq<ValueType>, n: int) {
    forall i :: 0 <= i < |kinds| && DoubleType !in kinds[..i] ==> Fits(n, kinds[i])
  }

  lemma FitsAllSnoc(front: seq<ValueType>, last: ValueType, n: int)
    ensures FitsAll(front + [last], n) <==> FitsAll(front, n) && (DoubleType !in front ==> Fits(n, last))
  {
    var kinds := front + [last];
    assert forall i :: 0 <= i <= |front| ==> front[..i] == kinds[..i];
    assert kinds[|front|] == last && kinds[..|front|] == front;
    assert forall i :: 0 <= i < |front| ==> front[i] == kinds[i];
  }

  /** The kind an integer ends up with: double for good once one is met, else the last integer kind. */
  function Settled(kinds: seq<ValueType>, v: Value): Value
    requires IsInteger(v) && FitsAll(kinds, IntegerOf(v))
    decreases |kinds|
  {
    var n := IntegerOf(v);
    if DoubleType in kinds then DoubleValue(n as real)
    else if kinds == [] then v
    else
      var front, last := kinds[..|kinds| - 1], kinds[|kinds| - 1];
      FitsFront(kinds, n);
      if last == Int64Type then Int64Value(n)
      else if last == Uint64Type then Uint64Value(n)
      else Settled(front, v)
  }

  lemma FitsFront(kinds: seq<ValueType>, n: int)
    requires kinds != [] && FitsAll(kinds, n)
    ensures FitsAll(kinds[..|kinds| - 1], n)
    ensures DoubleType !in kinds[..|kinds| - 1] ==> Fits(n, kinds[|kinds| - 1])
  {
    var front, last := kinds[..|kinds| - 1], kinds[|kinds| - 1];
    assert kinds == front + [last];
    FitsAllSnoc(front, last, n);
  }

  lemma ChainSnoc(kinds: seq<ValueType>, kind: ValueType, v: Value)
    ensures Chain(kinds + [kind], v) ==
            match Chain(kinds, v) case None => None case Some(w) => CoerceValue(w, kind)
  {
    if kinds == [] {
      assert ([kind])[1..] == [];
    } else {
      assert (kinds + [kind])[1..] == kinds[1..] + [kind];
    }
  }

  /** One more declared type, for an integer no double has met yet. */
  lemma SettledSnoc(front: seq<ValueType>, last: ValueType, v: Value)
    requires IsInteger(v) && FitsAll(front + [last], IntegerOf(v)) && FitsAll(front, IntegerOf(v))
    requires DoubleType !in front ==> Fits(IntegerOf(v), last)
    ensures Settled(front + [last], v) ==
              if DoubleType in front || last == DoubleType then DoubleValue(IntegerOf(v) as real)
              else if last == Int64Type then Int64Value(IntegerOf(v))
              else if last == Uint64Type then Uint64Value(IntegerOf(v))
              else Settled(front, v)
  {
    assert (front + [last])[..|front|] == front;
  }

  /** What the next type makes of a settled integer. */
  lemma CoercedInteger(w: Value, kind: ValueType)
    requires IsInteger(w)
    ensures CoerceValue(w, kind).Some? <==> Fits(IntegerOf(w), kind)
    ensures Fits(IntegerOf(w), kind) ==>
              && (kind == DoubleType ==> CoerceValue(w, kind).value == DoubleValue(IntegerOf(w) as real))
              && (kind == Int64Type ==> CoerceValue(w, kind).value == Int64Value(IntegerOf(w)))
              && (kind == Uint64Type ==> CoerceValue(w, kind).value == Uint64Value(IntegerOf(w)))
              && (kind != DoubleType && kind != Int64Type && kind != Uint64Type ==> CoerceValue(w, kind).value == w)
  {
  }

  /** Success, and the settled value, exactly when every type met while still an integer fits. */
  lemma {:induction false} IntegerChain(kinds: seq<ValueType>, v: Value)
    requires IsInteger(v)
    ensures Chain(kinds, v).Some? <==> FitsAll(kinds, IntegerOf(v))
    ensures Chain(kinds, v).Some? ==> Chain(kinds, v).value == Settled(kinds, v)
    decreases |kinds|
  {
    if kinds != [] {
      var front, last := kinds[..|kinds| - 1], kinds[|kinds| - 1];
      assert kinds == front + [last];
      IntegerChain(front, v);
      ChainSnoc(front, last, v);
      FitsAllSnoc(front, last, IntegerOf(v));
      if FitsAll(front, IntegerOf(v)) {
        if DoubleType !in front {
          SettledStaysInteger(front, v);
          CoercedInteger(Settled(front, v), last);
        }
        if FitsAll(kinds, IntegerOf(v)) {
          SettledSnoc(front, last, v);
        }
      }
    }
  }

  lemma {:induction false} SettledStaysInteger(kinds: seq<ValueType>, v: Value)
    requires IsInteger(v) && DoubleType !in kinds && FitsAll(kinds, IntegerOf(v))
    ensures IsInteger(Settled(kinds, v)) && IntegerOf(Settled(kinds, v)) == IntegerOf(v)
    decreases |kinds|
  {
    if kinds != [] && kinds[|kinds| - 1] != Int64Type && kinds[|kinds| - 1] != Uint64Type {
      FitsFront(kinds, IntegerOf(v));
      SettledStaysInteger(kinds[..|kinds| - 1], v);
    }
  }

  lemma {:induction false} NonIntegerChain(kinds: seq<ValueType>, v: Value)
    requires !IsInteger(v)
    ensures Chain(kinds, v) == Some(v)
  {
    if kinds != [] {
      NonIntegerChain(kinds[1..], v);
    }
  }

  lemma {:induction false} SettledAgain(kinds: seq<ValueType>, v: Value, w: Value)
    requires IsInteger(v) && DoubleType !in kinds && FitsAll(kinds, IntegerOf(v))
    requires w == Settled(kinds, v)
    ensures IsInteger(w) && IntegerOf(w) == IntegerOf(v)
    ensures Settled(kinds, w) == w
    decreases |kinds|
  {
    SettledStaysInteger(kinds, v);
    if kinds != [] && kinds[|kinds| - 1] != Int64Type && kinds[|kinds| - 1] != Uint64Type {
      FitsFront(kinds, IntegerOf(v));
      FitsFront(kinds, IntegerOf(w));
      SettledAgain(kinds[..|kinds| - 1], v, w);
    }
  }

  // ---- The laws of coercion -----------------------------------------------

  /**
    What a successful pass leaves, in closed form: an integer becomes a double
    if any declaration of its name is a double, else takes the last integer
    type declared for it; every other value is untouched.
   */
  lemma CoercionSettles(specs: seq<ArgSpec>, args: Args, name: string)
    requires Coerce(specs, args).Some? && name in args
    ensures name in Coerce(specs, args).value
    ensures !IsInteger(args[name]) ==> Coerce(specs, args).value[name] == args[name]
    ensures IsInteger(args[name]) ==>
            && (forall i :: 0 <= i < |KindsOf(specs, name)| && DoubleType !in KindsOf(specs, name)[..i] ==>
                  Fits(IntegerOf(args[name]), KindsOf(specs, name)[i]))
            && Coerce(specs, args).value[name] == Settled(KindsOf(specs, name), args[name])
  {
    CoercionAt(specs, args, name);
    if IsInteger(args[name]) {
      IntegerChain(KindsOf(specs, name), args[name]);
    } else {
      NonIntegerChain(KindsOf(specs, name), args[name]);
    }
  }

  /** No argument is added, dropped, or given another mathematical value. */
  lemma CoercionPreservesNumbers(specs: seq<ArgSpec>, args: Args)
    requires Coerce(specs, args).Some?
    ensures Coerce(specs, args).value.Keys == args.Keys
    ensures forall name :: name in args ==>
              var out := Coerce(specs, args).value[name];
              out != args[name] ==> Number(out).Some? && Number(out) == Number(args[name])
  {
    CoercionIsPointwise(specs, args);
    forall name | name in args
      ensures var out := Coerce(specs, args).value[name];
              out != args[name] ==> Number(out).Some? && Number(out) == Number(args[name])
    {
      ChainKeepsNumber(KindsOf(specs, name), args[name]);
    }
  }

  lemma ChainKeepsNumber(kinds: seq<ValueType>, v: Value)
    requires Chain(kinds, v).Some?
    ensures var out := Chain(kinds, v).value; out != v ==> Number(out).Some? && Number(out) == Number(v)
  {
    if IsInteger(v) {
      IntegerChain(kinds, v);
      if DoubleType !in kinds {
        SettledStaysInteger(kinds, v);
      }
    } else {
      NonIntegerChain(kinds, v);
    }
  }

  /** Coercing what was already coerced changes nothing, duplicate argument names included. */
  lemma CoercionIsIdempotent(specs: seq<ArgSpec>, args: Args)
    requires Coerce(specs, args).Some?
    ensures Coerce(specs, Coerce(specs, args).value) == Coerce(specs, args)
  {
    var out := Coerce(specs, args).value;
    CoercionIsPointwise(specs, args);
    CoercionIsPointwise(specs, out);
    forall name | name in args
      ensures Chain(KindsOf(specs, name), out[name]) == Some(out[name])
    {
      var kinds := KindsOf(specs, name);
      if IsInteger(args[name]) {
        IntegerChain(kinds, args[name]);
        if DoubleType in kinds {
          NonIntegerChain(kinds, out[name]);
        } else {
          SettledAgain(kinds, args[name], out[name]);
          IntegerChain(kinds, out[name]);
        }
      } else {
        NonIntegerChain(kinds, args[name]);
      }
    }
    assert Coerce(specs, out).Some?;
    assert Coerce(specs, out).value == out;
  }

  /** Declaration `i` of `name` meets the argument as an integer it cannot represent. */
  predicate Unrepresentable(kinds: seq<ValueType>, v: Value, i: nat)
    requires i < |kinds|
  {
    IsInteger(v) && DoubleType !in kinds[..i] && !Fits(IntegerOf(v), kinds[i])
  }

  /** Refused exactly when some declaration of some supplied argument cannot represent it. */
  lemma CoercionFailsExactlyOnUnrepresentable(specs: seq<ArgSpec>, args: Args)
    ensures Coerce(specs, args).None? <==>
            exists name, i: nat :: name in args && i < |KindsOf(specs, name)|
                                   && Unrepresentable(KindsOf(specs, name), args[name], i)
  {
    CoercionIsPointwise(specs, args);
    forall name | name in args
      ensures Chain(KindsOf(specs, name), args[name]).None? <==>
              exists i: nat :: i < |KindsOf(specs, name)| && Unrepresentable(KindsOf(specs, name), args[name], i)
    {
      var kinds := KindsOf(specs, name);
      if IsInteger(args[name]) {
        IntegerChain(kinds, args[name]);
        if Chain(kinds, args[name]).None? {
          var i :| 0 <= i < |kinds| && DoubleType !in kinds[..i] && !Fits(IntegerOf(args[name]), kinds[i]);
          assert Unrepresentable(kinds, args[name], i);
        }
      } else {
        NonIntegerChain(kinds, args[name]);
      }
    }
  }

  // ---- Validation ----------------------------------------------------------

  predicate HasType(v: Value, kind: ValueType) {
    match kind
    case BoolType => v.BoolValue?
    case Int64Type => v.Int64Value?
    case Uint64Type => v.Uint64Value?
    case DoubleType => v.DoubleValue?
    case StringType => v.StringValue?
    case BytesType => v.BytesValue?
    case UnspecifiedType => false
  }

  predicate InRange(spec: ArgSpec, v: Value)
    requires HasType(v, spec.kind)
  {
    match v
    case DoubleValue(d) =>
      (spec.minDouble.Some? ==> spec.minDouble.value <= d) && (spec.maxDouble.Some? ==> d <= spec.maxDouble.value)
    case Int64Value(i) =>
      (spec.minInt64.Some? ==> spec.minInt64.value <= i) && (spec.maxInt64.Some? ==> i <= spec.maxInt64.value)
    case Uint64Value(u) =>
      (spec.minUint64.Some? ==> spec.minUint64.value <= u) && (spec.maxUint64.Some? ==> u <= spec.maxUint64.value)
    case StringValue(s) => spec.allowedValues == [] || s in spec.allowedValues
    case _ => true
  }

  /** The spec that judges a name: the last declared, since later ones overwrite the index. */
  function SpecOf(specs: seq<ArgSpec>, name: string): (found: Option<ArgSpec>)
    ensures found.Some? ==> found.value in specs && found.value.name == name
    ensures found.None? ==> forall s :: s in specs ==> s.name != name
  {
    if specs == [] then None
    else if specs[|specs| - 1].name == name then Some(specs[|specs| - 1])
    else SpecOf(specs[..|specs| - 1], name)
  }

  predicate ValidArgument(specs: seq<ArgSpec>, name: string, v: Value) {
    var spec := SpecOf(specs, name);
    spec.Some? && HasType(v, spec.value.kind) && InRange(spec.value, v)
  }

  predicate ValidArguments(specs: seq<ArgSpec>, args: Args) {
    && (forall spec :: spec in specs && spec.required ==> spec.name in args)
    && (forall name :: name in args ==> ValidArgument(specs, name, args[name]))
  }

  /** What a declaration admits, value by value: its own type, within its own bounds or among its own words. */
  predicate Declares(spec: ArgSpec, v: Value) {
    || (v.BoolValue? && spec.kind == BoolType)
    || (v.BytesValue? && spec.kind == BytesType)
    || (v.StringValue? && spec.kind == StringType && (spec.allowedValues == [] || v.s in spec.allowedValues))
    || (v.Int64Value? && spec.kind == Int64Type && Within(spec.minInt64, v.i, spec.maxInt64))
    || (v.Uint64Value? && spec.kind == Uint64Type && Within(spec.minUint64, v.u, spec.maxUint64))
    || (v.DoubleValue? && spec.kind == DoubleType
        && (spec.minDouble == None || v.d >= spec.minDouble.value)
        && (spec.maxDouble == None || v.d <= spec.maxDouble.value))
  }

  predicate Within(least: Option<int>, n: int, most: Option<int>) {
    (least == None || n >= least.value) && (most == None || n <= most.value)
  }

  /** The declaration at `i` is the last of its name. */
  predicate Judges(specs: seq<ArgSpec>, i: nat, name: string) {
    i < |specs| && specs[i].name == name && forall j :: i < j < |specs| ==> specs[j].name != name
  }

  lemma {:induction false} SpecOfIsLast(specs: seq<ArgSpec>, name: string)
    ensures SpecOf(specs, name).Some? ==>
              exists i: nat :: Judges(specs, i, name) && specs[i] == SpecOf(specs, name).value
  {
    if specs != [] {
      var front := specs[..|specs| - 1];
      if specs[|specs| - 1].name == name {
        assert Judges(specs, |specs| - 1, name);
      } else {
        SpecOfIsLast(front, name);
        if SpecOf(front, name).Some? {
          var i: nat :| Judges(front, i, name) && front[i] == SpecOf(front, name).value;
          assert Judges(specs, i, name);
        }
      }
    }
  }

  ghost predicate IsDeclared(specs: seq<ArgSpec>, name: string, v: Value) {
    exists i: nat :: Judges(specs, i, name) && Declares(specs[i], v)
  }

  lemma ArgumentValidExactly(specs: seq<ArgSpec>, name: string, v: Value)
    ensures ValidArgument(specs, name, v) <==> IsDeclared(specs, name, v)
  {
    SpecOfIsLast(specs, name);
    if SpecOf(specs, name).Some? {
      var i: nat :| Judges(specs, i, name) && specs[i] == SpecOf(specs, name).value;
      forall k: nat | Judges(specs, k, name) ensures k == i {
      }
    }
  }

  /** Arguments validate exactly when the required are there and each is admitted by the declaration that judges it. */
  lemma ValidExactlyAsDeclared(specs: seq<ArgSpec>, args: Args)
    ensures ValidArguments(specs, args) <==>
              && (forall i :: 0 <= i < |specs| && specs[i].required ==> specs[i].name in args)
              && (forall name <- args :: IsDeclared(specs, name, args[name]))
  {
    forall name <- args ensures ValidArgument(specs, name, args[name]) <==> IsDeclared(specs, name, args[name]) {
      ArgumentValidExactly(specs, name, args[name]);
    }
  }
}
