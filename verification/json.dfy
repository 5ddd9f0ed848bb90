/**
 JSON values as the handlers see them after parsing, together with the two
 JavaScript operators the handlers apply to them: truthiness (`!x`, `x || d`)
 and nullish coalescing (`x ?? d`). A property read that finds nothing is
 `None` (JavaScript's `undefined`); a property holding JSON `null` is
 `Some(Null)`. Numbers are exact reals, so `NaN` is not representable.
 */
module JsonValues {
  import opened Options

  datatype Json =
    | Null
    | Bool(b: bool)
    | Num(n: real)
    | Str(s: string)
    | Arr(elems: seq<Json>)
    | Obj(fields: seq<(string, Json)>)

  /** JavaScript truthiness of a present value: `null`, `false`, `0` and `""` are falsy. */
  predicate Truthy(j: Json) {
    match j
    case Null => false
    case Bool(b) => b
    case Num(n) => n != 0.0
    case Str(s) => s != ""
    case Arr(_) => true
    case Obj(_) => true
  }

  /** Truthiness of a property read; `undefined` is falsy. */
  predicate ReadTruthy(v: Option<Json>) {
    v.Some? && Truthy(v.value)
  }

  /** True of `undefined` and `null`, the two values `??` replaces. */
  predicate Nullish(v: Option<Json>) {
    v.None? || v.value.Null?
  }

  /** `v ?? d` */
  function Coalesce(v: Option<Json>, d: Json): (r: Json)
    ensures v.None? ==> r == d
    ensures v.Some? && v.value.Null? ==> r == d
    ensures v.Some? && !v.value.Null? ==> r == v.value
    ensures d != Null ==> r != Null
  {
    if Nullish(v) then d else v.value
  }

  /** `v || d` */
  function OrElse(v: Option<Json>, d: Json): (r: Json)
    ensures v.Some? && Truthy(v.value) ==> r == v.value
    ensures (v.None? || !Truthy(v.value)) ==> r == d
    ensures Truthy(d) ==> Truthy(r)
  {
    if ReadTruthy(v) then v.value else d
  }
}
