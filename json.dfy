/** The part of a serde_json `Value` that company.rs relies on: indexing by
    key or by position, which yields `Null` for a step that is not there
    instead of panicking, and `as_i64`. */
module JsonValue {
  import opened Wrappers

  type I64 = x: int | -0x8000_0000_0000_0000 <= x < 0x8000_0000_0000_0000
  type U64 = x: int | 0 <= x < 0x1_0000_0000_0000_0000

  /** A JSON number as serde_json stores it: an unsigned integer, a negative
      integer, or a float (kept as its bit pattern). */
  datatype Number = PosInt(u: U64) | NegInt(i: I64) | Float(bits: bv64)

  datatype Json =
    | Null
    | Bool(b: bool)
    | Num(n: Number)
    | Str(s: string)
    | Array(items: seq<Json>)
    | Object(members: map<string, Json>)

  /** One `[...]` in `value["quoteSummary"]["result"][0]...`. */
  datatype Step = Key(name: string) | Index(pos: nat)

  type Path = seq<Step>

  /** True when `j[step]` names a value that is actually there. */
  predicate HasStep(j: Json, step: Step) {
    match step
    case Key(k) => j.Object? && k in j.members
    case Index(i) => j.Array? && i < |j.items|
  }

  /** `j[step]`: a missing key, an index out of range or a step into a value
      of the wrong kind gives `Null`. */
  function Get(j: Json, step: Step): (r: Json)
    ensures !HasStep(j, step) ==> r == Null
    ensures step.Key? && HasStep(j, step) ==> r == j.members[step.name]
    ensures step.Index? && HasStep(j, step) ==> r == j.items[step.pos]
  {
    match step
    case Key(k) => if j.Object? && k in j.members then j.members[k] else Null
    case Index(i) => if j.Array? && i < |j.items| then j.items[i] else Null
  }

  /** `j[p0][p1]...[pn]`. */
  function At(j: Json, path: Path): Json
    decreases |path|
  {
    if path == [] then j else At(Get(j, path[0]), path[1..])
  }

  /** Every step of the path exists in the document. */
  predicate Resolves(j: Json, path: Path)
    decreases |path|
  {
    path == [] || (HasStep(j, path[0]) && Resolves(Get(j, path[0]), path[1..]))
  }

  /** `Value::as_i64`: an integer that fits in an i64; floats, strings, null
      and every other kind give `None`. */
  function AsI64(j: Json): (r: Option<I64>)
    ensures r.Some? ==> HoldsI64(j, r.value)
  {
    match j
    case Num(PosInt(u)) => if u < 0x8000_0000_0000_0000 then Some(u as I64) else None
    case Num(NegInt(i)) => Some(i)
    case _ => None
  }

  /** The JSON leaves that `as_i64` reads as `v`. */
  predicate HoldsI64(leaf: Json, v: I64) {
    leaf == Num(NegInt(v)) || (0 <= v && leaf == Num(PosInt(v as U64)))
  }

  /** `j[p0]...[pn].as_i64()`. */
  function I64At(j: Json, path: Path): Option<I64>
  {
    AsI64(At(j, path))
  }

  /** Once a step of the path is missing, the lookup stays at `Null` for
      the rest of it: `At` never fails. */
  lemma {:induction false} MissingStepIsNull(j: Json, path: Path)
    requires !Resolves(j, path)
    ensures At(j, path) == Null
    decreases |path|
  {
    if HasStep(j, path[0]) {
      MissingStepIsNull(Get(j, path[0]), path[1..]);
    } else {
      NullStaysNull(path[1..]);
    }
  }

  lemma {:induction false} NullStaysNull(path: Path)
    ensures At(Null, path) == Null
    decreases |path|
  {
    if path != [] {
      NullStaysNull(path[1..]);
    }
  }

  /** A lookup succeeds exactly when every step of the path exists and the
      leaf is an integer in i64 range; then it yields that integer. */
  lemma I64AtPresent(j: Json, path: Path, v: I64)
    ensures I64At(j, path) == Some(v) <==> Resolves(j, path) && HoldsI64(At(j, path), v)
  {
    if !Resolves(j, path) {
      MissingStepIsNull(j, path);
    }
  }
}
