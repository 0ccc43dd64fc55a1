/**
 * The vocabulary of a Mongoose schema as the intake layer uses it: request
 * values, stored values, and per-field constraints (`type`, `required`,
 * `enum`, `trim`, `default`).
 */
module Schemas {
  import opened Wrappers

  /** A JavaScript `Date`, as milliseconds since the Unix epoch. */
  type Date = int

  /** One value of a parsed JSON request body. `Time` never arrives from the
      wire: it is the `Date` object the Sales route writes into the body. */
  datatype Value =
    | Str(s: string)
    | Num(x: real)
    | Bool(b: bool)
    | Time(d: Date)
    | Composite          // a JSON array or object

  /** A request body: field name to value; an absent key is `undefined`. */
  type Body = map<string, Value>

  /** A value after Mongoose has cast it to the path's declared type; `Null`
      is what the Number and Date casts make of an empty string. */
  datatype Stored = Text(s: string) | Number(x: real) | When(d: Date) | Null

  /** A document as it is saved: only the schema's paths that hold a value. */
  type Record = map<string, Stored>

  /** The `type` option of a path. */
  datatype Kind = StringKind | NumberKind | DateKind

  /** The `default` option of a path: none, a literal string, or `Date.now`. */
  datatype Default = NoDefault | Literal(text: string) | Now

  /** One path of a schema with its options; `allowed` is the `enum` list. */
  datatype Field = Field(
    name: string,
    kind: Kind,
    required: bool,
    trim: bool,
    allowed: Option<set<string>>,
    dflt: Default)

  /** A schema: its paths in declaration order. */
  datatype Schema = Schema(fields: seq<Field>)

  /** A stored value fits a path type; `null` fits every type. */
  predicate OfKind(v: Stored, k: Kind) {
    match v
    case Text(_) => k == StringKind
    case Number(_) => k == NumberKind
    case When(_) => k == DateKind
    case Null => true
  }

  /** The names of a run of fields. */
  function NamesOf(fs: seq<Field>): (names: set<string>)
    ensures forall i :: 0 <= i < |fs| ==> fs[i].name in names
    ensures forall n :: n in names ==> exists i :: 0 <= i < |fs| && fs[i].name == n
  {
    if fs == [] then {} else {fs[0].name} + NamesOf(fs[1..])
  }

  /** No two fields share a name (a schema is a JavaScript object literal). */
  predicate DistinctNames(fs: seq<Field>) {
    forall i, j :: 0 <= i < j < |fs| ==> fs[i].name != fs[j].name
  }

  /** The options of a path fit its type: `trim` and `enum` only on strings,
      a literal default only on strings and `Date.now` only on dates. */
  predicate FieldWellFormed(f: Field) {
    && (f.trim ==> f.kind == StringKind)
    && (f.allowed.Some? ==> f.kind == StringKind)
    && (f.dflt.Literal? ==> f.kind == StringKind)
    && (f.dflt.Now? ==> f.kind == DateKind)
  }

  predicate WellFormed(s: Schema) {
    && DistinctNames(s.fields)
    && forall i :: 0 <= i < |s.fields| ==> FieldWellFormed(s.fields[i])
  }

  /** The value the body holds for `name`, or `None` for `undefined`. */
  function Lookup(body: Body, name: string): Option<Value> {
    if name in body then Some(body[name]) else None
  }
}
