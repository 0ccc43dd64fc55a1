/**
 * What `new Model(body)` followed by `save()` decides about a body, read as
 * Mongoose's `default`, cast, `trim`, `required` and `enum` rules: either the
 * normalised document or every path that failed, with the reason.
 */
module Validation {
  import opened Wrappers
  import opened Whitespace
  import opened Schemas

  /** The conversions whose rules live in JavaScript and Mongoose rather than
      in the server: each maps a value the model does not pin down to its
      result, `None` when the conversion fails. */
  datatype Env = Env(
    jsDate: Value -> Option<Date>,       // `new Date(v)` with a non-NaN `getTime()`
    castDate: Value -> Option<Date>,     // Mongoose's Date cast of a non-Date value
    castNumber: Value -> Option<real>,   // Mongoose's Number cast of a non-number
    castString: Value -> Option<string>) // Mongoose's String cast of a non-string

  /** `new Date(v)` of a possibly `undefined` value. `new Date(undefined)` and
      `new Date('')` are Invalid Date; a date comes only from a present,
      non-empty value. */
  function JsDate(env: Env, v: Option<Value>): (r: Option<Date>)
    ensures v.None? || v == Some(Str("")) ==> r.None?
    ensures r.Some? ==> v.Some? && v.value != Str("") && env.jsDate(v.value) == r
    ensures v.Some? && v.value != Str("") ==> r == env.jsDate(v.value)
  {
    match v
    case None => None
    case Some(x) => if x == Str("") then None else env.jsDate(x)
  }

  /** Mongoose's cast of a present value to a path's type; a string path also
      trims, and the Number and Date casts turn an empty string into `null`. */
  function Cast(env: Env, f: Field, v: Value): (r: Option<Stored>)
    ensures r.Some? ==> OfKind(r.value, f.kind)
    ensures r.Some? && f.kind == StringKind ==> r.value.Text?
    ensures r.Some? && f.trim && f.kind == StringKind ==> IsTrimmed(r.value.s)
    ensures r == Some(Null) <==> f.kind != StringKind && v == Str("")
  {
    match f.kind
    case StringKind =>
      var s := if v.Str? then Some(v.s) else env.castString(v);
      if s.None? then None
      else Some(Text(if f.trim then Trim(s.value) else s.value))
    case NumberKind =>
      if v == Str("") then Some(Null)
      else
        var n := if v.Num? then Some(v.x) else env.castNumber(v);
        if n.None? then None else Some(Number(n.value))
    case DateKind =>
      if v == Str("") then Some(Null)
      else
        var d := if v.Time? then Some(v.d) else env.castDate(v);
        if d.None? then None else Some(When(d.value))
  }

  /** Why a path was rejected. */
  datatype Reason = Missing | CastFailed | NotInEnum

  /** One rejected path of a document. */
  datatype Violation = Violation(field: string, reason: Reason)

  /** What one path contributes: a stored value, nothing, or a rejection. */
  datatype Outcome = Keep(v: Stored) | Skip | Bad(reason: Reason)

  /** The value a path holds once `default` has been applied: only an absent key takes it. */
  function WithDefault(f: Field, v: Option<Value>, now: Date): (r: Option<Value>)
    ensures v.Some? ==> r == v
    ensures r.None? <==> v.None? && f.dflt.NoDefault?
  {
    match v
    case Some(_) => v
    case None =>
      match f.dflt
      case NoDefault => None
      case Literal(t) => Some(Str(t))
      case Now => Some(Time(now))
  }

  /** One path of one document: default, cast (and trim), then the `required`
      validator, then the `enum` validator. */
  function CheckField(env: Env, now: Date, f: Field, v: Option<Value>): (r: Outcome)
    requires FieldWellFormed(f)
    ensures r.Keep? ==> OfKind(r.v, f.kind)
    ensures r.Keep? && f.kind == StringKind ==> r.v.Text?
    ensures r.Keep? && f.trim ==> IsTrimmed(r.v.s)
    ensures r.Keep? && f.allowed.Some? ==> r.v.s in f.allowed.value
    ensures r.Keep? && f.required ==> r.v != Null && r.v != Text("")
    ensures r.Skip? ==> !f.required && v.None?
    ensures v.None? && f.dflt.NoDefault? ==> (r.Bad? <==> f.required)
    // A present string on a String path is judged on its (trimmed) text alone.
    ensures v.Some? && v.value.Str? && f.kind == StringKind ==>
      var t := if f.trim then Trim(v.value.s) else v.value.s;
      && (r.Bad? <==> (f.required && t == "") || (f.allowed.Some? && t !in f.allowed.value))
      && (!r.Bad? ==> r == Keep(Text(t)))
    // An empty string on a Number or Date path counts as no value.
    ensures v == Some(Str("")) && f.kind != StringKind ==>
      (r.Bad? <==> f.required) && (!r.Bad? ==> r == Keep(Null))
  {
    var w := WithDefault(f, v, now);
    if w.None? then
      if f.required then Bad(Missing) else Skip
    else
      match Cast(env, f, w.value)
      case None => Bad(CastFailed)
      case Some(x) =>
        if f.required && (x == Text("") || x == Null) then Bad(Missing)
        else if f.allowed.Some? && x.s !in f.allowed.value then Bad(NotInEnum)
        else Keep(x)
  }

  /** The outcome of the path `f` of `body`. */
  function Check(env: Env, now: Date, f: Field, body: Body): Outcome
    requires FieldWellFormed(f)
  {
    CheckField(env, now, f, Lookup(body, f.name))
  }

  /** The document agrees with one path's outcome: a kept value is stored
      under the path's name, a skipped path is absent. */
  predicate Agrees(rec: Record, f: Field, o: Outcome) {
    match o
    case Keep(x) => f.name in rec && rec[f.name] == x
    case Skip => f.name !in rec
    case Bad(_) => true
  }

  /** Some path of `fs` named `x.field` failed for reason `x.reason`. */
  predicate Explains(env: Env, now: Date, fs: seq<Field>, body: Body, x: Violation)
    requires forall i :: 0 <= i < |fs| ==> FieldWellFormed(fs[i])
  {
    exists i :: 0 <= i < |fs| && fs[i].name == x.field && Check(env, now, fs[i], body) == Bad(x.reason)
  }

  /** A path that explains a violation among `fs[1..]` explains it among `fs`. */
  lemma ExplainsTail(env: Env, now: Date, fs: seq<Field>, body: Body, errs: seq<Violation>)
    requires |fs| > 0
    requires forall i :: 0 <= i < |fs| ==> FieldWellFormed(fs[i])
    requires forall x :: x in errs ==> Explains(env, now, fs[1..], body, x)
    ensures forall x :: x in errs ==> Explains(env, now, fs, body, x)
  {
  }

  /** Validates the paths `fs` of a body: it succeeds exactly when no path
      fails, stores nothing outside `fs`, and reports only paths that failed. */
  function ValidateFields(env: Env, now: Date, fs: seq<Field>, body: Body)
    : (r: Result<Record, seq<Violation>>)
    requires DistinctNames(fs)
    requires forall i :: 0 <= i < |fs| ==> FieldWellFormed(fs[i])
    ensures r.Success? <==> forall i :: 0 <= i < |fs| ==> !Check(env, now, fs[i], body).Bad?
    ensures r.Success? ==> r.value.Keys <= NamesOf(fs)
    ensures r.Failure? ==> |r.error| > 0
    ensures r.Failure? ==> forall x :: x in r.error ==> Explains(env, now, fs, body, x)
  {
    if fs == [] then Success(map[])
    else
      var f := fs[0];
      var o := Check(env, now, f, body);
      var rest := ValidateFields(env, now, fs[1..], body);
      assert forall x :: x in NamesOf(fs[1..]) ==> x != f.name;
      if rest.Failure? then
        ExplainsTail(env, now, fs, body, rest.error);
        if o.Bad? then Failure([Violation(f.name, o.reason)] + rest.error) else rest
      else if o.Bad? then Failure([Violation(f.name, o.reason)])
      else if o.Keep? then Success(rest.value[f.name := o.v])
      else Success(rest.value)
  }

  /** On success the document holds every kept path's value under its name and
      no skipped path. */
  lemma {:induction false} ValidateFieldsStoresOutcomes(env: Env, now: Date, fs: seq<Field>, body: Body)
    requires DistinctNames(fs)
    requires forall i :: 0 <= i < |fs| ==> FieldWellFormed(fs[i])
    requires ValidateFields(env, now, fs, body).Success?
    ensures forall i :: 0 <= i < |fs| ==>
      Agrees(ValidateFields(env, now, fs, body).value, fs[i], Check(env, now, fs[i], body))
  {
    if fs != [] {
      ValidateFieldsStoresOutcomes(env, now, fs[1..], body);
      var rec := ValidateFields(env, now, fs, body).value;
      var tail := ValidateFields(env, now, fs[1..], body).value;
      assert fs[0].name !in NamesOf(fs[1..]);
      forall i | 1 <= i < |fs| ensures Agrees(rec, fs[i], Check(env, now, fs[i], body)) {
        assert fs[i] == fs[1..][i - 1];
      }
    }
  }

  /** On failure every failed path is reported with its reason. */
  lemma {:induction false} ValidateFieldsReportsAll(env: Env, now: Date, fs: seq<Field>, body: Body)
    requires DistinctNames(fs)
    requires forall i :: 0 <= i < |fs| ==> FieldWellFormed(fs[i])
    ensures forall i :: 0 <= i < |fs| && Check(env, now, fs[i], body).Bad? ==>
      Violation(fs[i].name, Check(env, now, fs[i], body).reason) in ValidateFields(env, now, fs, body).error
  {
    if fs != [] {
      ValidateFieldsReportsAll(env, now, fs[1..], body);
      forall i | 1 <= i < |fs| && Check(env, now, fs[i], body).Bad?
        ensures Violation(fs[i].name, Check(env, now, fs[i], body).reason) in ValidateFields(env, now, fs, body).error
      {
        assert fs[i] == fs[1..][i - 1];
      }
    }
  }

  /** Validates a whole body against a schema: `new Model(body).save()` up to the write. */
  function Validate(env: Env, now: Date, s: Schema, body: Body): (r: Result<Record, seq<Violation>>)
    requires WellFormed(s)
    ensures r.Success? ==> r.value.Keys <= NamesOf(s.fields)
    ensures r.Failure? ==> |r.error| > 0
  {
    ValidateFields(env, now, s.fields, body)
  }

  /** The result names path `name` among its violations. */
  predicate PathRejected(r: Result<Record, seq<Violation>>, name: string) {
    r.Failure? && exists x :: x in r.error && x.field == name
  }

  /** A path of a schema is reported exactly when that path fails on its own. */
  lemma RejectedIffBad(env: Env, now: Date, s: Schema, body: Body, i: nat)
    requires WellFormed(s) && i < |s.fields|
    ensures PathRejected(Validate(env, now, s, body), s.fields[i].name)
        <==> Check(env, now, s.fields[i], body).Bad?
  {
    var fs := s.fields;
    var r := Validate(env, now, s, body);
    if Check(env, now, fs[i], body).Bad? {
      ValidateFieldsReportsAll(env, now, fs, body);
      assert Violation(fs[i].name, Check(env, now, fs[i], body).reason) in r.error;
    }
  }

  /** A `required: true` path without a default whose key is absent rejects
      the whole body, naming that path as missing. */
  lemma MissingRequiredRejected(env: Env, now: Date, s: Schema, body: Body, i: nat)
    requires WellFormed(s) && i < |s.fields|
    requires s.fields[i].required && s.fields[i].dflt.NoDefault?
    requires s.fields[i].name !in body
    ensures Validate(env, now, s, body).Failure?
    ensures Violation(s.fields[i].name, Missing) in Validate(env, now, s, body).error
  {
    ValidateFieldsReportsAll(env, now, s.fields, body);
  }

  /** An optional path whose key is absent is never the reason for a rejection
      (unless it defaults to a literal outside its own `enum`, which no live schema does). */
  lemma AbsentOptionalAccepted(env: Env, now: Date, s: Schema, body: Body, i: nat)
    requires WellFormed(s) && i < |s.fields|
    requires !s.fields[i].required && s.fields[i].name !in body
    requires s.fields[i].dflt.NoDefault? || s.fields[i].allowed.None?
    ensures !PathRejected(Validate(env, now, s, body), s.fields[i].name)
  {
  }

  /** An untrimmed `enum` path holding the string `v` is rejected exactly when
      `v` is not one of the declared literals (or is empty on a required path):
      the match is exact and case-sensitive, with no whitespace normalisation. */
  lemma EnumExact(env: Env, now: Date, s: Schema, body: Body, i: nat, v: string)
    requires WellFormed(s) && i < |s.fields|
    requires s.fields[i].allowed.Some? && !s.fields[i].trim
    requires Lookup(body, s.fields[i].name) == Some(Str(v))
    ensures PathRejected(Validate(env, now, s, body), s.fields[i].name)
        <==> v !in s.fields[i].allowed.value || (s.fields[i].required && v == "")
  {
    RejectedIffBad(env, now, s, body, i);
  }

  /** A String path holding the string `v` is rejected exactly when its text
      (trimmed on a trim path) is empty on a required path or outside the
      path's `enum`; otherwise that text is what the path contributes. */
  lemma PresentStringExact(env: Env, now: Date, s: Schema, body: Body, i: nat, v: string)
    requires WellFormed(s) && i < |s.fields| && s.fields[i].kind == StringKind
    requires Lookup(body, s.fields[i].name) == Some(Str(v))
    ensures var f := s.fields[i];
      var t := if f.trim then Trim(v) else v;
      PathRejected(Validate(env, now, s, body), f.name) <==>
        (f.required && t == "") || (f.allowed.Some? && t !in f.allowed.value)
  {
    RejectedIffBad(env, now, s, body, i);
  }

  /** An empty string on a Number or Date path counts as no value: it rejects
      the body exactly when the path is required, and an accepted document
      holds `null` on that path. */
  lemma EmptyCastsToNull(env: Env, now: Date, s: Schema, body: Body, i: nat)
    requires WellFormed(s) && i < |s.fields| && s.fields[i].kind != StringKind
    requires Lookup(body, s.fields[i].name) == Some(Str(""))
    ensures PathRejected(Validate(env, now, s, body), s.fields[i].name) <==> s.fields[i].required
    ensures Validate(env, now, s, body).Success? ==>
      s.fields[i].name in Validate(env, now, s, body).value
      && Validate(env, now, s, body).value[s.fields[i].name] == Null
  {
    RejectedIffBad(env, now, s, body, i);
    if Validate(env, now, s, body).Success? {
      ValidateFieldsStoresOutcomes(env, now, s.fields, body);
    }
  }

  /** The document of an accepted body holds a path exactly when its key was
      present or the path has a default; nothing outside the schema is kept. */
  lemma RecordShape(env: Env, now: Date, s: Schema, body: Body)
    requires WellFormed(s)
    requires Validate(env, now, s, body).Success?
    ensures Validate(env, now, s, body).value.Keys <= NamesOf(s.fields)
    ensures forall i :: 0 <= i < |s.fields| ==>
      ((s.fields[i].name in Validate(env, now, s, body).value)
        <==> (s.fields[i].name in body || !s.fields[i].dflt.NoDefault?))
  {
    ValidateFieldsStoresOutcomes(env, now, s.fields, body);
  }

  /** An accepted document holds every path declared `required: true`. */
  lemma RequiredPresent(env: Env, now: Date, s: Schema, body: Body, i: nat)
    requires WellFormed(s) && i < |s.fields| && s.fields[i].required
    requires Validate(env, now, s, body).Success?
    ensures s.fields[i].name in Validate(env, now, s, body).value
  {
    ValidateFieldsStoresOutcomes(env, now, s.fields, body);
  }

  /** An absent key takes the path's default: a literal string (trimmed if the
      path trims) or the submission time. */
  lemma DefaultFillsAbsent(env: Env, now: Date, s: Schema, body: Body, i: nat)
    requires WellFormed(s) && i < |s.fields|
    requires s.fields[i].name !in body && !s.fields[i].dflt.NoDefault?
    requires Validate(env, now, s, body).Success?
    ensures s.fields[i].name in Validate(env, now, s, body).value
    ensures Validate(env, now, s, body).value[s.fields[i].name] ==
      match s.fields[i].dflt
      case Literal(t) => Text(if s.fields[i].trim then Trim(t) else t)
      case _ => When(now)
  {
    ValidateFieldsStoresOutcomes(env, now, s.fields, body);
  }

  /** A present string on a `trim: true` path is stored trimmed, and what is
      stored is already trimmed, so trimming it again changes nothing. */
  lemma TrimmedOnStore(env: Env, now: Date, s: Schema, body: Body, i: nat, v: string)
    requires WellFormed(s) && i < |s.fields| && s.fields[i].trim
    requires Lookup(body, s.fields[i].name) == Some(Str(v))
    requires Validate(env, now, s, body).Success?
    ensures s.fields[i].name in Validate(env, now, s, body).value
    ensures Validate(env, now, s, body).value[s.fields[i].name] == Text(Trim(v))
    ensures IsTrimmed(Validate(env, now, s, body).value[s.fields[i].name].s)
    ensures Trim(Validate(env, now, s, body).value[s.fields[i].name].s)
        == Validate(env, now, s, body).value[s.fields[i].name].s
  {
    ValidateFieldsStoresOutcomes(env, now, s.fields, body);
    TrimIdempotent(v);
  }

  /** A present value is stored as its own cast: a string on an untrimmed path
      verbatim, a number as that number, a `Date` as that instant. */
  lemma PresentStoredVerbatim(env: Env, now: Date, s: Schema, body: Body, i: nat)
    requires WellFormed(s) && i < |s.fields| && !s.fields[i].trim
    requires s.fields[i].name in body
    requires Validate(env, now, s, body).Success?
    ensures s.fields[i].name in Validate(env, now, s, body).value
    ensures var f := s.fields[i];
      var v := body[f.name];
      && (f.kind == StringKind && v.Str? ==> Validate(env, now, s, body).value[f.name] == Text(v.s))
      && (f.kind == NumberKind && v.Num? ==> Validate(env, now, s, body).value[f.name] == Number(v.x))
      && (f.kind == DateKind && v.Time? ==> Validate(env, now, s, body).value[f.name] == When(v.d))
  {
    ValidateFieldsStoresOutcomes(env, now, s.fields, body);
  }
}
