/**
 * What the parse code the `fso_table` derive emits does at run time, as
 * functions over the cursor state `St`: the Vec, tuple, Option and Box-like
 * code of fso_tables/fso_tables_macro/src/typehandler.rs, the record parse of
 * struct.rs and the variant dispatch of enum.rs.
 *
 * A table type names a compiled schema in an environment. `fuel` bounds how
 * deep one table may hand over to another; when it runs out, or a type has no
 * schema, or a list element succeeds without consuming anything (the
 * generated `while let` loop then repeats forever), the outcome is `Stuck`.
 */
module Dispatch {
  import opened Wrappers
  import opened Text
  import opened FsoTable
  import opened BasicTypes
  import opened TypeHandler
  import opened TableSchema

  /** A parsed value. */
  datatype Value =
    | StrV(s: string)
    | BoolV(b: bool)
    | NumV(n: Number)
    | NoneV
    | SomeV(some: Value)
    | ListV(items: seq<Value>)
    | TupleV(elems: seq<Value>)
    | Boxed(container: BoxLike, boxed: Value)
    | RecordV(fields: seq<Value>)
    | EnumV(variant: string, values: seq<Value>)

  /** A compiled table. */
  datatype Table = RecordTable(rec: RecordSchema) | EnumTable(en: EnumSchema)

  type Env = map<string, Table>

  /** What a parse did: a value, the error it returned, or no result. */
  datatype Res = Done(value: Value) | Fail(error: ParseError) | Stuck

  /** A result and the cursor state after it. */
  datatype Outcome = Outcome(res: Res, st: St)

  /** The types with a hand-written `FSOTable` implementation. */
  predicate IsScalar(name: string) {
    name in {"String", "bool", "i32", "i64", "u32", "u64", "f32", "f64"}
  }

  function NumKindOf(name: string): NumKind
    requires IsScalar(name) && name != "String" && name != "bool"
  {
    if name == "i32" then I32
    else if name == "i64" then I64
    else if name == "u32" then U32
    else if name == "u64" then U64
    else if name == "f32" then F32
    else F64
  }

  /** The `FSOTable::parse` of a scalar type. */
  function ParseScalar(name: string, st: St): (o: Outcome)
    requires IsScalar(name)
    ensures |o.st.rest| <= |st.rest|
    ensures !o.res.Stuck?
  {
    if name == "String" then
      var (r, st2) := ParseStringSpec(st);
      Outcome(Done(StrV(r.value)), st2)
    else if name == "bool" then
      var (r, st2) := ParseBoolSpec(st);
      Outcome(if r.Ok? then Done(BoolV(r.value)) else Fail(r.error), st2)
    else
      var (r, st2) := ParseNumberSpec(st, NumKindOf(name));
      Outcome(if r.Ok? then Done(NumV(r.value)) else Fail(r.error), st2)
  }

  /** `consume_whitespace_inline` with extra chars, as a state step. */
  function SkipInline(st: St, also: seq<char>): (r: St)
    ensures |r.rest| <= |st.rest|
  {
    Advance(st, InlineWsLen(st.rest, also))
  }

  /**
   * The value of a field or element of shape `sh`: the code `deduce_type`
   * emits for it. A table type is parsed by its schema, one level of fuel
   * deeper.
   */
  function ParseShape(env: Env, fuel: nat, sh: Shape, st: St): (o: Outcome)
    ensures |o.st.rest| <= |st.rest|
    decreases fuel, 0, sh, 2
  {
    match sh
    case Direct(_, _) => ParseNamed(env, fuel, sh, st)
    case Generic(_, _) => ParseNamed(env, fuel, sh, st)
    case Vector(_) => VecLoop(env, fuel, sh, SkipInline(st, ['(']), [])
    case Optional(inner) => ParseShape(env, fuel, inner, st)
    case Container(inner, c) =>
      var o := ParseShape(env, fuel, inner, st);
      if o.res.Done? then Outcome(Done(Boxed(c, o.res.value)), o.st) else o
    case Tuple(_) => TupleFrom(env, fuel, sh, 0, SkipInline(st, ['(']), [])
  }

  /** A type named by the user: a scalar codec, or the `parse` of the table it names. */
  function ParseNamed(env: Env, fuel: nat, sh: Shape, st: St): (o: Outcome)
    requires sh.Direct? || sh.Generic?
    ensures |o.st.rest| <= |st.rest|
    decreases fuel, 0, sh, 1
  {
    if sh.Direct? && IsScalar(sh.name) then ParseScalar(sh.name, st)
    else if sh.name in env && fuel > 0 then ParseTable(env, fuel - 1, env[sh.name], st)
    else Outcome(Stuck, st)
  }

  /** The `while let` loop of a Vec: elements until the first failure, then `)` and friends skipped. */
  function VecLoop(env: Env, fuel: nat, vsh: Shape, st: St, acc: seq<Value>): (o: Outcome)
    requires vsh.Vector?
    ensures |o.st.rest| <= |st.rest|
    decreases fuel, 0, vsh, 1, |st.rest|
  {
    var o := ParseShape(env, fuel, vsh.elem, st);
    match o.res
    case Done(v) =>
      if |o.st.rest| < |st.rest| then VecLoop(env, fuel, vsh, o.st, acc + [v]) else Outcome(Stuck, o.st)
    case Fail(_) => Outcome(Done(ListV(acc)), SkipInline(o.st, [')']))
    case Stuck => o
  }

  /** The tuple elements from `i` on; a failure returns at once, success skips `)` and friends. */
  function TupleFrom(env: Env, fuel: nat, tsh: Shape, i: nat, st: St, acc: seq<Value>): (o: Outcome)
    requires tsh.Tuple? && i <= |tsh.elems|
    ensures |o.st.rest| <= |st.rest|
    decreases fuel, 0, tsh, 1, |tsh.elems| - i
  {
    if i == |tsh.elems| then Outcome(Done(TupleV(acc)), SkipInline(st, [')']))
    else
      var o := ParseShape(env, fuel, tsh.elems[i], st);
      if o.res.Done? then TupleFrom(env, fuel, tsh, i + 1, o.st, acc + [o.res.value]) else o
  }

  function ParseTable(env: Env, fuel: nat, t: Table, st: St): (o: Outcome)
    ensures |o.st.rest| <= |st.rest|
    decreases fuel, 4
  {
    match t
    case RecordTable(rec) => ParseRecord(env, fuel, rec, st)
    case EnumTable(en) => ParseEnum(env, fuel, en, st)
  }

  /** A table marker: whitespace and comments, then the exact text. */
  function Marker(st: St, marker: string): (r: (Result<(), ParseError>, St))
    ensures |r.1.rest| <= |st.rest|
  {
    var st1 := ConsumeWhitespaceSpec(st, false).1;
    ConsumeStringSpec(st1, marker)
  }

  /** The generated `parse` of a record: start marker, fields in order, end marker. */
  function ParseRecord(env: Env, fuel: nat, rec: RecordSchema, st: St): (o: Outcome)
    ensures |o.st.rest| <= |st.rest|
    decreases fuel, 3
  {
    var start := RecordOpen(rec, st);
    if start.0.Err? then Outcome(Fail(start.0.error), start.1)
    else RecordClose(rec, FieldsFrom(env, fuel, rec, 0, start.1, []))
  }

  /** Before the fields of a record: the table start marker, if it has one. */
  function RecordOpen(rec: RecordSchema, st: St): (r: (Result<(), ParseError>, St))
  {
    if rec.tableStart.Some? then Marker(st, rec.tableStart.value) else (Ok(()), st)
  }

  /** After the fields of a record that all parsed: the table end marker, if it has one. */
  function RecordClose(rec: RecordSchema, o: Outcome): (r: Outcome)
    ensures |r.st.rest| <= |o.st.rest|
  {
    if !o.res.Done? || rec.tableEnd.None? then o
    else
      var end := Marker(o.st, rec.tableEnd.value);
      Outcome(if end.0.Err? then Fail(end.0.error) else o.res, end.1)
  }

  /** The record fields from `i` on; the first failure returns at once. */
  function FieldsFrom(env: Env, fuel: nat, rec: RecordSchema, i: nat, st: St, acc: seq<Value>): (o: Outcome)
    requires i <= |rec.fields|
    ensures |o.st.rest| <= |st.rest|
    decreases fuel, 2, |rec.fields| - i
  {
    if i == |rec.fields| then Outcome(Done(RecordV(acc)), st)
    else
      var o := FieldStep(env, fuel, rec.fields[i], st);
      if o.res.Done? then FieldsFrom(env, fuel, rec, i + 1, o.st, acc + [o.res.value]) else o
  }

  /** One record field: whitespace and comments, then the code for its naming and shape. */
  function FieldStep(env: Env, fuel: nat, f: FieldSchema, st: St): (o: Outcome)
    ensures |o.st.rest| <= |st.rest|
    decreases fuel, 1, 1
  {
    FieldBody(env, fuel, f, ConsumeWhitespaceSpec(st, false).1)
  }

  /** The code for a field's naming and shape, once whitespace and comments are skipped. */
  function FieldBody(env: Env, fuel: nat, f: FieldSchema, st1: St): (o: Outcome)
    ensures |o.st.rest| <= |st1.rest|
    decreases fuel, 1, 0
  {
    match f.naming
    case Named(token) =>
      var probe := ConsumeStringSpec(st1, token);
      if f.shape.Optional? then
        if probe.0.Err? then Outcome(Done(NoneV), st1)
        else
          var o := ParseShape(env, fuel, f.shape, probe.1);
          if o.res.Done? then Outcome(Done(SomeV(o.res.value)), o.st) else o
      else if probe.0.Err? then Outcome(Fail(probe.0.error), probe.1)
      else ParseShape(env, fuel, f.shape, probe.1)
    case Unnamed =>
      var o := ParseShape(env, fuel, f.shape, st1);
      if !f.shape.Optional? then o
      else
        (match o.res
         case Done(v) => Outcome(Done(SomeV(v)), o.st)
         case Fail(_) => Outcome(Done(NoneV), o.st)
         case Stuck => o)
    case Existence(token) =>
      var probe := ConsumeStringSpec(st1, token);
      Outcome(Done(BoolV(probe.0.Ok?)), probe.1)
  }

  /** The generated `parse` of an enum. */
  function ParseEnum(env: Env, fuel: nat, en: EnumSchema, st: St): (o: Outcome)
    ensures |o.st.rest| <= |st.rest|
    decreases fuel, 3
  {
    VariantsFrom(env, fuel, en, 0, st)
  }

  function Tokens(vs: seq<VariantSchema>): (ts: seq<string>)
    ensures |ts| == |vs| && forall k :: 0 <= k < |vs| ==> ts[k] == vs[k].token
  {
    seq(|vs|, k requires 0 <= k < |vs| => vs[k].token)
  }

  /** The error when no variant token matches and there is no default variant. */
  function Exhausted(en: EnumSchema, st: St): ParseError {
    ParseError(st.line, ExhaustionMessage(Tokens(en.variants), st.rest), None, None)
  }

  /** The variants from `i` on: the default variant takes over at once, any other is probed by its token. */
  function VariantsFrom(env: Env, fuel: nat, en: EnumSchema, i: nat, st: St): (o: Outcome)
    requires i <= |en.variants|
    ensures |o.st.rest| <= |st.rest|
    decreases fuel, 2, |en.variants| - i
  {
    if i == |en.variants| then Outcome(Fail(Exhausted(en, st)), st)
    else
      var v := en.variants[i];
      if v.isDefault then VariantFieldsFrom(env, fuel, v, 0, st, [])
      else
        var probe := ConsumeStringSpec(st, v.token);
        if probe.0.Ok? then VariantFieldsFrom(env, fuel, v, 0, probe.1, [])
        else VariantsFrom(env, fuel, en, i + 1, st)
  }

  /** The fields of the chosen variant from `j` on, in order. */
  function VariantFieldsFrom(env: Env, fuel: nat, v: VariantSchema, j: nat, st: St, acc: seq<Value>): (o: Outcome)
    requires j <= |v.fields|
    ensures |o.st.rest| <= |st.rest|
    decreases fuel, 1, |v.fields| - j
  {
    if j == |v.fields| then Outcome(Done(EnumV(v.name, acc)), st)
    else
      match v.fields[j].1
      case ReadToken =>
        var n := TokenLen(st.rest);
        VariantFieldsFrom(env, fuel, v, j + 1, Advance(st, n), acc + [StrV(st.rest[..n])])
      case MaybeValue(sh) =>
        var o := ParseShape(env, fuel, sh, st);
        (match o.res
         case Done(x) => VariantFieldsFrom(env, fuel, v, j + 1, o.st, acc + [SomeV(x)])
         case Fail(_) => VariantFieldsFrom(env, fuel, v, j + 1, o.st, acc + [NoneV])
         case Stuck => o)
      case Value(sh) =>
        var o := ParseShape(env, fuel, sh, st);
        if o.res.Done? then VariantFieldsFrom(env, fuel, v, j + 1, o.st, acc + [o.res.value]) else o
  }
}
