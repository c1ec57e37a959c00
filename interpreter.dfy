/**
 * The generated parse code run on the cursor: methods over `TableParser`
 * that consume the input step by step, as the code the `fso_table` derive
 * emits does (fso_tables/fso_tables_macro/src/typehandler.rs, struct.rs,
 * enum.rs), each proved to move the cursor and return exactly what the
 * corresponding `Dispatch` function says.
 */
module Interpreter {
  import opened Wrappers
  import opened Text
  import opened FsoTable
  import opened BasicTypes
  import opened TypeHandler
  import opened TableSchema
  import opened Dispatch

  /** The `FSOTable::parse` of a scalar type. */
  method ParseScalarOn(p: TableParser, name: string) returns (r: Res)
    requires p.Valid() && IsScalar(name)
    modifies p
    ensures p.Valid()
    ensures Outcome(r, p.State()) == ParseScalar(name, old(p.State()))
  {
    if name == "String" {
      var s := ParseString(p);
      r := Done(StrV(s.value));
    } else if name == "bool" {
      var b := ParseBool(p);
      r := if b.Ok? then Done(BoolV(b.value)) else Fail(b.error);
    } else {
      var n := ParseNumber(p, NumKindOf(name));
      r := if n.Ok? then Done(NumV(n.value)) else Fail(n.error);
    }
  }

  /** The code for a value of shape `sh`. */
  method ParseShapeOn(p: TableParser, env: Env, fuel: nat, sh: Shape) returns (r: Res)
    requires p.Valid()
    modifies p
    ensures p.Valid()
    ensures Outcome(r, p.State()) == ParseShape(env, fuel, sh, old(p.State()))
    decreases fuel, 0, sh, 2
  {
    match sh {
      case Direct(_, _) =>
        r := ParseNamedOn(p, env, fuel, sh);
      case Generic(_, _) =>
        r := ParseNamedOn(p, env, fuel, sh);
      case Vector(_) =>
        r := ParseVecOn(p, env, fuel, sh);
      case Optional(inner) =>
        r := ParseShapeOn(p, env, fuel, inner);
      case Container(inner, c) =>
        r := ParseShapeOn(p, env, fuel, inner);
        if r.Done? {
          r := Done(Boxed(c, r.value));
        }
      case Tuple(_) =>
        r := ParseTupleOn(p, env, fuel, sh);
    }
  }

  /** A field type named by the user: a scalar codec, or the `parse` of the table it names. */
  method ParseNamedOn(p: TableParser, env: Env, fuel: nat, sh: Shape) returns (r: Res)
    requires p.Valid() && (sh.Direct? || sh.Generic?)
    modifies p
    ensures p.Valid()
    ensures Outcome(r, p.State()) == ParseNamed(env, fuel, sh, old(p.State()))
    decreases fuel, 0, sh, 1
  {
    if sh.Direct? && IsScalar(sh.name) {
      r := ParseScalarOn(p, sh.name);
    } else if sh.name in env && fuel > 0 {
      r := ParseTableOn(p, env, fuel - 1, env[sh.name]);
    } else {
      r := Stuck;
    }
  }

  /**
   * The emitted Vec code: skip `(`, then push elements while they parse,
   * then skip `)`. An element that succeeds without consuming anything would
   * be read again forever; the method stops there with `Stuck`.
   */
  method ParseVecOn(p: TableParser, env: Env, fuel: nat, vsh: Shape) returns (r: Res)
    requires p.Valid() && vsh.Vector?
    modifies p
    ensures p.Valid()
    ensures Outcome(r, p.State()) == ParseShape(env, fuel, vsh, old(p.State()))
    decreases fuel, 0, vsh, 1
  {
    p.ConsumeWhitespaceInline(['(']);
    var items: seq<Value> := [];
    while true
      invariant p.Valid()
      invariant ParseShape(env, fuel, vsh, old(p.State())) == VecLoop(env, fuel, vsh, p.State(), items)
      decreases |p.original| - p.pos
    {
      var stop;
      r, items, stop := ParseElementOn(p, env, fuel, vsh, items);
      if stop {
        return;
      }
    }
  }

  /**
   * One round of the Vec loop: an element that parses and consumes something
   * is pushed; a failure ends the list, skipping `)` and friends.
   */
  method ParseElementOn(p: TableParser, env: Env, fuel: nat, vsh: Shape, items: seq<Value>)
    returns (r: Res, next: seq<Value>, stop: bool)
    requires p.Valid() && vsh.Vector?
    modifies p
    ensures p.Valid()
    ensures stop ==> Outcome(r, p.State()) == VecLoop(env, fuel, vsh, old(p.State()), items)
    ensures !stop ==> VecLoop(env, fuel, vsh, old(p.State()), items) == VecLoop(env, fuel, vsh, p.State(), next)
    ensures !stop ==> old(p.pos) < p.pos
    decreases fuel, 0, vsh, 0
  {
    var before := p.pos;
    var element := ParseShapeOn(p, env, fuel, vsh.elem);
    r, next, stop := element, items, true;
    match element {
      case Done(v) =>
        if p.pos <= before {
          r := Stuck;
        } else {
          next, stop := items + [v], false;
        }
      case Fail(_) =>
        p.ConsumeWhitespaceInline([')']);
        r := Done(ListV(items));
      case Stuck =>
    }
  }

  /** The emitted tuple code: skip `(`, the elements in order with `?`, then skip `)`. */
  method ParseTupleOn(p: TableParser, env: Env, fuel: nat, tsh: Shape) returns (r: Res)
    requires p.Valid() && tsh.Tuple?
    modifies p
    ensures p.Valid()
    ensures Outcome(r, p.State()) == ParseShape(env, fuel, tsh, old(p.State()))
    decreases fuel, 0, tsh, 1
  {
    p.ConsumeWhitespaceInline(['(']);
    var values: seq<Value> := [];
    var i := 0;
    while i < |tsh.elems|
      invariant p.Valid() && i <= |tsh.elems|
      invariant ParseShape(env, fuel, tsh, old(p.State())) == TupleFrom(env, fuel, tsh, i, p.State(), values)
      decreases |tsh.elems| - i
    {
      var stop;
      r, values, stop := ParseTupleElementOn(p, env, fuel, tsh, i, values);
      if stop {
        return;
      }
      i := i + 1;
    }
    p.ConsumeWhitespaceInline([')']);
    r := Done(TupleV(values));
  }

  /** One tuple element with `?`: its value is kept, or its failure is returned. */
  method ParseTupleElementOn(p: TableParser, env: Env, fuel: nat, tsh: Shape, i: nat, values: seq<Value>)
    returns (r: Res, next: seq<Value>, stop: bool)
    requires p.Valid() && tsh.Tuple? && i < |tsh.elems|
    modifies p
    ensures p.Valid()
    ensures stop ==> Outcome(r, p.State()) == TupleFrom(env, fuel, tsh, i, old(p.State()), values)
    ensures !stop ==> TupleFrom(env, fuel, tsh, i, old(p.State()), values) == TupleFrom(env, fuel, tsh, i + 1, p.State(), next)
    decreases fuel, 0, tsh, 0
  {
    r := ParseShapeOn(p, env, fuel, tsh.elems[i]);
    stop := !r.Done?;
    next := if r.Done? then values + [r.value] else values;
  }

  method ParseTableOn(p: TableParser, env: Env, fuel: nat, t: Table) returns (r: Res)
    requires p.Valid()
    modifies p
    ensures p.Valid()
    ensures Outcome(r, p.State()) == ParseTable(env, fuel, t, old(p.State()))
    decreases fuel, 4
  {
    match t {
      case RecordTable(rec) => r := ParseRecordOn(p, env, fuel, rec);
      case EnumTable(en) => r := ParseEnumOn(p, env, fuel, en);
    }
  }

  /** `let (_, _) = state.consume_whitespace(false); state.consume_string(marker)?;` */
  method MarkerOn(p: TableParser, marker: string) returns (r: Result<(), ParseError>)
    requires p.Valid()
    modifies p
    ensures p.Valid()
    ensures (r, p.State()) == Marker(old(p.State()), marker)
  {
    var _, _ := p.ConsumeWhitespace(false);
    r := p.ConsumeString(marker);
  }

  /** The generated `parse` of a record. */
  method ParseRecordOn(p: TableParser, env: Env, fuel: nat, rec: RecordSchema) returns (r: Res)
    requires p.Valid()
    modifies p
    ensures p.Valid()
    ensures Outcome(r, p.State()) == ParseRecord(env, fuel, rec, old(p.State()))
    decreases fuel, 3
  {
    if rec.tableStart.Some? {
      var start := MarkerOn(p, rec.tableStart.value);
      if start.Err? {
        r := Fail(start.error);
        return;
      }
    }
    r := ParseFieldsOn(p, env, fuel, rec);
    r := CloseRecordOn(p, rec, r);
  }

  /** `state.consume_string(table_end)` after the fields, when they all parsed. */
  method CloseRecordOn(p: TableParser, rec: RecordSchema, fields: Res) returns (r: Res)
    requires p.Valid()
    modifies p
    ensures p.Valid()
    ensures Outcome(r, p.State()) == RecordClose(rec, Outcome(fields, old(p.State())))
  {
    r := fields;
    if fields.Done? && rec.tableEnd.Some? {
      var end := MarkerOn(p, rec.tableEnd.value);
      if end.Err? {
        r := Fail(end.error);
      }
    }
  }

  /** The field blocks in declaration order; the first failure returns. */
  method ParseFieldsOn(p: TableParser, env: Env, fuel: nat, rec: RecordSchema) returns (r: Res)
    requires p.Valid()
    modifies p
    ensures p.Valid()
    ensures Outcome(r, p.State()) == FieldsFrom(env, fuel, rec, 0, old(p.State()), [])
    decreases fuel, 2
  {
    var values: seq<Value> := [];
    var i := 0;
    while i < |rec.fields|
      invariant p.Valid() && i <= |rec.fields|
      invariant FieldsFrom(env, fuel, rec, 0, old(p.State()), []) == FieldsFrom(env, fuel, rec, i, p.State(), values)
      decreases |rec.fields| - i
    {
      var stop;
      r, values, stop := NextFieldOn(p, env, fuel, rec, i, values);
      if stop {
        return;
      }
      i := i + 1;
    }
    r := Done(RecordV(values));
  }

  /** One field block of the record: its value is kept, or its failure is returned. */
  method NextFieldOn(p: TableParser, env: Env, fuel: nat, rec: RecordSchema, i: nat, values: seq<Value>)
    returns (r: Res, next: seq<Value>, stop: bool)
    requires p.Valid() && i < |rec.fields|
    modifies p
    ensures p.Valid()
    ensures stop ==> Outcome(r, p.State()) == FieldsFrom(env, fuel, rec, i, old(p.State()), values)
    ensures !stop ==> FieldsFrom(env, fuel, rec, i, old(p.State()), values) == FieldsFrom(env, fuel, rec, i + 1, p.State(), next)
    decreases fuel, 1, 2
  {
    r := ParseFieldOn(p, env, fuel, rec.fields[i]);
    stop := !r.Done?;
    next := if r.Done? then values + [r.value] else values;
  }

  /** One field block: `consume_whitespace(false)`, then the code for the field's naming and shape. */
  method ParseFieldOn(p: TableParser, env: Env, fuel: nat, f: FieldSchema) returns (r: Res)
    requires p.Valid()
    modifies p
    ensures p.Valid()
    ensures Outcome(r, p.State()) == FieldStep(env, fuel, f, old(p.State()))
    decreases fuel, 1, 1
  {
    var _, _ := p.ConsumeWhitespace(false);
    r := FieldBodyOn(p, env, fuel, f);
  }

  /** The code emitted for one field after `consume_whitespace(false)`, by its naming and shape. */
  method FieldBodyOn(p: TableParser, env: Env, fuel: nat, f: FieldSchema) returns (r: Res)
    requires p.Valid()
    modifies p
    ensures p.Valid()
    ensures Outcome(r, p.State()) == FieldBody(env, fuel, f, old(p.State()))
    decreases fuel, 1, 0
  {
    match f.naming {
      case Named(token) =>
        var probe := p.ConsumeString(token);
        if f.shape.Optional? {
          if probe.Err? {
            r := Done(NoneV);
          } else {
            r := ParseShapeOn(p, env, fuel, f.shape);
            if r.Done? {
              r := Done(SomeV(r.value));
            }
          }
        } else if probe.Err? {
          r := Fail(probe.error);
        } else {
          r := ParseShapeOn(p, env, fuel, f.shape);
        }
      case Unnamed =>
        r := ParseShapeOn(p, env, fuel, f.shape);
        if f.shape.Optional? {
          match r {
            case Done(v) => r := Done(SomeV(v));
            case Fail(_) => r := Done(NoneV);
            case Stuck =>
          }
        }
      case Existence(token) =>
        var probe := p.ConsumeString(token);
        r := Done(BoolV(probe.Ok?));
    }
  }

  /** The generated `parse` of an enum: the variant probes in order, then the exhaustion error. */
  method ParseEnumOn(p: TableParser, env: Env, fuel: nat, en: EnumSchema) returns (r: Res)
    requires p.Valid()
    modifies p
    ensures p.Valid()
    ensures Outcome(r, p.State()) == ParseEnum(env, fuel, en, old(p.State()))
    decreases fuel, 3, 1
  {
    var i := 0;
    while i < |en.variants|
      invariant p.Valid() && i <= |en.variants|
      invariant p.State() == old(p.State())
      invariant ParseEnum(env, fuel, en, old(p.State())) == VariantsFrom(env, fuel, en, i, p.State())
      decreases |en.variants| - i
    {
      var chosen;
      r, chosen := TryVariantOn(p, env, fuel, en, i);
      if chosen {
        return;
      }
      i := i + 1;
    }
    r := Fail(Exhausted(en, p.State()));
  }

  /** One arm of the emitted chain: the default variant, or a variant whose token is next, is read; any other is passed over. */
  method TryVariantOn(p: TableParser, env: Env, fuel: nat, en: EnumSchema, i: nat) returns (r: Res, chosen: bool)
    requires p.Valid() && i < |en.variants|
    modifies p
    ensures p.Valid()
    ensures chosen ==> Outcome(r, p.State()) == VariantsFrom(env, fuel, en, i, old(p.State()))
    ensures !chosen ==> p.State() == old(p.State())
    ensures !chosen ==> VariantsFrom(env, fuel, en, i, old(p.State())) == VariantsFrom(env, fuel, en, i + 1, old(p.State()))
    decreases fuel, 3, 0
  {
    var v := en.variants[i];
    r, chosen := Stuck, true;
    if v.isDefault {
      r := ParseVariantFieldsOn(p, env, fuel, v);
      return;
    }
    var probe := p.ConsumeString(v.token);
    if probe.Ok? {
      r := ParseVariantFieldsOn(p, env, fuel, v);
      return;
    }
    chosen := false;
  }

  /** The field initialisers of the chosen variant, in order. */
  method ParseVariantFieldsOn(p: TableParser, env: Env, fuel: nat, v: VariantSchema) returns (r: Res)
    requires p.Valid()
    modifies p
    ensures p.Valid()
    ensures Outcome(r, p.State()) == VariantFieldsFrom(env, fuel, v, 0, old(p.State()), [])
    decreases fuel, 2
  {
    var values: seq<Value> := [];
    var j := 0;
    while j < |v.fields|
      invariant p.Valid() && j <= |v.fields|
      invariant VariantFieldsFrom(env, fuel, v, 0, old(p.State()), []) == VariantFieldsFrom(env, fuel, v, j, p.State(), values)
      decreases |v.fields| - j
    {
      var stop;
      r, values, stop := ParseVariantFieldOn(p, env, fuel, v, j, values);
      if stop {
        return;
      }
      j := j + 1;
    }
    r := Done(EnumV(v.name, values));
  }

  /**
   * One field initialiser: the next token for the default variant, the value
   * or `None` for an Option field, the value or the returned failure for any
   * other field.
   */
  method ParseVariantFieldOn(p: TableParser, env: Env, fuel: nat, v: VariantSchema, j: nat, values: seq<Value>)
    returns (r: Res, next: seq<Value>, stop: bool)
    requires p.Valid() && j < |v.fields|
    modifies p
    ensures p.Valid()
    ensures stop ==> Outcome(r, p.State()) == VariantFieldsFrom(env, fuel, v, j, old(p.State()), values)
    ensures !stop ==> VariantFieldsFrom(env, fuel, v, j, old(p.State()), values) == VariantFieldsFrom(env, fuel, v, j + 1, p.State(), next)
    decreases fuel, 1
  {
    r, stop := Stuck, false;
    match v.fields[j].1 {
      case ReadToken =>
        var token := p.ReadUntilWhitespace();
        next := values + [StrV(token)];
      case MaybeValue(sh) =>
        var x := ParseShapeOn(p, env, fuel, sh);
        match x {
          case Done(value) => next := values + [SomeV(value)];
          case Fail(_) => next := values + [NoneV];
          case Stuck => next, stop := values, true;
        }
      case Value(sh) =>
        r := ParseShapeOn(p, env, fuel, sh);
        if r.Done? {
          next := values + [r.value];
        } else {
          next, stop := values, true;
        }
    }
  }
}
