/**
 * Properties of the generated parse code (fso_tables/fso_tables_macro/src/
 * typehandler.rs, struct.rs and enum.rs), stated over the `Dispatch`
 * functions.
 */
module DispatchProperties {
  import opened Wrappers
  import opened Text
  import opened FsoTable
  import opened BasicTypes
  import opened TypeHandler
  import opened TableSchema
  import opened Dispatch

  // ---------------------------------------------------------------------------
  // Box-likes, Vec and tuples

  /** A Box-like is read exactly as its content: same success, same failure, same consumption. */
  lemma {:induction false} BoxTransparent(env: Env, fuel: nat, inner: Shape, c: BoxLike, st: St)
    ensures var o := ParseShape(env, fuel, Container(inner, c), st);
      var i := ParseShape(env, fuel, inner, st);
      && o.st == i.st
      && (o.res.Done? <==> i.res.Done?)
      && (i.res.Done? ==> o.res.value == Boxed(c, i.res.value))
      && (!i.res.Done? ==> o.res == i.res)
  {
  }

  /** The Vec loop never fails, and what it returns starts with the elements it already had. */
  lemma {:induction false} VecLoopNeverFails(env: Env, fuel: nat, vsh: Shape, st: St, acc: seq<Value>)
    requires vsh.Vector?
    ensures var o := VecLoop(env, fuel, vsh, st, acc);
      && !o.res.Fail?
      && (o.res.Done? ==> o.res.value.ListV? && |acc| <= |o.res.value.items| && o.res.value.items[..|acc|] == acc)
    decreases |st.rest|
  {
    var o := ParseShape(env, fuel, vsh.elem, st);
    if o.res.Done? && |o.st.rest| < |st.rest| {
      VecLoopNeverFails(env, fuel, vsh, o.st, acc + [o.res.value]);
      var items := VecLoop(env, fuel, vsh, st, acc).res;
      if items.Done? {
        var xs := items.value.items;
        assert xs[..|acc| + 1][..|acc|] == xs[..|acc|];
      }
    }
  }

  /** A Vec never fails: an element failure only ends the list. */
  lemma {:induction false} VecNeverFails(env: Env, fuel: nat, e: Shape, st: St)
    ensures !ParseShape(env, fuel, Vector(e), st).res.Fail?
  {
    VecLoopNeverFails(env, fuel, Vector(e), SkipInline(st, ['(']), []);
  }

  /**
   * `Chain` is the state after reading the values `vs` one after another
   * with `e`, each read succeeding and consuming something.
   */
  function Chain(env: Env, fuel: nat, e: Shape, st: St, vs: seq<Value>): Option<St>
    decreases |vs|
  {
    if vs == [] then Some(st)
    else
      var o := ParseShape(env, fuel, e, st);
      if o.res == Done(vs[0]) && |o.st.rest| < |st.rest| then Chain(env, fuel, e, o.st, vs[1..]) else None
  }

  /**
   * The Vec loop reads elements until the first failure and returns them in
   * input order; the failed read's consumption stays, then `)`, whitespace and
   * commas are skipped.
   */
  lemma {:induction false} VecLoopElements(env: Env, fuel: nat, e: Shape, st: St, acc: seq<Value>, vs: seq<Value>, last: St)
    requires Chain(env, fuel, e, st, vs) == Some(last)
    requires ParseShape(env, fuel, e, last).res.Fail?
    ensures VecLoop(env, fuel, Vector(e), st, acc) == Outcome(Done(ListV(acc + vs)), SkipInline(ParseShape(env, fuel, e, last).st, [')']))
    decreases |vs|, 1
  {
    if vs == [] {
      VecLoopLast(env, fuel, e, st, acc);
      assert acc + vs == acc;
    } else {
      VecLoopMore(env, fuel, e, st, acc, vs, last);
    }
  }

  /** The step of VecLoopElements: the first value is kept and the loop goes on with the rest of the chain. */
  lemma {:induction false} VecLoopMore(env: Env, fuel: nat, e: Shape, st: St, acc: seq<Value>, vs: seq<Value>, last: St)
    requires vs != [] && Chain(env, fuel, e, st, vs) == Some(last)
    requires ParseShape(env, fuel, e, last).res.Fail?
    ensures VecLoop(env, fuel, Vector(e), st, acc) == Outcome(Done(ListV(acc + vs)), SkipInline(ParseShape(env, fuel, e, last).st, [')']))
    decreases |vs|, 0
  {
    var next := VecLoopAdvance(env, fuel, e, st, acc, vs, last);
    VecLoopElements(env, fuel, e, next, acc + [vs[0]], vs[1..], last);
    assert acc + [vs[0]] + vs[1..] == acc + vs;
  }

  /** Reading the first value of a chain: the loop goes on from where that read stopped, with the rest of the chain. */
  lemma {:induction false} VecLoopAdvance(env: Env, fuel: nat, e: Shape, st: St, acc: seq<Value>, vs: seq<Value>, last: St) returns (next: St)
    requires vs != [] && Chain(env, fuel, e, st, vs) == Some(last)
    ensures Chain(env, fuel, e, next, vs[1..]) == Some(last)
    ensures VecLoop(env, fuel, Vector(e), st, acc) == VecLoop(env, fuel, Vector(e), next, acc + [vs[0]])
  {
    next := ParseShape(env, fuel, e, st).st;
    ChainStep(env, fuel, e, st, vs, last);
    VecLoopStep(env, fuel, e, st, acc);
  }

  /** The first value of a chain is the first read, which consumes something. */
  lemma ChainStep(env: Env, fuel: nat, e: Shape, st: St, vs: seq<Value>, last: St)
    requires vs != [] && Chain(env, fuel, e, st, vs) == Some(last)
    ensures var o := ParseShape(env, fuel, e, st);
      o.res == Done(vs[0]) && |o.st.rest| < |st.rest| && Chain(env, fuel, e, o.st, vs[1..]) == Some(last)
  {
  }

  /** An element that succeeds and consumes something is kept and the loop goes on. */
  lemma VecLoopStep(env: Env, fuel: nat, e: Shape, st: St, acc: seq<Value>)
    requires ParseShape(env, fuel, e, st).res.Done? && |ParseShape(env, fuel, e, st).st.rest| < |st.rest|
    ensures var o := ParseShape(env, fuel, e, st);
      VecLoop(env, fuel, Vector(e), st, acc) == VecLoop(env, fuel, Vector(e), o.st, acc + [o.res.value])
  {
  }

  /** An element that fails ends the list. */
  lemma VecLoopLast(env: Env, fuel: nat, e: Shape, st: St, acc: seq<Value>)
    requires ParseShape(env, fuel, e, st).res.Fail?
    ensures VecLoop(env, fuel, Vector(e), st, acc) == Outcome(Done(ListV(acc)), SkipInline(ParseShape(env, fuel, e, st).st, [')']))
  {
  }

  /** The whole Vec: `(`, whitespace and commas first, then the elements until the first failure. */
  lemma {:induction false} VecElements(env: Env, fuel: nat, e: Shape, st: St, vs: seq<Value>, last: St)
    requires Chain(env, fuel, e, SkipInline(st, ['(']), vs) == Some(last)
    requires ParseShape(env, fuel, e, last).res.Fail?
    ensures ParseShape(env, fuel, Vector(e), st) == Outcome(Done(ListV(vs)), SkipInline(ParseShape(env, fuel, e, last).st, [')']))
  {
    VecLoopElements(env, fuel, e, SkipInline(st, ['(']), [], vs, last);
    assert [] + vs == vs;
  }

  /** Zero elements is a valid list: a first element that fails gives the empty list. */
  lemma {:induction false} VecEmpty(env: Env, fuel: nat, e: Shape, st: St)
    requires ParseShape(env, fuel, e, SkipInline(st, ['('])).res.Fail?
    ensures ParseShape(env, fuel, Vector(e), st).res == Done(ListV([]))
  {
    VecElements(env, fuel, e, st, [], SkipInline(st, ['(']));
  }

  /**
   * A list of strings never ends: a string read always succeeds, so the loop
   * runs until a read consumes nothing (at the latest at a line feed or at
   * the end of the input), where the generated loop repeats forever.
   */
  lemma {:induction false} StringListNeverEnds(env: Env, fuel: nat, ident: bool, st: St)
    ensures ParseShape(env, fuel, Vector(Direct("String", ident)), st).res == Stuck
  {
    StringLoopStuck(env, fuel, ident, SkipInline(st, ['(']), []);
  }

  lemma {:induction false} StringLoopStuck(env: Env, fuel: nat, ident: bool, st: St, acc: seq<Value>)
    ensures VecLoop(env, fuel, Vector(Direct("String", ident)), st, acc).res == Stuck
    decreases |st.rest|
  {
    var o := ParseShape(env, fuel, Direct("String", ident), st);
    assert o == ParseNamed(env, fuel, Direct("String", ident), st) == ParseScalar("String", st);
    assert o.res.Done?;
    if |o.st.rest| < |st.rest| {
      StringLoopStuck(env, fuel, ident, o.st, acc + [o.res.value]);
    }
  }

  /**
   * `ElemChain` is the state after reading the values `vs`, one per shape of
   * `es` and in that order, each read starting where the previous one stopped.
   */
  function ElemChain(env: Env, fuel: nat, es: seq<Shape>, st: St, vs: seq<Value>): Option<St>
    decreases |es|
  {
    if es == [] || vs == [] then (if es == [] && vs == [] then Some(st) else None)
    else
      var o := ParseShape(env, fuel, es[0], st);
      if o.res == Done(vs[0]) then ElemChain(env, fuel, es[1..], o.st, vs[1..]) else None
  }

  /** Elements that all read: the tuple holds their values in order, and `)` and friends are skipped after the last. */
  lemma {:induction false} TupleFromChain(env: Env, fuel: nat, tsh: Shape, i: nat, st: St, acc: seq<Value>, vs: seq<Value>, last: St)
    requires tsh.Tuple? && i <= |tsh.elems|
    requires ElemChain(env, fuel, tsh.elems[i..], st, vs) == Some(last)
    ensures TupleFrom(env, fuel, tsh, i, st, acc) == Outcome(Done(TupleV(acc + vs)), SkipInline(last, [')']))
    decreases |tsh.elems| - i
  {
    var es := tsh.elems[i..];
    if i == |tsh.elems| {
      assert es == [];
      assert vs == [] && last == st;
      assert acc + vs == acc;
    } else {
      assert es[0] == tsh.elems[i] && es[1..] == tsh.elems[i + 1..];
      var o := ParseShape(env, fuel, tsh.elems[i], st);
      assert vs != [] && o.res == Done(vs[0]);
      TupleFromChain(env, fuel, tsh, i + 1, o.st, acc + [vs[0]], vs[1..], last);
      assert acc + [vs[0]] + vs[1..] == acc + vs;
    }
  }

  /**
   * Conversely, a tuple that succeeds holds, after the values already read,
   * one value per remaining element: the value each read gives from where the
   * previous one stopped; `)` and friends are skipped after the last.
   */
  lemma {:induction false} TupleFromValues(env: Env, fuel: nat, tsh: Shape, i: nat, st: St, acc: seq<Value>)
    requires tsh.Tuple? && i <= |tsh.elems|
    ensures var o := TupleFrom(env, fuel, tsh, i, st, acc);
      o.res.Done? ==>
        && o.res.value.TupleV? && |o.res.value.elems| == |acc| + |tsh.elems| - i && o.res.value.elems[..|acc|] == acc
        && var chain := ElemChain(env, fuel, tsh.elems[i..], st, o.res.value.elems[|acc|..]);
           chain.Some? && o.st == SkipInline(chain.value, [')'])
    decreases |tsh.elems| - i
  {
    var es := tsh.elems[i..];
    var r := TupleFrom(env, fuel, tsh, i, st, acc);
    if i == |tsh.elems| {
      assert es == [];
      if r.res.Done? {
        assert r.res.value.elems[|acc|..] == [];
      }
    } else {
      var o := ParseShape(env, fuel, tsh.elems[i], st);
      if o.res.Done? {
        var acc' := acc + [o.res.value];
        TupleFromValues(env, fuel, tsh, i + 1, o.st, acc');
        assert r == TupleFrom(env, fuel, tsh, i + 1, o.st, acc');
        if r.res.Done? {
          var xs := r.res.value.elems;
          assert xs[..|acc'|][..|acc|] == xs[..|acc|];
          assert xs[|acc|] == xs[..|acc'|][|acc|] == o.res.value;
          assert xs[|acc|..][1..] == xs[|acc'|..];
          assert es[0] == tsh.elems[i] && es[1..] == tsh.elems[i + 1..];
        }
      }
    }
  }

  /** A tuple that succeeds holds one value per element, each read where the previous one stopped, then `)` is skipped. */
  lemma {:induction false} TupleValues(env: Env, fuel: nat, es: seq<Shape>, st: St)
    ensures var o := ParseShape(env, fuel, Tuple(es), st);
      o.res.Done? ==>
        && o.res.value.TupleV? && |o.res.value.elems| == |es|
        && var chain := ElemChain(env, fuel, es, SkipInline(st, ['(']), o.res.value.elems);
           chain.Some? && o.st == SkipInline(chain.value, [')'])
  {
    TupleFromValues(env, fuel, Tuple(es), 0, SkipInline(st, ['(']), []);
    assert es[0..] == es;
    var o := ParseShape(env, fuel, Tuple(es), st);
    if o.res.Done? {
      assert o.res.value.elems[0..] == o.res.value.elems;
    }
  }

  /** The whole tuple: `(` and friends, the elements in order, then `)` and friends. */
  lemma {:induction false} TupleElements(env: Env, fuel: nat, es: seq<Shape>, st: St, vs: seq<Value>, last: St)
    requires ElemChain(env, fuel, es, SkipInline(st, ['(']), vs) == Some(last)
    ensures ParseShape(env, fuel, Tuple(es), st) == Outcome(Done(TupleV(vs)), SkipInline(last, [')']))
  {
    assert es[0..] == es;
    TupleFromChain(env, fuel, Tuple(es), 0, SkipInline(st, ['(']), [], vs, last);
    assert [] + vs == vs;
  }

  /** A failing element fails the tuple where it failed: the closing `)` is not skipped. */
  lemma {:induction false} TupleElementFails(env: Env, fuel: nat, tsh: Shape, i: nat, st: St, acc: seq<Value>)
    requires tsh.Tuple? && i < |tsh.elems|
    requires ParseShape(env, fuel, tsh.elems[i], st).res.Fail?
    ensures TupleFrom(env, fuel, tsh, i, st, acc) == ParseShape(env, fuel, tsh.elems[i], st)
  {
  }

  // ---------------------------------------------------------------------------
  // Records

  /** The state after the whitespace and comments in front of a field or a marker. */
  function AfterWs(st: St): St {
    ConsumeWhitespaceSpec(st, false).1
  }

  /** A named field whose token is absent fails the record parse, unless the field is an Option. */
  lemma {:induction false} NamedFieldMissing(env: Env, fuel: nat, f: FieldSchema, st: St)
    requires f.naming.Named? && !f.shape.Optional?
    requires !StartsWith(AfterWs(st).rest, f.naming.token)
    ensures FieldStep(env, fuel, f, st).res.Fail?
    ensures FieldStep(env, fuel, f, st).res.error.line == AfterWs(st).line
  {
  }

  /** A named Option field whose token is absent is `None`, and the probe consumes nothing. */
  lemma {:induction false} OptionalFieldAbsent(env: Env, fuel: nat, f: FieldSchema, st: St)
    requires f.naming.Named? && f.shape.Optional?
    requires !StartsWith(AfterWs(st).rest, f.naming.token)
    ensures FieldStep(env, fuel, f, st) == Outcome(Done(NoneV), AfterWs(st))
  {
  }

  /** A named Option field whose token is present must then parse: its failure fails the record. */
  lemma {:induction false} OptionalFieldPresent(env: Env, fuel: nat, f: FieldSchema, st: St)
    requires f.naming.Named? && f.shape.Optional?
    requires StartsWith(AfterWs(st).rest, f.naming.token)
    ensures var after := Advance(AfterWs(st), |f.naming.token|);
      var o := ParseShape(env, fuel, f.shape, after);
      && (o.res.Done? ==> FieldStep(env, fuel, f, st) == Outcome(Done(SomeV(o.res.value)), o.st))
      && (!o.res.Done? ==> FieldStep(env, fuel, f, st) == o)
  {
  }

  /** An unnamed Option field that fails is `None`; what it consumed stays consumed. */
  lemma {:induction false} UnnamedOptionalFails(env: Env, fuel: nat, f: FieldSchema, st: St)
    requires f.naming.Unnamed? && f.shape.Optional?
    requires ParseShape(env, fuel, f.shape, AfterWs(st)).res.Fail?
    ensures FieldStep(env, fuel, f, st) == Outcome(Done(NoneV), ParseShape(env, fuel, f.shape, AfterWs(st)).st)
  {
  }

  /** An existence flag is true exactly when its token is there, and never fails. */
  lemma {:induction false} ExistenceField(env: Env, fuel: nat, f: FieldSchema, st: St)
    requires f.naming.Existence?
    ensures var o := FieldStep(env, fuel, f, st);
      var present := StartsWith(AfterWs(st).rest, f.naming.token);
      && o.res == Done(BoolV(present))
      && o.st == (if present then Advance(AfterWs(st), |f.naming.token|) else AfterWs(st))
  {
  }

  /**
   * `FieldChain` is the state after reading the values `vs`, one per field of
   * `rec` from the `i`th on, in declaration order, each field starting where
   * the previous one stopped.
   */
  function FieldChain(env: Env, fuel: nat, rec: RecordSchema, i: nat, st: St, vs: seq<Value>): Option<St>
    requires i <= |rec.fields|
    decreases |rec.fields| - i
  {
    if i == |rec.fields| || vs == [] then (if i == |rec.fields| && vs == [] then Some(st) else None)
    else
      var o := FieldStep(env, fuel, rec.fields[i], st);
      if o.res == Done(vs[0]) then FieldChain(env, fuel, rec, i + 1, o.st, vs[1..]) else None
  }

  /** Fields that all read: the record holds their values in declaration order, and the cursor is after the last. */
  lemma {:induction false} FieldsFromChain(env: Env, fuel: nat, rec: RecordSchema, i: nat, st: St, acc: seq<Value>, vs: seq<Value>, last: St)
    requires i <= |rec.fields|
    requires FieldChain(env, fuel, rec, i, st, vs) == Some(last)
    ensures FieldsFrom(env, fuel, rec, i, st, acc) == Outcome(Done(RecordV(acc + vs)), last)
    decreases |rec.fields| - i
  {
    if i == |rec.fields| {
      assert acc + vs == acc;
    } else {
      var o := FieldStep(env, fuel, rec.fields[i], st);
      FieldsFromChain(env, fuel, rec, i + 1, o.st, acc + [vs[0]], vs[1..], last);
      assert acc + [vs[0]] + vs[1..] == acc + vs;
    }
  }

  /**
   * Conversely, fields that succeed hold, after the values already read, one
   * value per remaining field: the value each field gives from where the
   * previous one stopped, the cursor ending after the last.
   */
  lemma {:induction false} FieldsFromValues(env: Env, fuel: nat, rec: RecordSchema, i: nat, st: St, acc: seq<Value>)
    requires i <= |rec.fields|
    ensures var o := FieldsFrom(env, fuel, rec, i, st, acc);
      o.res.Done? ==>
        && o.res.value.RecordV? && |o.res.value.fields| == |acc| + |rec.fields| - i && o.res.value.fields[..|acc|] == acc
        && FieldChain(env, fuel, rec, i, st, o.res.value.fields[|acc|..]) == Some(o.st)
    decreases |rec.fields| - i
  {
    var r := FieldsFrom(env, fuel, rec, i, st, acc);
    if i == |rec.fields| {
      if r.res.Done? {
        assert r.res.value.fields[|acc|..] == [];
      }
    } else {
      var o := FieldStep(env, fuel, rec.fields[i], st);
      if o.res.Done? {
        var acc' := acc + [o.res.value];
        FieldsFromValues(env, fuel, rec, i + 1, o.st, acc');
        assert r == FieldsFrom(env, fuel, rec, i + 1, o.st, acc');
        if r.res.Done? {
          FieldValuesStep(env, fuel, rec, i, st, acc, r.res.value.fields, r.st);
        }
      } else {
        assert r == o;
      }
    }
  }

  /** The step of FieldsFromValues: the values after the `i`th field's read extend to the values from the `i`th on. */
  lemma {:induction false} FieldValuesStep(env: Env, fuel: nat, rec: RecordSchema, i: nat, st: St, acc: seq<Value>, xs: seq<Value>, last: St)
    requires i < |rec.fields| && FieldStep(env, fuel, rec.fields[i], st).res.Done?
    requires var o := FieldStep(env, fuel, rec.fields[i], st);
      var acc' := acc + [o.res.value];
      |xs| == |acc'| + |rec.fields| - (i + 1) && xs[..|acc'|] == acc' && FieldChain(env, fuel, rec, i + 1, o.st, xs[|acc'|..]) == Some(last)
    ensures |xs| == |acc| + |rec.fields| - i && xs[..|acc|] == acc && FieldChain(env, fuel, rec, i, st, xs[|acc|..]) == Some(last)
  {
    var o := FieldStep(env, fuel, rec.fields[i], st);
    var acc' := acc + [o.res.value];
    assert xs[..|acc'|][..|acc|] == xs[..|acc|];
    assert xs[|acc|] == xs[..|acc'|][|acc|] == o.res.value;
    assert xs[|acc|..][1..] == xs[|acc'|..];
  }

  /** A failing field fails the record where it failed; the fields after it are not read. */
  lemma {:induction false} FieldFailureFails(env: Env, fuel: nat, rec: RecordSchema, i: nat, st: St, acc: seq<Value>)
    requires i < |rec.fields|
    requires !FieldStep(env, fuel, rec.fields[i], st).res.Done?
    ensures FieldsFrom(env, fuel, rec, i, st, acc) == FieldStep(env, fuel, rec.fields[i], st)
  {
  }

  /**
   * A record that succeeds had its start marker, holds one value per field,
   * each read where the previous one stopped, and then had its end marker.
   */
  lemma {:induction false} RecordValues(env: Env, fuel: nat, rec: RecordSchema, st: St)
    ensures var o := ParseRecord(env, fuel, rec, st);
      var start := RecordOpen(rec, st);
      o.res.Done? ==>
        && start.0.Ok? && o.res.value.RecordV? && |o.res.value.fields| == |rec.fields|
        && var chain := FieldChain(env, fuel, rec, 0, start.1, o.res.value.fields);
           && chain.Some?
           && (rec.tableEnd.None? ==> o.st == chain.value)
           && (rec.tableEnd.Some? ==> Marker(chain.value, rec.tableEnd.value).0.Ok? && o.st == Marker(chain.value, rec.tableEnd.value).1)
  {
    var start := RecordOpen(rec, st);
    if start.0.Ok? {
      FieldsFromValues(env, fuel, rec, 0, start.1, []);
      var o := FieldsFrom(env, fuel, rec, 0, start.1, []);
      assert ParseRecord(env, fuel, rec, st) == RecordClose(rec, o);
      if o.res.Done? {
        assert o.res.value.fields[0..] == o.res.value.fields;
      }
    }
  }

  /** The whole record: the start marker, the fields in declaration order, the end marker. */
  lemma {:induction false} RecordFields(env: Env, fuel: nat, rec: RecordSchema, st: St, vs: seq<Value>, last: St)
    requires RecordOpen(rec, st).0.Ok?
    requires FieldChain(env, fuel, rec, 0, RecordOpen(rec, st).1, vs) == Some(last)
    requires rec.tableEnd.Some? ==> Marker(last, rec.tableEnd.value).0.Ok?
    ensures ParseRecord(env, fuel, rec, st) == Outcome(Done(RecordV(vs)), if rec.tableEnd.Some? then Marker(last, rec.tableEnd.value).1 else last)
  {
    FieldsFromChain(env, fuel, rec, 0, RecordOpen(rec, st).1, [], vs, last);
    assert [] + vs == vs;
  }

  /** A table start marker that is not there, after whitespace and comments, fails the parse before any field. */
  lemma {:induction false} TableStartMismatch(env: Env, fuel: nat, rec: RecordSchema, st: St)
    requires rec.tableStart.Some? && !StartsWith(AfterWs(st).rest, rec.tableStart.value)
    ensures ParseRecord(env, fuel, rec, st) == Outcome(Fail(ParseError(AfterWs(st).line, MismatchReason(rec.tableStart.value, AfterWs(st).rest[..Min(|rec.tableStart.value|, |AfterWs(st).rest|)]), None, None)), AfterWs(st))
  {
    var st1 := AfterWs(st);
    var r := ConsumeStringSpec(st1, rec.tableStart.value);
    assert r.0.Err?;
  }

  /**
   * A table end marker that is not there, after whitespace and comments,
   * fails a record whose start marker and fields all parsed.
   */
  lemma {:induction false} TableEndMismatch(env: Env, fuel: nat, rec: RecordSchema, st: St)
    requires rec.tableEnd.Some? && RecordOpen(rec, st).0.Ok?
    requires FieldsFrom(env, fuel, rec, 0, RecordOpen(rec, st).1, []).res.Done?
    requires !StartsWith(AfterWs(FieldsFrom(env, fuel, rec, 0, RecordOpen(rec, st).1, []).st).rest, rec.tableEnd.value)
    ensures var e := rec.tableEnd.value;
      var st1 := AfterWs(FieldsFrom(env, fuel, rec, 0, RecordOpen(rec, st).1, []).st);
      ParseRecord(env, fuel, rec, st) == Outcome(Fail(ParseError(st1.line, MismatchReason(e, st1.rest[..Min(|e|, |st1.rest|)]), None, None)), st1)
  {
    var o := FieldsFrom(env, fuel, rec, 0, RecordOpen(rec, st).1, []);
    var r := ConsumeStringSpec(AfterWs(o.st), rec.tableEnd.value);
    assert r.0.Err?;
  }

  // ---------------------------------------------------------------------------
  // Enums

  /** No variant from `i` up to `j` is the default or matches the input. */
  predicate NoneMatch(en: EnumSchema, i: nat, j: nat, rest: string)
    requires i <= j <= |en.variants|
  {
    forall k :: i <= k < j ==> !en.variants[k].isDefault && !StartsWith(rest, en.variants[k].token)
  }

  /** Variants that are not the default and do not match are passed over without consuming anything. */
  lemma {:induction false} VariantsSkipped(env: Env, fuel: nat, en: EnumSchema, i: nat, j: nat, st: St)
    requires i <= j <= |en.variants|
    requires NoneMatch(en, i, j, st.rest)
    ensures VariantsFrom(env, fuel, en, i, st) == VariantsFrom(env, fuel, en, j, st)
    decreases j - i
  {
    if i < j {
      assert !StartsWith(st.rest, en.variants[i].token);
      VariantsSkipped(env, fuel, en, i + 1, j, st);
    }
  }

  /**
   * Variants are tried in declaration order and the first whose token starts
   * the input wins, its token consumed; a later variant with a longer token
   * never gets its turn.
   */
  lemma {:induction false} FirstMatchWins(env: Env, fuel: nat, en: EnumSchema, i: nat, st: St)
    requires i < |en.variants|
    requires NoneMatch(en, 0, i, st.rest)
    requires !en.variants[i].isDefault && StartsWith(st.rest, en.variants[i].token)
    ensures ParseEnum(env, fuel, en, st) == VariantFieldsFrom(env, fuel, en.variants[i], 0, Advance(st, |en.variants[i].token|), [])
  {
    VariantsSkipped(env, fuel, en, 0, i, st);
  }

  /** When no token matches, the default variant takes over and its field gets the next token. */
  lemma {:induction false} DefaultCaptures(env: Env, fuel: nat, en: EnumSchema, field: string, st: St)
    requires |en.variants| > 0
    requires var last := en.variants[|en.variants| - 1];
      last.isDefault && last.fields == [(field, ReadToken)]
    requires NoneMatch(en, 0, |en.variants| - 1, st.rest)
    ensures var n := TokenLen(st.rest);
      ParseEnum(env, fuel, en, st) == Outcome(Done(EnumV(en.variants[|en.variants| - 1].name, [StrV(st.rest[..n])])), Advance(st, n))
  {
    var last := en.variants[|en.variants| - 1];
    var n := TokenLen(st.rest);
    VariantsSkipped(env, fuel, en, 0, |en.variants| - 1, st);
    assert VariantsFrom(env, fuel, en, |en.variants| - 1, st) == VariantFieldsFrom(env, fuel, last, 0, st, []);
    assert [] + [StrV(st.rest[..n])] == [StrV(st.rest[..n])];
    assert VariantFieldsFrom(env, fuel, last, 0, st, []) == VariantFieldsFrom(env, fuel, last, 1, Advance(st, n), [StrV(st.rest[..n])]);
  }

  /**
   * Without a match and without a default variant the parse fails at the
   * current line, consuming nothing, with a message that lists every token in
   * order and then at most 20 chars of the input.
   */
  lemma {:induction false} ExhaustionFails(env: Env, fuel: nat, en: EnumSchema, st: St)
    requires NoneMatch(en, 0, |en.variants|, st.rest)
    ensures ParseEnum(env, fuel, en, st) == Outcome(Fail(Exhausted(en, st)), st)
    ensures Exhausted(en, st).line == st.line
    ensures Exhausted(en, st).reason == "Expected one of " + TokenList(Tokens(en.variants)) + "got " + st.rest[..Min(20, |st.rest|)] + "."
  {
    VariantsSkipped(env, fuel, en, 0, |en.variants|, st);
    ExhaustionMessageShape(Tokens(en.variants), st.rest);
  }

  /** After a token match a failing non-Option field fails the enum; no later variant is tried. */
  lemma {:induction false} VariantFieldFails(env: Env, fuel: nat, v: VariantSchema, j: nat, st: St, acc: seq<Value>)
    requires j < |v.fields| && v.fields[j].1.Value?
    requires ParseShape(env, fuel, v.fields[j].1.shape, st).res.Fail?
    ensures VariantFieldsFrom(env, fuel, v, j, st, acc) == ParseShape(env, fuel, v.fields[j].1.shape, st)
  {
  }

  /** After a token match a failing Option field is `None`, and the next field is read where it stopped. */
  lemma {:induction false} VariantOptionalFails(env: Env, fuel: nat, v: VariantSchema, j: nat, st: St, acc: seq<Value>)
    requires j < |v.fields| && v.fields[j].1.MaybeValue?
    requires ParseShape(env, fuel, v.fields[j].1.shape, st).res.Fail?
    ensures VariantFieldsFrom(env, fuel, v, j, st, acc) == VariantFieldsFrom(env, fuel, v, j + 1, ParseShape(env, fuel, v.fields[j].1.shape, st).st, acc + [NoneV])
  {
  }
}
