/**
 * What the `fso_table` derive decides at compile time
 * (fso_tables/fso_tables_macro/src/struct.rs and enum.rs): the token each
 * record field is announced by, how each field and each enum variant is
 * read, and the declarations it refuses.
 */
module TableSchema {
  import opened Wrappers
  import opened Text
  import opened TypeHandler

  // ---------------------------------------------------------------------------
  // Records

  /** A named struct field with the attributes the derive reads. */
  datatype FieldDecl = FieldDecl(
    name: string,
    ty: RustType,
    /** `#[fso_name = "..."]` */
    fsoName: Option<string>,
    /** `#[skip]` */
    skip: bool,
    /** `#[unnamed]` */
    unnamed: bool,
    /** `#[existence]` */
    existence: bool)

  /** `FSONaming`: how the field is announced in the table. */
  datatype Naming = Named(token: string) | Unnamed | Existence(token: string)

  /** A field as the generated parse reads it. */
  datatype FieldSchema = FieldSchema(name: string, naming: Naming, shape: Shape)

  /** A record table: its fields in order and its optional start and end markers. */
  datatype RecordSchema = RecordSchema(fields: seq<FieldSchema>, tableStart: Option<string>, tableEnd: Option<string>)

  /** The token of a field without `fso_name`: `$`, the name with its first char upper-cased, `:`. */
  function DefaultToken(name: string): (tok: string)
    requires |name| > 0
    ensures |tok| == |name| + 2 && tok[0] == '$' && tok[|tok| - 1] == ':'
    ensures tok[1] == ToUpperChar(name[0]) && !('a' <= tok[1] <= 'z')
    ensures tok[2..|tok| - 1] == name[1..] && (LowerStart(name) ==> ToLowerChar(tok[1]) == name[0])
  {
    "$" + [ToUpperChar(name[0])] + name[1..] + ":"
  }

  /** The field name a default token was made from, for names that start with a lower-case char. */
  function FieldNameOf(token: string): string
    requires |token| >= 3
  {
    [ToLowerChar(token[1])] + token[2..|token| - 1]
  }

  /** A name with a lower-case first letter, or a first char that has no case, as Rust field names do. */
  predicate LowerStart(name: string) {
    |name| > 0 && !('A' <= name[0] <= 'Z')
  }

  /** The default token is framed by `$` and `:`, starts the name in upper case, and gives back the field name. */
  lemma {:induction false} DefaultTokenRoundTrip(name: string)
    requires LowerStart(name)
    ensures var tok := DefaultToken(name);
      && |tok| == |name| + 2 && tok[0] == '$' && tok[|tok| - 1] == ':'
      && tok[1] == ToUpperChar(name[0]) && ('a' <= name[0] <= 'z' ==> 'A' <= tok[1] <= 'Z')
      && FieldNameOf(tok) == name
  {
    var tok := DefaultToken(name);
    assert tok[2..|tok| - 1] == name[1..];
    assert [name[0]] + name[1..] == name;
  }

  /** Two fields whose names start in lower case get the same default token only if they have the same name. */
  lemma {:induction false} DefaultTokenInjective(a: string, b: string)
    requires LowerStart(a) && LowerStart(b)
    requires DefaultToken(a) == DefaultToken(b)
    ensures a == b
  {
    DefaultTokenRoundTrip(a);
    DefaultTokenRoundTrip(b);
  }

  /** How a field is announced: `#[unnamed]` wins over `#[existence]`, and `fso_name` replaces the default token. */
  function FieldNaming(f: FieldDecl): (n: Naming)
    requires |f.name| > 0
    ensures n.Unnamed? <==> f.unnamed
    ensures n.Existence? <==> !f.unnamed && f.existence
    ensures !n.Unnamed? ==> n.token == (if f.fsoName.Some? then f.fsoName.value else DefaultToken(f.name))
  {
    if f.unnamed then Unnamed
    else
      var token := f.fsoName.GetOr(DefaultToken(f.name));
      if f.existence then Existence(token) else Named(token)
  }

  const ExistenceNotBool := "Only variables of type bool can be existence-bool'd!"

  /** One field of `fso_struct_build_parse`: its type is deduced first, then an existence flag must be a plain `bool`. */
  function CompileField(f: FieldDecl): (r: Result<FieldSchema, string>)
    requires |f.name| > 0
    ensures r.Ok? <==> DeduceType(f.ty).Ok? && (FieldNaming(f).Existence? ==> DeduceType(f.ty).value == Direct("bool", true))
    ensures r.Ok? ==> r.value == FieldSchema(f.name, FieldNaming(f), DeduceType(f.ty).value)
    ensures DeduceType(f.ty).Err? ==> r == Err(DeduceType(f.ty).error)
    ensures DeduceType(f.ty).Ok? && FieldNaming(f).Existence? && f.ty != PathType("bool", Plain(true)) ==> r == Err(ExistenceNotBool)
  {
    match DeduceType(f.ty)
    case Err(e) => Err(e)
    case Ok(shape) =>
      var naming := FieldNaming(f);
      if naming.Existence? && shape != Direct("bool", true) then Err(ExistenceNotBool)
      else Ok(FieldSchema(f.name, naming, shape))
  }

  /** Rust field names are never empty. */
  predicate NamedFields(fields: seq<FieldDecl>) {
    forall k :: 0 <= k < |fields| ==> |fields[k].name| > 0
  }

  /** The fields `fso_table_struct` hands on, in order: `#[skip]` drops a field. */
  function Unskipped(fields: seq<FieldDecl>): (r: seq<FieldDecl>)
    ensures |r| <= |fields|
    ensures forall k :: 0 <= k < |r| ==> r[k] in fields && !r[k].skip
    ensures NamedFields(fields) ==> NamedFields(r)
  {
    if fields == [] then []
    else if fields[0].skip then Unskipped(fields[1..])
    else [fields[0]] + Unskipped(fields[1..])
  }

  /** `fso_struct_build_parse`: the fields in order, or the error of the first field that is refused. */
  function CompileFields(fields: seq<FieldDecl>): (r: Result<seq<FieldSchema>, string>)
    requires NamedFields(fields)
    ensures r.Ok? <==> forall k :: 0 <= k < |fields| ==> CompileField(fields[k]).Ok?
    ensures r.Ok? ==> |r.value| == |fields| && forall k :: 0 <= k < |fields| ==> r.value[k] == CompileField(fields[k]).value
  {
    if fields == [] then Ok([])
    else
      assert forall k :: 0 < k < |fields| ==> fields[k] == fields[1..][k - 1];
      match CompileField(fields[0])
      case Err(e) => Err(e)
      case Ok(f) =>
        match CompileFields(fields[1..])
        case Err(e) => Err(e)
        case Ok(rest) => Ok([f] + rest)
  }

  /** `fso_table_struct` on a struct with named fields: the unskipped fields, then the markers. */
  function CompileStruct(fields: seq<FieldDecl>, tableStart: Option<string>, tableEnd: Option<string>): (r: Result<RecordSchema, string>)
    requires NamedFields(fields)
    ensures r.Ok? <==> CompileFields(Unskipped(fields)).Ok?
    ensures r.Ok? ==> r.value.fields == CompileFields(Unskipped(fields)).value && r.value.tableStart == tableStart && r.value.tableEnd == tableEnd
  {
    match CompileFields(Unskipped(fields))
    case Err(e) => Err(e)
    case Ok(fs) => Ok(RecordSchema(fs, tableStart, tableEnd))
  }

  /** A compiled record holds the unskipped fields in order, every shape allowed and every existence flag a plain `bool`. */
  lemma {:induction false} CompiledRecordFields(fields: seq<FieldDecl>, tableStart: Option<string>, tableEnd: Option<string>)
    requires NamedFields(fields)
    requires CompileStruct(fields, tableStart, tableEnd).Ok?
    ensures var rec := CompileStruct(fields, tableStart, tableEnd).value;
      && |rec.fields| == |Unskipped(fields)|
      && (forall k :: 0 <= k < |rec.fields| ==> rec.fields[k].name == Unskipped(fields)[k].name && !Unskipped(fields)[k].skip)
      && (forall k :: 0 <= k < |rec.fields| && rec.fields[k].naming.Existence? ==> rec.fields[k].shape == Direct("bool", true))
      && (forall k :: 0 <= k < |rec.fields| ==> Deducible(rec.fields[k].shape))
  {
    var u := Unskipped(fields);
    var rec := CompileStruct(fields, tableStart, tableEnd).value;
    forall k | 0 <= k < |rec.fields|
      ensures rec.fields[k].name == u[k].name
      ensures rec.fields[k].naming.Existence? ==> rec.fields[k].shape == Direct("bool", true)
      ensures Deducible(rec.fields[k].shape)
    {
      assert rec.fields[k] == CompileField(u[k]).value;
    }
  }

  // ---------------------------------------------------------------------------
  // Enums

  /** A field of an enum variant; tuple variants have unnamed fields. */
  datatype VariantField = VariantField(name: Option<string>, ty: RustType)

  /** An enum variant; `defaultString` is `#[use_as_default_string]`. */
  datatype VariantDecl = VariantDecl(name: string, fields: seq<VariantField>, defaultString: bool)

  /** An enum table with the `prefix` and `suffix` of its variant tokens. */
  datatype EnumDecl = EnumDecl(variants: seq<VariantDecl>, prefix: string, suffix: string)

  /** How one variant field is read. */
  datatype FieldParse =
    /** The default variant's field: the next token, whatever it is. */
    | ReadToken
    /** An `Option` field: the inner value, `None` when it fails. */
    | MaybeValue(shape: Shape)
    /** Any other field: its value, the failure of which fails the enum. */
    | Value(shape: Shape)

  datatype VariantSchema = VariantSchema(name: string, token: string, fields: seq<(string, FieldParse)>, isDefault: bool)

  datatype EnumSchema = EnumSchema(variants: seq<VariantSchema>)

  const DefaultNotLast := "Only the last variant of an enum can be used as a default case."
  const DefaultArity := "An enum default case must have exactly one field of the type String."
  const UnnamedVariantField := "FSO table enums cannot have unnamed fields."

  /** A variant's token. */
  function VariantToken(d: EnumDecl, v: VariantDecl): (t: string)
    ensures |t| == |d.prefix| + |v.name| + |d.suffix|
    ensures t[..|d.prefix|] == d.prefix && t[|d.prefix|..|t| - |d.suffix|] == v.name && t[|t| - |d.suffix|..] == d.suffix
  {
    d.prefix + v.name + d.suffix
  }

  /** `fso_enum_build_parse`, field by field: a field must be named; its type is deduced unless the variant is the default. */
  function CompileVariantFields(fields: seq<VariantField>, isDefault: bool): (r: Result<seq<(string, FieldParse)>, string>)
    ensures r.Ok? <==> forall k :: 0 <= k < |fields| ==> fields[k].name.Some? && (isDefault || DeduceType(fields[k].ty).Ok?)
    ensures r.Ok? ==> |r.value| == |fields|
    ensures r.Ok? ==> forall k :: 0 <= k < |fields| ==> r.value[k].0 == fields[k].name.value
    ensures r.Ok? && isDefault ==> forall k :: 0 <= k < |fields| ==> r.value[k].1 == ReadToken
    ensures r.Ok? && !isDefault ==> forall k :: 0 <= k < |fields| ==>
      var sh := DeduceType(fields[k].ty).value;
      r.value[k].1 == if sh.Optional? then MaybeValue(sh) else Value(sh)
  {
    if fields == [] then Ok([])
    else
      var f := fields[0];
      if f.name.None? then Err(UnnamedVariantField)
      else
        var first: Result<FieldParse, string> :=
          if isDefault then Ok(ReadToken)
          else
            match DeduceType(f.ty)
            case Err(e) => Err(e)
            case Ok(sh) => Ok(if sh.Optional? then MaybeValue(sh) else Value(sh));
        match first
        case Err(e) => Err(e)
        case Ok(fp) =>
          match CompileVariantFields(fields[1..], isDefault)
          case Err(e) => Err(e)
          case Ok(rest) => Ok([(f.name.value, fp)] + rest)
  }

  /** The checks on `#[use_as_default_string]` for the variant at `index`. */
  function DefaultCheck(d: EnumDecl, index: nat): (r: Result<bool, string>)
    requires index < |d.variants|
    ensures r.Ok? ==> r.value == d.variants[index].defaultString
    ensures r.Ok? <==> !d.variants[index].defaultString || (index == |d.variants| - 1 && |d.variants[index].fields| == 1)
  {
    var v := d.variants[index];
    if !v.defaultString then Ok(false)
    else if index != |d.variants| - 1 then Err(DefaultNotLast)
    else if |v.fields| != 1 then Err(DefaultArity)
    else Ok(true)
  }

  /** One variant: the default checks first, then its fields. */
  function CompileVariant(d: EnumDecl, index: nat): (r: Result<VariantSchema, string>)
    requires index < |d.variants|
    ensures var v := d.variants[index];
      r.Ok? <==> DefaultCheck(d, index).Ok? && forall k :: 0 <= k < |v.fields| ==> v.fields[k].name.Some? && (v.defaultString || DeduceType(v.fields[k].ty).Ok?)
    ensures var v := d.variants[index];
      r.Ok? ==> r.value.name == v.name && r.value.token == VariantToken(d, v) && r.value.isDefault == v.defaultString && |r.value.fields| == |v.fields|
    ensures DefaultCheck(d, index).Err? ==> r == Err(DefaultCheck(d, index).error)
  {
    var v := d.variants[index];
    match DefaultCheck(d, index)
    case Err(e) => Err(e)
    case Ok(isDefault) =>
      match CompileVariantFields(v.fields, isDefault)
      case Err(e) => Err(e)
      case Ok(fs) => Ok(VariantSchema(v.name, VariantToken(d, v), fs, isDefault))
  }

  /** The variants from `index` on, in declaration order; the first refused one decides the error. */
  function CompileVariantsFrom(d: EnumDecl, index: nat): (r: Result<seq<VariantSchema>, string>)
    requires index <= |d.variants|
    ensures r.Ok? <==> forall k :: index <= k < |d.variants| ==> CompileVariant(d, k).Ok?
    ensures r.Ok? ==> |r.value| == |d.variants| - index
    ensures r.Ok? ==> forall k :: index <= k < |d.variants| ==> r.value[k - index] == CompileVariant(d, k).value
    decreases |d.variants| - index
  {
    if index == |d.variants| then Ok([])
    else
      match CompileVariant(d, index)
      case Err(e) => Err(e)
      case Ok(v) =>
        match CompileVariantsFrom(d, index + 1)
        case Err(e) => Err(e)
        case Ok(rest) => Ok([v] + rest)
  }

  /** `fso_table_enum`. */
  function CompileEnum(d: EnumDecl): (r: Result<EnumSchema, string>)
    ensures r.Ok? <==> forall k :: 0 <= k < |d.variants| ==> CompileVariant(d, k).Ok?
    ensures r.Ok? ==> |r.value.variants| == |d.variants|
    ensures r.Ok? ==> forall k :: 0 <= k < |d.variants| ==> r.value.variants[k] == CompileVariant(d, k).value
  {
    match CompileVariantsFrom(d, 0)
    case Err(e) => Err(e)
    case Ok(vs) => Ok(EnumSchema(vs))
  }

  /**
   * In a compiled enum every variant is announced by `prefix + name + suffix`,
   * only the last variant can be the default, and the default has exactly one
   * field, read as a token.
   */
  lemma {:induction false} CompiledEnumShape(d: EnumDecl)
    requires CompileEnum(d).Ok?
    ensures var vs := CompileEnum(d).value.variants;
      forall k :: 0 <= k < |vs| ==>
        && vs[k].token == d.prefix + d.variants[k].name + d.suffix
        && vs[k].isDefault == d.variants[k].defaultString
        && (vs[k].isDefault ==> k == |vs| - 1 && |vs[k].fields| == 1 && vs[k].fields[0].1 == ReadToken)
        && (!vs[k].isDefault ==> forall j :: 0 <= j < |vs[k].fields| ==> !vs[k].fields[j].1.ReadToken?)
  {
    var vs := CompileEnum(d).value.variants;
    forall k | 0 <= k < |vs|
      ensures vs[k].token == d.prefix + d.variants[k].name + d.suffix
      ensures vs[k].isDefault == d.variants[k].defaultString
      ensures vs[k].isDefault ==> k == |vs| - 1 && |vs[k].fields| == 1 && vs[k].fields[0].1 == ReadToken
      ensures !vs[k].isDefault ==> forall j :: 0 <= j < |vs[k].fields| ==> !vs[k].fields[j].1.ReadToken?
    {
      assert CompileVariant(d, k).Ok?;
      CompiledVariantShape(d, k);
    }
  }

  /** One compiled variant: its token, its default flag, and how its fields are read. */
  lemma {:induction false} CompiledVariantShape(d: EnumDecl, k: nat)
    requires k < |d.variants| && CompileVariant(d, k).Ok?
    ensures var v := CompileVariant(d, k).value;
      && v.token == d.prefix + d.variants[k].name + d.suffix
      && v.isDefault == d.variants[k].defaultString
      && (v.isDefault ==> k == |d.variants| - 1 && |v.fields| == 1 && v.fields[0].1 == ReadToken)
      && (!v.isDefault ==> forall j :: 0 <= j < |v.fields| ==> !v.fields[j].1.ReadToken?)
  {
    var isDefault := DefaultCheck(d, k).value;
    assert CompileVariant(d, k).value.fields == CompileVariantFields(d.variants[k].fields, isDefault).value;
  }

  /** A variant with an unnamed field is refused, whatever else the enum holds. */
  lemma {:induction false} UnnamedVariantFieldRefused(d: EnumDecl, k: nat, j: nat)
    requires k < |d.variants| && j < |d.variants[k].fields|
    requires d.variants[k].fields[j].name.None?
    ensures CompileEnum(d).Err?
  {
    var check := DefaultCheck(d, k);
    if check.Ok? {
      var fields := d.variants[k].fields;
      assert fields[j].name.None?;
      assert CompileVariantFields(fields, check.value).Err?;
    }
    assert CompileVariant(d, k).Err?;
  }

  // ---------------------------------------------------------------------------
  // The exhaustion message

  /** The message as the derive builds it, one `token, ` at a time onto `acc`. */
  function FailMessageFrom(tokens: seq<string>, acc: string): string
    decreases |tokens|
  {
    if tokens == [] then acc else FailMessageFrom(tokens[1..], acc + tokens[0] + ", ")
  }

  /** The tokens of all variants, each followed by `, `. */
  function TokenList(tokens: seq<string>): string {
    if tokens == [] then "" else tokens[0] + ", " + TokenList(tokens[1..])
  }

  /** The reason of the exhaustion error, the input cut at 20 chars in place of `{}`. */
  function ExhaustionMessage(tokens: seq<string>, current: string): (m: string)
    ensures m == "Expected one of " + TokenList(tokens) + "got " + current[..Min(20, |current|)] + "."
  {
    FailMessageLists(tokens, "Expected one of ");
    FailMessageFrom(tokens, "Expected one of ") + "got " + current[..Min(20, |current|)] + "."
  }

  /** The accumulated message lists the tokens in order after what was there. */
  lemma {:induction false} FailMessageLists(tokens: seq<string>, acc: string)
    ensures FailMessageFrom(tokens, acc) == acc + TokenList(tokens)
    decreases |tokens|
  {
    if tokens != [] {
      FailMessageLists(tokens[1..], acc + tokens[0] + ", ");
    }
  }

  /** The exhaustion message lists every token in order, then at most 20 chars of the input. */
  lemma {:induction false} ExhaustionMessageShape(tokens: seq<string>, current: string)
    ensures var m := ExhaustionMessage(tokens, current);
      var cut := current[..Min(20, |current|)];
      && m == "Expected one of " + TokenList(tokens) + "got " + cut + "."
      && |cut| <= 20
      && StartsWith(current, cut)
  {
    FailMessageLists(tokens, "Expected one of ");
  }

  /** Each token, followed by `, `, sits at the offset of the tokens before it. */
  lemma {:induction false} TokenListAt(tokens: seq<string>, k: nat)
    requires k < |tokens|
    ensures var off := |TokenList(tokens[..k])|;
      OccursAt(TokenList(tokens), tokens[k] + ", ", off)
    decreases k
  {
    var head := tokens[0] + ", ";
    var t := TokenList(tokens);
    assert t == head + TokenList(tokens[1..]);
    if k == 0 {
      assert tokens[..0] == [];
      assert t[..|head|] == head;
    } else {
      TokenListAt(tokens[1..], k - 1);
      assert tokens[..k][1..] == tokens[1..][..k - 1];
      assert TokenList(tokens[..k]) == head + TokenList(tokens[1..][..k - 1]);
      OccursAfter(head, TokenList(tokens[1..]), tokens[k] + ", ", |TokenList(tokens[1..][..k - 1])|);
    }
  }

  lemma OccursAfter(a: string, b: string, x: string, j: nat)
    requires OccursAt(b, x, j)
    ensures OccursAt(a + b, x, |a| + j)
  {
    assert (a + b)[|a| + j..|a| + j + |x|] == b[j..j + |x|];
  }
}
