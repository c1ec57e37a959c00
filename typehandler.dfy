/**
 * `deduce_type` (fso_tables/fso_tables_macro/src/typehandler.rs): the
 * classification of a field's Rust type into the shape the generated parse
 * code follows, with the nestings the table engine refuses.
 *
 * The Rust type is given as a small syntax tree; a path type keeps its last
 * segment, the first generic argument, and, when the last segment has no
 * arguments, whether the whole path is that one identifier. The deduction
 * looks only at the first two; the existence check of struct.rs looks at the
 * third.
 */
module TypeHandler {
  import opened Wrappers

  /** A Rust type as `deduce_type` sees it. */
  datatype RustType =
    | PathType(name: string, args: PathArgs)
    | TupleType(elems: seq<RustType>)
    /** Any other kind of type: a reference, an array, a bare function type, ... */
    | OtherType

  /** The arguments of a path's last segment. */
  datatype PathArgs =
    /**
     * No angle-bracketed arguments; `ident` when the whole path is this one
     * identifier (`Path::is_ident`: no leading `::`, no other segment).
     */
    | Plain(ident: bool)
    /** Angle-bracketed, the first being a type. */
    | TypeArg(arg: RustType)
    /** Angle-bracketed, the first being a lifetime or a constant. */
    | NonTypeArg

  /** The wrappers that are parsed as their content. */
  datatype BoxLike = Box | Rc | Arc | Cell | RefCell

  function BoxLikeName(c: BoxLike): string {
    match c
    case Box => "Box"
    case Rc => "Rc"
    case Arc => "Arc"
    case Cell => "Cell"
    case RefCell => "RefCell"
  }

  function BoxLikeNamed(name: string): (r: Option<BoxLike>)
    ensures r.Some? ==> BoxLikeName(r.value) == name
    ensures r.None? ==> forall c: BoxLike :: BoxLikeName(c) != name
  {
    if name == "Box" then Some(Box)
    else if name == "Rc" then Some(Rc)
    else if name == "Arc" then Some(Arc)
    else if name == "Cell" then Some(Cell)
    else if name == "RefCell" then Some(RefCell)
    else None
  }

  /** The generic names `deduce_type` treats specially. */
  predicate Wrapper(name: string) {
    name == "Vec" || name == "Option" || BoxLikeNamed(name).Some?
  }

  /**
   * `FSOValueType` together with the parse code it emits: how a value of the
   * type is read.
   */
  datatype Shape =
    /** A type without generic arguments, read by its own `FSOTable::parse`. */
    | Direct(name: string, ident: bool)
    /** Any other generic type, read by its own `FSOTable::parse`. */
    | Generic(name: string, arg: RustType)
    | Vector(elem: Shape)
    | Optional(inner: Shape)
    | Container(inner: Shape, container: BoxLike)
    | Tuple(elems: seq<Shape>)

  const VecOfOptions := "FSO Tables cannot contain a Vector of Options. Consider adding a subtable with optional unnamed elements."
  const OptionOfWrapper := "FSO Tables cannot contain an Option of Options or Box-likes. Consider reversing the template order."
  const BoxOfOption := "FSO Tables cannot contain a Box-like of Options. Consider reversing the template order."
  const TupleOfOptions := "FSO Tables cannot yet contain Options."
  const NotPathOrTuple := "FSO Tables can only process path and tuple types"

  function NonTypeArgument(name: string): string {
    "FSO Tables encountered type " + name + " with non-type generic argument!"
  }

  /** The type a shape was deduced from. */
  function TypeOf(sh: Shape): (t: RustType)
    ensures sh.Tuple? <==> t.TupleType?
    ensures sh.Direct? <==> t.PathType? && t.args.Plain?
    ensures sh.Direct? ==> t.args.ident == sh.ident
  {
    match sh
    case Direct(n, i) => PathType(n, Plain(i))
    case Generic(n, a) => PathType(n, TypeArg(a))
    case Vector(e) => PathType("Vec", TypeArg(TypeOf(e)))
    case Optional(i) => PathType("Option", TypeArg(TypeOf(i)))
    case Container(i, c) => PathType(BoxLikeName(c), TypeArg(TypeOf(i)))
    case Tuple(es) => TupleType(seq(|es|, k requires 0 <= k < |es| => TypeOf(es[k])))
  }

  /**
   * The shapes `deduce_type` can produce: no Vec of Options, no Option of an
   * Option or a Box-like, no Box-like of an Option, no Option in a tuple, and
   * generic table types never named like one of the wrappers.
   */
  predicate Deducible(sh: Shape) {
    match sh
    case Direct(_, _) => true
    case Generic(n, _) => !Wrapper(n)
    case Vector(e) => !e.Optional? && Deducible(e)
    case Optional(i) => !i.Optional? && !i.Container? && Deducible(i)
    case Container(i, _) => !i.Optional? && Deducible(i)
    case Tuple(es) => forall k :: 0 <= k < |es| ==> !es[k].Optional? && Deducible(es[k])
  }

  /** `deduce_type`: the shape of `t`, or the error the derive reports. */
  function DeduceType(t: RustType): (r: Result<Shape, string>)
    ensures r.Ok? ==> Deducible(r.value) && TypeOf(r.value) == t
    decreases t, 1
  {
    match t
    case PathType(name, Plain(ident)) => Ok(Direct(name, ident))
    case PathType(name, NonTypeArg) => Err(NonTypeArgument(name))
    case PathType(name, TypeArg(inner)) =>
      if name == "Vec" then
        (match DeduceType(inner)
         case Err(e) => Err(e)
         case Ok(s) => if s.Optional? then Err(VecOfOptions) else Ok(Vector(s)))
      else if name == "Option" then
        (match DeduceType(inner)
         case Err(e) => Err(e)
         case Ok(s) => if s.Optional? || s.Container? then Err(OptionOfWrapper) else Ok(Optional(s)))
      else if BoxLikeNamed(name).Some? then
        (match DeduceType(inner)
         case Err(e) => Err(e)
         case Ok(s) => if s.Optional? then Err(BoxOfOption) else Ok(Container(s, BoxLikeNamed(name).value)))
      else
        Ok(Generic(name, inner))
    case TupleType(elems) =>
      (match DeduceElems(elems)
       case Err(e) => Err(e)
       case Ok(shapes) =>
         assert TypeOf(Tuple(shapes)) == t by {
           assert seq(|shapes|, k requires 0 <= k < |shapes| => TypeOf(shapes[k])) == elems;
         }
         Ok(Tuple(shapes)))
    case OtherType => Err(NotPathOrTuple)
  }

  /** The tuple elements in order; the first element that fails, or is an Option, decides the error. */
  function DeduceElems(elems: seq<RustType>): (r: Result<seq<Shape>, string>)
    ensures r.Ok? ==> |r.value| == |elems|
    ensures r.Ok? ==> forall k :: 0 <= k < |elems| ==> !r.value[k].Optional? && Deducible(r.value[k]) && TypeOf(r.value[k]) == elems[k]
    decreases elems, 0
  {
    if elems == [] then Ok([])
    else
      match DeduceType(elems[0])
      case Err(e) => Err(e)
      case Ok(s) =>
        if s.Optional? then Err(TupleOfOptions)
        else
          match DeduceElems(elems[1..])
          case Err(e) => Err(e)
          case Ok(rest) => Ok([s] + rest)
  }

  function TypesOf(es: seq<Shape>): (ts: seq<RustType>)
    ensures |ts| == |es| && forall k :: 0 <= k < |es| ==> ts[k] == TypeOf(es[k])
  {
    seq(|es|, k requires 0 <= k < |es| => TypeOf(es[k]))
  }

  /** Every shape the deduction can produce is produced, from the type it stands for. */
  lemma {:induction false} DeduceTypeOf(sh: Shape)
    requires Deducible(sh)
    ensures DeduceType(TypeOf(sh)) == Ok(sh)
    decreases sh, 1
  {
    match sh
    case Direct(_, _) =>
    case Generic(n, _) =>
    case Vector(e) => DeduceTypeOf(e);
    case Optional(i) => DeduceTypeOf(i);
    case Container(i, c) =>
      DeduceTypeOf(i);
      match c {
        case Box =>
        case Rc =>
        case Arc =>
        case Cell =>
        case RefCell =>
      }
    case Tuple(es) =>
      DeduceElemsOf(sh, es);
      assert TypeOf(sh) == TupleType(TypesOf(es));
  }

  lemma {:induction false} DeduceElemsOf(sh: Shape, es: seq<Shape>)
    requires sh.Tuple? && Deducible(sh)
    requires |es| <= |sh.elems| && es == sh.elems[|sh.elems| - |es|..]
    ensures DeduceElems(TypesOf(es)) == Ok(es)
    decreases sh, 0, |es|
  {
    if es != [] {
      var n := |sh.elems| - |es|;
      assert es[0] == sh.elems[n];
      DeduceTypeOf(es[0]);
      assert sh.elems[n + 1..] == es[1..];
      DeduceElemsOf(sh, es[1..]);
      assert TypesOf(es)[1..] == TypesOf(es[1..]);
      assert [es[0]] + es[1..] == es;
    }
  }

  /** `deduce_type` succeeds exactly on the types of deducible shapes, and a type has one shape. */
  lemma {:induction false} DeduceTypeExactly(t: RustType, sh: Shape)
    ensures DeduceType(t) == Ok(sh) <==> Deducible(sh) && TypeOf(sh) == t
  {
    if Deducible(sh) && TypeOf(sh) == t {
      DeduceTypeOf(sh);
    }
  }

  /** The nestings the derive refuses, each with its own message, once the inner type itself is accepted. */
  lemma {:induction false} RejectedNestings(t: RustType, u: RustType, c: BoxLike)
    requires DeduceType(t).Ok? && DeduceType(t).value.Optional?
    requires DeduceType(u).Ok? && DeduceType(u).value.Container?
    ensures DeduceType(PathType("Vec", TypeArg(t))) == Err(VecOfOptions)
    ensures DeduceType(PathType("Option", TypeArg(t))) == Err(OptionOfWrapper)
    ensures DeduceType(PathType("Option", TypeArg(u))) == Err(OptionOfWrapper)
    ensures DeduceType(PathType(BoxLikeName(c), TypeArg(t))) == Err(BoxOfOption)
    ensures DeduceType(TupleType([t])) == Err(TupleOfOptions)
  {
    assert BoxLikeNamed(BoxLikeName(c)) == Some(c) by {
      match c
      case Box =>
      case Rc =>
      case Arc =>
      case Cell =>
      case RefCell =>
    }
    assert [t][1..] == [];
  }
}
