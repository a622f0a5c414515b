/**
 * The bidirectional checker of `co_bty.c`: base types ordered by a numeric
 * subtype lattice, lists and functions built on them, a context sorted by
 * name and searched by prefix, and the mutually recursive `bty_synthesize`
 * (a term's type from its shape) and `bty_check` (a term against an
 * expected type). A possibly NULL `bty_type_t*` is an `Option<Bty>`; the
 * types built inside another type are never NULL.
 */
module CoBty {
  import opened Wrappers
  import opened CoAst
  import opened CoInfer

  /** `bty_type_t`: the tag with the list content or the function's arguments and return type. */
  datatype Bty = Unknown | Void | Float | Int | Char | Bool | ListOf(ctype: Bty) | Func(args: seq<Bty>, ret: Bty)

  /** `bty_tag_t`: the enumerator of a type's tag. */
  function Tag(t: Bty): (n: nat)
    ensures n < 8
  {
    match t
    case Unknown => 0
    case Void => 1
    case Float => 2
    case Int => 3
    case Char => 4
    case Bool => 5
    case ListOf(_) => 6
    case Func(_, _) => 7
  }

  /** Apart from lists and functions, the tag is the whole type. */
  lemma TagDecides(a: Bty, b: Bty)
    requires Tag(a) == Tag(b) && !a.ListOf? && !a.Func?
    ensures a == b
  {
  }

  // The `Reading` says how `bty_is_func_subtype` compares arguments: as
  // written it takes both sides of the comparison from the child (line 222),
  // corrected it takes the second from the parent.

  predicate Numeric(t: Bty) {
    t.Bool? || t.Char? || t.Int? || t.Float?
  }

  /** The place of a numeric type in the chain bool < char < int < float. */
  function Rank(t: Bty): nat
    requires Numeric(t)
  {
    match t
    case Bool => 0
    case Char => 1
    case Int => 2
    case _ => 3
  }

  /** The parent-side type the `i`-th child argument is compared with. */
  function ArgAgainst(cs: seq<Bty>, ps: seq<Bty>, i: nat, reading: Reading): Bty
    requires i < |cs| && |cs| == |ps|
  {
    if reading == AsWritten then cs[i] else ps[i]
  }

  /** `bty_is_subtype`, with `bty_is_list_subtype` and `bty_is_func_subtype`. */
  predicate IsSubtype(child: Bty, parent: Bty, reading: Reading)
    decreases child
  {
    match child
    case Bool => parent.Bool? || parent.Int? || parent.Char? || parent.Float?
    case Char => parent.Int? || parent.Char? || parent.Float?
    case Int => parent.Int? || parent.Float?
    case Float => parent.Float?
    case Unknown => false
    case Void => false
    case ListOf(c) => parent.ListOf? && IsSubtype(c, parent.ctype, reading)
    case Func(args, ret) =>
      parent.Func? && |args| == |parent.args|
      && (forall i :: 0 <= i < |args| ==> IsSubtype(args[i], ArgAgainst(args, parent.args, i, reading), reading))
      && IsSubtype(ret, parent.ret, reading)
  }

  /**
   * Among types that are neither lists nor functions, subtyping is the
   * rank order of the numeric types; unknown and void are below nothing.
   */
  lemma NumericLattice(a: Bty, b: Bty, reading: Reading)
    requires !a.ListOf? && !a.Func?
    ensures IsSubtype(a, b, reading) <==> Numeric(a) && Numeric(b) && Rank(a) <= Rank(b)
  {
  }

  /** Lists are covariant in their content, and only a list is below a list. */
  lemma ListCovariant(c: Bty, p: Bty, reading: Reading)
    ensures IsSubtype(ListOf(c), p, reading) <==> p.ListOf? && IsSubtype(c, p.ctype, reading)
    ensures IsSubtype(p, ListOf(c), reading) ==> p.ListOf?
  {
  }

  /** Subtyping is transitive under both readings. */
  lemma {:induction false} SubtypeTransitive(a: Bty, b: Bty, c: Bty, reading: Reading)
    requires IsSubtype(a, b, reading) && IsSubtype(b, c, reading)
    ensures IsSubtype(a, c, reading)
    decreases a
  {
    match a
    case ListOf(x) =>
      SubtypeTransitive(x, b.ctype, c.ctype, reading);
    case Func(args, ret) =>
      SubtypeTransitive(ret, b.ret, c.ret, reading);
      if reading == Corrected {
        forall i | 0 <= i < |args|
          ensures IsSubtype(args[i], ArgAgainst(args, c.args, i, reading), reading)
        {
          assert IsSubtype(args[i], b.args[i], reading);
          assert IsSubtype(b.args[i], ArgAgainst(b.args, c.args, i, reading), reading);
          SubtypeTransitive(args[i], b.args[i], c.args[i], reading);
        }
      }
    case _ =>
  }

  /** With the arguments compared against the parent's, subtyping is antisymmetric. */
  lemma {:induction false} CorrectedAntisymmetric(a: Bty, b: Bty)
    requires IsSubtype(a, b, Corrected) && IsSubtype(b, a, Corrected)
    ensures a == b
    decreases a
  {
    match a
    case ListOf(x) =>
      CorrectedAntisymmetric(x, b.ctype);
    case Func(args, ret) =>
      CorrectedAntisymmetric(ret, b.ret);
      forall i | 0 <= i < |args| ensures args[i] == b.args[i] {
        assert IsSubtype(args[i], b.args[i], Corrected);
        assert IsSubtype(b.args[i], ArgAgainst(b.args, args, i, Corrected), Corrected);
        CorrectedAntisymmetric(args[i], b.args[i]);
      }
      assert args == b.args;
    case _ =>
  }

  /**
   * As written, the parent's argument types play no part: only their
   * number and the return types count.
   */
  lemma AsWrittenIgnoresParentArgs(child: Bty, ps: seq<Bty>, qs: seq<Bty>, ret: Bty)
    requires |ps| == |qs|
    ensures IsSubtype(child, Func(ps, ret), AsWritten) == IsSubtype(child, Func(qs, ret), AsWritten)
  {
  }

  /**
   * A function taking a float is a subtype of one taking a bool as written,
   * and not once the arguments are compared with the parent's; as written
   * the two function types are each below the other though they differ.
   */
  lemma FuncArgsAsWritten()
    ensures IsSubtype(Func([Float], Int), Func([Bool], Int), AsWritten)
    ensures IsSubtype(Func([Bool], Int), Func([Float], Int), AsWritten)
    ensures Func([Float], Int) != Func([Bool], Int)
    ensures !IsSubtype(Func([Float], Int), Func([Bool], Int), Corrected)
  {
    assert IsSubtype(Float, Float, AsWritten);
    assert IsSubtype(Bool, Bool, AsWritten);
  }

  /** The subtype test as the C functions run it, with the argument loop. */
  method IsSubtypeOf(child: Bty, parent: Bty, reading: Reading) returns (r: bool)
    ensures r == IsSubtype(child, parent, reading)
    decreases child
  {
    match child
    case Bool => r := parent.Bool? || parent.Int? || parent.Char? || parent.Float?;
    case Char => r := parent.Int? || parent.Char? || parent.Float?;
    case Int => r := parent.Int? || parent.Float?;
    case Float => r := parent.Float?;
    case Unknown => r := false;
    case Void => r := false;
    case ListOf(c) =>
      if !parent.ListOf? {
        return false;
      }
      r := IsSubtypeOf(c, parent.ctype, reading);
    case Func(args, ret) =>
      if !parent.Func? || |args| != |parent.args| {
        return false;
      }
      var i := 0;
      while i < |args|
        invariant 0 <= i <= |args|
        invariant forall j :: 0 <= j < i ==> IsSubtype(args[j], ArgAgainst(args, parent.args, j, reading), reading)
      {
        var pa := if reading == AsWritten then args[i] else parent.args[i];
        var ok := IsSubtypeOf(args[i], pa, reading);
        if !ok {
          return false;
        }
        i := i + 1;
      }
      r := IsSubtypeOf(ret, parent.ret, reading);
  }

  /** `bty_is_equal`: the structural comparison is exactly equality of the types. */
  method IsEqual(a: Bty, b: Bty) returns (r: bool)
    ensures r <==> a == b
    decreases a
  {
    if Tag(a) != Tag(b) {
      return false;
    }
    if a.ListOf? {
      r := IsEqual(a.ctype, b.ctype);
      return;
    }
    if a.Func? {
      if |a.args| != |b.args| {
        return false;
      }
      var i := 0;
      while i < |a.args|
        invariant 0 <= i <= |a.args|
        invariant a.args[..i] == b.args[..i]
      {
        var e := IsEqual(a.args[i], b.args[i]);
        if !e {
          return false;
        }
        assert a.args[..i + 1] == a.args[..i] + [a.args[i]];
        assert b.args[..i + 1] == b.args[..i] + [b.args[i]];
        i := i + 1;
      }
      assert a.args == a.args[..i] && b.args == b.args[..i];
      r := IsEqual(a.ret, b.ret);
      return;
    }
    TagDecides(a, b);
    r := true;
  }

  /** `bty_func` followed by `bty_func_add_arg`: the argument goes last; only a function takes one. */
  function FuncAddArg(fun: Bty, arg: Bty): (r: Result<Bty, Abort>)
    ensures fun.Func? <==> r.Ok?
    ensures !fun.Func? ==> r == Err(AssertFailed("fun->tag == BTY_FUNC"))
  {
    if fun.Func? then Ok(Func(fun.args + [arg], fun.ret)) else Err(AssertFailed("fun->tag == BTY_FUNC"))
  }

  /** Adding the arguments one after the other, stopping at the first failed assertion. */
  function AddArgs(fun: Result<Bty, Abort>, args: seq<Bty>): Result<Bty, Abort>
    decreases |args|
  {
    if |args| == 0 || fun.Err? then fun else AddArgs(FuncAddArg(fun.value, args[0]), args[1..])
  }

  /** A function built from `bty_func(ret)` by adding `args` in order has exactly those arguments. */
  lemma {:induction false} AddArgsBuilds(done: seq<Bty>, args: seq<Bty>, ret: Bty)
    ensures AddArgs(Ok(Func(done, ret)), args) == Ok(Func(done + args, ret))
    decreases |args|
  {
    if |args| > 0 {
      AddArgsBuilds(done + [args[0]], args[1..], ret);
      assert done + [args[0]] + args[1..] == done + args;
    } else {
      assert done + args == done;
    }
  }

  /** The base type of a constant value; a `none` value has none. */
  function ValueBty(vt: ValueType): (r: Option<Bty>)
    ensures r.Some? <==> vt != NoneValue
    ensures r.Some? ==> Numeric(r.value)
  {
    match vt
    case NoneValue => None
    case IntValue => Some(Int)
    case BoolValue => Some(Bool)
    case CharValue => Some(Char)
    case FloatValue => Some(Float)
  }

  /**
   * The type of a constant expression: a value's base type, or for an
   * array the list of its elements' common type (of unknown when empty),
   * and none as soon as one element has none or they differ.
   */
  function ConstType(e: Node): Option<Bty>
    decreases e
  {
    match e
    case Value(vt, _) => ValueBty(vt)
    case ArrayLit(c) =>
      if |c| == 0 then Some(ListOf(Unknown))
      else if ConstType(c[0]).Some? && forall i :: 0 <= i < |c| ==> ConstType(c[i]) == ConstType(c[0])
      then Some(ListOf(ConstType(c[0]).value))
      else None
    case _ => None
  }

  /** `bty_from_const_expr`. */
  method FromConstExpr(e: Node) returns (r: Option<Bty>)
    ensures r == ConstType(e)
    decreases e, 1
  {
    match e
    case Value(vt, _) => r := ValueBty(vt);
    case ArrayLit(_) => r := FromConstArray(e);
    case _ => r := None;
  }

  /** `bty_from_const_array`: the first element's type, compared with every later one. */
  method FromConstArray(e: Node) returns (r: Option<Bty>)
    requires e.ArrayLit?
    ensures r == ConstType(e)
    ensures |e.content| == 0 ==> r == Some(ListOf(Unknown))
    ensures r.Some? ==> r.value.ListOf?
    decreases e, 0
  {
    var c := e.content;
    if |c| == 0 {
      return Some(ListOf(Unknown));
    }
    var inner := FromConstExpr(c[0]);
    if inner.None? {
      return None;
    }
    var i := 1;
    while i < |c|
      invariant 1 <= i <= |c|
      invariant forall j :: 0 <= j < i ==> ConstType(c[j]) == inner
    {
      var tmp := FromConstExpr(c[i]);
      if tmp.None? {
        return None;
      }
      var eq := IsEqual(inner.value, tmp.value);
      if !eq {
        return None;
      }
      i := i + 1;
    }
    r := Some(ListOf(inner.value));
  }

  /**
   * `bty_from_annotation`: the type an annotation names with the messages
   * it reports. A failed list content reports its own message and then one
   * per enclosing `array`.
   */
  function FromAnnotation(a: Annot): (r: (Option<Bty>, seq<string>))
    ensures r.0.None? <==> |r.1| > 0
    decreases a
  {
    if a.name == "array" then
      if |a.children| != 1 then (None, ["invalid type annotation"])
      else
        var inner := FromAnnotation(a.children[0]);
        if inner.0.None? then (None, inner.1 + ["invalid type annotation (list content)"])
        else (Some(ListOf(inner.0.value)), [])
    else if a.name == "string" then (Some(ListOf(Char)), [])
    else if a.name == "void" then (Some(Void), [])
    else if a.name == "int" then (Some(Int), [])
    else if a.name == "float" then (Some(Float), [])
    else if a.name == "bool" then (Some(Bool), [])
    else if a.name == "char" then (Some(Char), [])
    else (None, ["unhandled type signature"])
  }

  /** The types an annotation can name: void, the numeric types and lists of them. */
  predicate Annotatable(t: Bty) {
    match t
    case ListOf(c) => Annotatable(c)
    case Func(_, _) => false
    case Unknown => false
    case _ => true
  }

  /** The annotation naming `t`, with `array` for every list. */
  function Annotate(t: Bty): Annot
    requires Annotatable(t)
  {
    match t
    case Void => Annot("void", [])
    case Int => Annot("int", [])
    case Float => Annot("float", [])
    case Bool => Annot("bool", [])
    case Char => Annot("char", [])
    case ListOf(c) => Annot("array", [Annotate(c)])
  }

  /** Reading back the annotation of a type gives the type, without a message. */
  lemma {:induction false} AnnotationRoundTrip(t: Bty)
    requires Annotatable(t)
    ensures FromAnnotation(Annotate(t)) == (Some(t), [])
  {
    if t.ListOf? {
      AnnotationRoundTrip(t.ctype);
    }
  }

  /** Every type an annotation names is one that `Annotate` writes. */
  lemma {:induction false} AnnotationNamesAnnotatable(a: Annot)
    ensures FromAnnotation(a).0.Some? ==> Annotatable(FromAnnotation(a).0.value)
    decreases a
  {
    if a.name == "array" && |a.children| == 1 {
      AnnotationNamesAnnotatable(a.children[0]);
    }
  }

  /** `sprint_bty_type`. */
  function Sprint(t: Bty): string
    decreases t
  {
    match t
    case Unknown => "unknown"
    case Void => "void"
    case Float => "float"
    case Int => "int"
    case Char => "char"
    case Bool => "bool"
    case ListOf(c) => "list of " + Sprint(c)
    case Func(args, ret) =>
      "func (" + ArgText(seq(|args|, i requires 0 <= i < |args| => Sprint(args[i]))) + ") -> " + Sprint(ret)
  }

  /** The argument texts, each after a blank and separated by commas. */
  function ArgText(ts: seq<string>): string {
    if |ts| == 0 then "" else ArgText(ts[..|ts| - 1]) + (if |ts| > 1 then "," else "") + " " + ts[|ts| - 1]
  }

  /**
   * The subtype test on pointers: the child's tag is always read, the
   * parent's unless the child is unknown or void.
   */
  function SubtypeAt(child: Option<Bty>, parent: Option<Bty>, reading: Reading): (r: Result<bool, Abort>)
    ensures child.Some? && parent.Some? ==> r == Ok(IsSubtype(child.value, parent.value, reading))
    ensures child.None? ==> r == Err(NullDereference)
    ensures r.Ok? ==> child.Some?
  {
    if child.None? then Err(NullDereference)
    else if child.value.Unknown? || child.value.Void? then Ok(false)
    else if parent.None? then Err(NullDereference)
    else Ok(IsSubtype(child.value, parent.value, reading))
  }

  /** The messages `bty_check` reports once the term's type `ty` is known. */
  function CheckReport(ty: Option<Bty>, et: Option<Bty>, reading: Reading): (r: Result<seq<string>, Abort>)
    ensures ty.Some? && et.Some? ==> r.Ok? && (r.value == [] <==> IsSubtype(ty.value, et.value, reading))
  {
    var s := SubtypeAt(ty, et, reading);
    if s.Err? then Err(s.error)
    else if s.value then Ok([])
    else if et.None? || ty.None? then Err(NullDereference)
    else Ok(["type-error: expected " + Sprint(et.value) + " but got " + Sprint(ty.value)])
  }

  /**
   * Checking against the NULL an invalid annotation yields reads through
   * it, whatever the term's type: the subtype test or the message does.
   */
  lemma CheckAgainstNullAborts(ty: Option<Bty>, reading: Reading)
    ensures CheckReport(ty, None, reading) == Err(NullDereference)
  {
  }

  /**
   * As written, a term of type `func(float)->int` checked against
   * `func(bool)->int` passes without a message; corrected it is reported.
   */
  lemma CheckFuncArgsAsWritten()
    ensures CheckReport(Some(Func([Float], Int)), Some(Func([Bool], Int)), AsWritten) == Ok([])
    ensures CheckReport(Some(Func([Float], Int)), Some(Func([Bool], Int)), Corrected).Ok?
    ensures CheckReport(Some(Func([Float], Int)), Some(Func([Bool], Int)), Corrected).value != []
  {
    FuncArgsAsWritten();
  }

  /** The operators whose result is the operand type rather than bool. */
  predicate Arithmetic(op: BinopType) {
    op.Mul? || op.Div? || op.Mod? || op.Add? || op.Sub?
  }

  /** `is_allowed_binop_operand_type`. */
  predicate AllowedOperand(op: BinopType, t: Bty) {
    if Arithmetic(op) then t.Float? || t.Int?
    else if op.Xor? || op.Or? || op.And? then t.Bool?
    else t.Float? || t.Int? || t.Char?
  }

  /**
   * The decision of `bty_synth_binop` on two operand types: the wider
   * operand, then its check against the operator. An error is the message
   * reported with the unknown result.
   */
  function BinopOutcome(op: BinopType, l: Bty, r: Bty): (res: Result<Bty, string>)
    ensures res.Ok? ==> BinopShape(op, res.value) && res.value != Unknown
  {
    var ty := OperandType(l, r);
    if ty.None? then
      Err(UnknownResultMessage(l, r))
    else if !AllowedOperand(op, ty.value) then
      Err(UnsupportedMessage(ty.value))
    else if Arithmetic(op) then Ok(ty.value)
    else Ok(Bool)
  }

  function UnknownResultMessage(l: Bty, r: Bty): string {
    "type-error: binary operator unknown result type\n\tLHS: " + Sprint(l) + "\n\tRHS: " + Sprint(r)
  }

  function UnsupportedMessage(t: Bty): string {
    "type-error: unsupported operand type: " + Sprint(t)
  }

  /**
   * The operand type of a binary operator: the right operand when the left
   * is below it, replaced by the left when the right is below that.
   */
  function OperandType(l: Bty, r: Bty): (ty: Option<Bty>)
    ensures ty.Some? ==> (ty.value == l || ty.value == r) && IsSubtype(l, ty.value, Corrected) && IsSubtype(r, ty.value, Corrected)
  {
    if IsSubtype(r, l, Corrected) then
      SubtypeReflexive(r, l);
      Some(l)
    else if IsSubtype(l, r, Corrected) then
      SubtypeReflexive(l, r);
      Some(r)
    else None
  }

  /** A type below some type is below itself. */
  lemma {:induction false} SubtypeReflexive(a: Bty, b: Bty)
    requires IsSubtype(a, b, Corrected)
    ensures IsSubtype(b, b, Corrected)
    decreases a
  {
    match a
    case ListOf(x) =>
      SubtypeReflexive(x, b.ctype);
    case Func(args, ret) =>
      SubtypeReflexive(ret, b.ret);
      forall i | 0 <= i < |args| ensures IsSubtype(b.args[i], ArgAgainst(b.args, b.args, i, Corrected), Corrected) {
        assert IsSubtype(args[i], ArgAgainst(args, b.args, i, Corrected), Corrected);
        SubtypeReflexive(args[i], b.args[i]);
      }
    case _ =>
  }

  /** The wider of two numeric types. */
  function Wider(l: Bty, r: Bty): Bty
    requires Numeric(l) && Numeric(r)
  {
    if Rank(r) <= Rank(l) then l else r
  }

  /**
   * On numeric operands a binary operator succeeds exactly when the
   * operator admits the wider operand; arithmetic then yields that operand
   * type, every other operator bool.
   */
  lemma BinopNumeric(op: BinopType, l: Bty, r: Bty)
    requires Numeric(l) && Numeric(r)
    ensures BinopOutcome(op, l, r).Ok? <==> AllowedOperand(op, Wider(l, r))
    ensures BinopOutcome(op, l, r).Ok? ==> BinopOutcome(op, l, r).value == if Arithmetic(op) then Wider(l, r) else Bool
  {
    OperandNumeric(l, r);
  }

  /** On numeric operands the operand type is the wider one. */
  lemma OperandNumeric(l: Bty, r: Bty)
    requires Numeric(l) && Numeric(r)
    ensures OperandType(l, r) == Some(Wider(l, r))
  {
    NumericLattice(r, l, Corrected);
    NumericLattice(l, r, Corrected);
  }

  /** An arithmetic result is a supertype of both operands and one of them. */
  lemma BinopWidens(op: BinopType, l: Bty, r: Bty)
    requires Arithmetic(op) && BinopOutcome(op, l, r).Ok?
    ensures var t := BinopOutcome(op, l, r).value;
      (t == l || t == r) && IsSubtype(l, t, Corrected) && IsSubtype(r, t, Corrected) && (t.Int? || t.Float?)
  {
  }

  /** A list, a function, unknown or void as an operand always yields an error. */
  lemma {:induction false} BinopRejectsNonNumeric(op: BinopType, l: Bty, r: Bty)
    requires !Numeric(l) || !Numeric(r)
    ensures BinopOutcome(op, l, r).Err?
  {
    var ty := OperandType(l, r);
    if ty.Some? {
      assert !Numeric(ty.value) by {
        if !Numeric(l) && ty.value == r {
          assert IsSubtype(l, r, Corrected);
        } else if !Numeric(r) && ty.value == l {
          assert IsSubtype(r, l, Corrected);
        }
      }
    }
  }

  /** `true + 1` is an int, `'a' < 1.0` a bool, and `true and 1` an error. */
  lemma BinopExamples()
    ensures BinopOutcome(Add, Bool, Int) == Ok(Int)
    ensures BinopOutcome(Lt, Char, Float) == Ok(Bool)
    ensures BinopOutcome(And, Bool, Int).Err?
  {
    BinopNumeric(Add, Bool, Int);
    BinopNumeric(Lt, Char, Float);
    BinopNumeric(And, Bool, Int);
  }

  /** What a binary operator can yield: unknown, or a type its class of operator allows. */
  predicate BinopShape(op: BinopType, t: Bty) {
    t == Unknown || (Arithmetic(op) && (t.Int? || t.Float?)) || (!Arithmetic(op) && t == Bool)
  }

  /** What a unary operator can yield: `not` keeps bool, `-` a numeric type, or unknown after an error. */
  predicate UnopShape(op: UnopType, t: Bty) {
    t == Unknown || (op == Not && t == Bool) || (op == Neg && Numeric(t))
  }

  /** The message `bty_synth_unop` reports for an operand type its operator refuses. */
  function UnopMessage(op: UnopType, t: Bty): string {
    "type-error: can't interpret " + Sprint(t) + (if op == Not then " as a boolean value" else " as a numeric value")
  }

  /** The kinds `bty_synthesize` sends to its default branch. */
  predicate Untyped(n: Node) {
    !(n.Value? || n.VarRef? || n.ArrayLit? || n.TyAnnot? || n.Unop? || n.Binop? || n.Assign? || n.Return? || n.Break?)
  }

  type Entry = Kvp<Option<Bty>>

  /** `bty_ctx_lookup`: the stored type of the pair found, NULL when none is. */
  ghost function Bound(es: seq<Entry>, name: string): Option<Bty> {
    var f := Found(es, name, true);
    if f.Some? then f.value else None
  }

  /** The context keeps every pair and the trace every message. */
  ghost predicate Progress(es0: seq<Entry>, es: seq<Entry>, m0: seq<string>, m: seq<string>) {
    (forall e :: e in es0 ==> e in es) && m0 <= m
  }

  lemma ProgressTrans(es0: seq<Entry>, es1: seq<Entry>, es2: seq<Entry>, m0: seq<string>, m1: seq<string>, m2: seq<string>)
    requires Progress(es0, es1, m0, m1) && Progress(es1, es2, m1, m2)
    ensures Progress(es0, es2, m0, m2)
  {
  }

  lemma InsertKeeps(es: seq<Entry>, i: nat, e: Entry)
    requires i <= |es|
    ensures forall x :: x in es ==> x in es[..i] + [e] + es[i..]
  {
    forall x | x in es ensures x in es[..i] + [e] + es[i..] {
      var k :| 0 <= k < |es| && es[k] == x;
      if k < i {
        assert (es[..i] + [e] + es[i..])[k] == x;
      } else {
        assert (es[..i] + [e] + es[i..])[k + 1] == x;
      }
    }
  }

  /** The context (`bty_ctx_t`, searched by prefix) with the messages reported to its trace. */
  class Checker {
    const ctx: TyCtx<Option<Bty>>
    const reading: Reading
    var messages: seq<string>

    ghost predicate Valid()
      reads this, ctx, ctx.kvps
    {
      ctx.Valid() && ctx.prefix
    }

    constructor(ctx: TyCtx<Option<Bty>>, reading: Reading)
      requires ctx.Valid() && ctx.prefix
      ensures Valid() && this.ctx == ctx && this.reading == reading && messages == []
    {
      this.ctx := ctx;
      this.reading := reading;
      messages := [];
    }

    /** `bty_synth_var_reference`: the bound type, with a message when it is NULL. */
    method SynthVarRef(name: string) returns (ty: Option<Bty>)
      requires Valid()
      modifies this
      ensures Valid() && ctx.Entries() == old(ctx.Entries())
      ensures ty == Bound(ctx.Entries(), name)
      ensures messages == old(messages) + if ty.None? then ["reference to undefined variable: " + name] else []
    {
      var f := ctx.Lookup(name);
      ty := if f.Some? then f.value else None;
      if ty.None? {
        messages := messages + ["reference to undefined variable: " + name];
      }
    }

    /** `bty_synthesize`. */
    method Synthesize(n: Node) returns (res: Result<Option<Bty>, Abort>)
      requires Valid()
      modifies this, ctx, ctx.kvps
      ensures Valid() && Progress(old(ctx.Entries()), ctx.Entries(), old(messages), messages)
      ensures ctx.kvps == old(ctx.kvps) || fresh(ctx.kvps)
      ensures n.Value? ==> res == Ok(ValueBty(n.vt)) && messages == old(messages) && ctx.Entries() == old(ctx.Entries())
      ensures n.VarRef? ==> res.Ok? && res.value == Bound(old(ctx.Entries()), n.name) && ctx.Entries() == old(ctx.Entries())
      ensures n.VarRef? ==>
        messages == old(messages) + if Bound(old(ctx.Entries()), n.name).None? then ["reference to undefined variable: " + n.name] else []
      ensures n.Break? ==> res == Ok(Some(Void)) && messages == old(messages) && ctx.Entries() == old(ctx.Entries())
      ensures Untyped(n) ==> res == Ok(Some(Unknown)) && messages == old(messages) && ctx.Entries() == old(ctx.Entries())
      ensures n.ArrayLit? && |n.content| == 0 ==> res == Ok(Some(ListOf(Unknown))) && messages == old(messages)
      ensures n.ArrayLit? && res.Ok? ==> res.value.Some? && (res.value.value.ListOf? || res.value.value == Unknown)
      ensures n.TyAnnot? && res.Ok? ==> res.value == FromAnnotation(n.annot).0
      ensures n.Unop? && res.Ok? ==> res.value.Some? && UnopShape(n.uop, res.value.value)
      ensures n.Binop? && res.Ok? ==> res.value.Some? && BinopShape(n.bop, res.value.value)
      ensures (n.ArrayLit? || n.Unop? || n.Binop?) && res == Ok(Some(Unknown)) ==> |messages| > |old(messages)|
      decreases n, 2
    {
      match n
      case Value(vt, _) => res := Ok(ValueBty(vt));
      case VarRef(name) =>
        var ty := SynthVarRef(name);
        res := Ok(ty);
      case ArrayLit(_) => res := SynthArray(n);
      case TyAnnot(_, _) => res := SynthAnnot(n);
      case Unop(_, _) => res := SynthUnop(n);
      case Binop(_, _, _) => res := SynthBinop(n);
      case Assign(_, _) => res := SynthAssign(n);
      case Return(result) => res := Synthesize(result);
      case Break => res := Ok(Some(Void));
      case _ => res := Ok(Some(Unknown));
    }

    /** The array case: the list of the common element type, or unknown with a message. */
    method SynthArray(n: Node) returns (res: Result<Option<Bty>, Abort>)
      requires Valid() && n.ArrayLit?
      modifies this, ctx, ctx.kvps
      ensures Valid() && Progress(old(ctx.Entries()), ctx.Entries(), old(messages), messages)
      ensures ctx.kvps == old(ctx.kvps) || fresh(ctx.kvps)
      ensures |n.content| == 0 ==> res == Ok(Some(ListOf(Unknown))) && messages == old(messages)
      ensures res.Ok? ==> res.value.Some? && (res.value.value.ListOf? || res.value.value == Unknown)
      ensures res == Ok(Some(Unknown)) ==> |messages| > |old(messages)|
      decreases n, 1
    {
      var ty := SynthAllSame(n);
      if ty.Err? {
        return Err(ty.error);
      }
      if ty.value.Some? {
        return Ok(Some(ListOf(ty.value.value)));
      }
      messages := messages + ["type-error: array contains mixed type elements"];
      res := Ok(Some(Unknown));
    }

    /**
     * `bty_synth_all_same_or_null`: the first element's type when every
     * later one equals it, NULL at the first that differs.
     */
    method SynthAllSame(n: Node) returns (res: Result<Option<Bty>, Abort>)
      requires Valid() && n.ArrayLit?
      modifies this, ctx, ctx.kvps
      ensures Valid() && Progress(old(ctx.Entries()), ctx.Entries(), old(messages), messages)
      ensures ctx.kvps == old(ctx.kvps) || fresh(ctx.kvps)
      ensures |n.content| == 0 ==> res == Ok(Some(Unknown)) && messages == old(messages)
      decreases n, 0
    {
      var c := n.content;
      if |c| == 0 {
        return Ok(Some(Unknown));
      }
      var first := Synthesize(c[0]);
      if first.Err? {
        return first;
      }
      var ty := first.value;
      var i := 1;
      while i < |c|
        invariant 1 <= i <= |c|
        invariant Valid() && Progress(old(ctx.Entries()), ctx.Entries(), old(messages), messages)
        invariant ctx.kvps == old(ctx.kvps) || fresh(ctx.kvps)
      {
        ghost var es, m := ctx.Entries(), messages;
        var tmp := Synthesize(c[i]);
        ProgressTrans(old(ctx.Entries()), es, ctx.Entries(), old(messages), m, messages);
        if tmp.Err? {
          return Err(tmp.error);
        }
        if tmp.value.None? {
          return Err(AssertFailed("tmp != NULL"));
        }
        if ty.None? {
          return Err(NullDereference);
        }
        var eq := IsEqual(ty.value, tmp.value.value);
        if !eq {
          return Ok(None);
        }
        i := i + 1;
      }
      res := Ok(ty);
    }

    /** The annotation case: the annotated type, after checking the term against it. */
    method SynthAnnot(n: Node) returns (res: Result<Option<Bty>, Abort>)
      requires Valid() && n.TyAnnot?
      modifies this, ctx, ctx.kvps
      ensures Valid() && Progress(old(ctx.Entries()), ctx.Entries(), old(messages), messages)
      ensures ctx.kvps == old(ctx.kvps) || fresh(ctx.kvps)
      ensures res.Ok? ==> res.value == FromAnnotation(n.annot).0
      decreases n, 1
    {
      var a := FromAnnotation(n.annot);
      messages := messages + a.1;
      ghost var m := messages;
      var c := Check(n.expr, a.0);
      ProgressTrans(old(ctx.Entries()), old(ctx.Entries()), ctx.Entries(), old(messages), m, messages);
      if c.Err? {
        return Err(c.error);
      }
      res := Ok(a.0);
    }

    /** `bty_synth_unop`: the operand type when it is below bool (`not`) or float (`-`). */
    method SynthUnop(n: Node) returns (res: Result<Option<Bty>, Abort>)
      requires Valid() && n.Unop?
      modifies this, ctx, ctx.kvps
      ensures Valid() && Progress(old(ctx.Entries()), ctx.Entries(), old(messages), messages)
      ensures ctx.kvps == old(ctx.kvps) || fresh(ctx.kvps)
      ensures res.Ok? ==> res.value.Some? && UnopShape(n.uop, res.value.value)
      ensures res == Ok(Some(Unknown)) ==> |messages| > |old(messages)|
      decreases n, 1
    {
      var ty := Synthesize(n.inner);
      if ty.Err? {
        return Err(ty.error);
      }
      var s := SubtypeAt(ty.value, Some(if n.uop == Not then Bool else Float), reading);
      if s.Err? {
        return Err(s.error);
      }
      var t := ty.value.value;
      if !s.value {
        messages := messages + [UnopMessage(n.uop, t)];
        return Ok(Some(Unknown));
      }
      NumericLattice(t, if n.uop == Not then Bool else Float, reading);
      res := Ok(Some(t));
    }

    /** `bty_synth_binop`: both operands, then the decision on their types. */
    method SynthBinop(n: Node) returns (res: Result<Option<Bty>, Abort>)
      requires Valid() && n.Binop?
      modifies this, ctx, ctx.kvps
      ensures Valid() && Progress(old(ctx.Entries()), ctx.Entries(), old(messages), messages)
      ensures ctx.kvps == old(ctx.kvps) || fresh(ctx.kvps)
      ensures res.Ok? ==> res.value.Some? && BinopShape(n.bop, res.value.value)
      ensures res == Ok(Some(Unknown)) ==> |messages| > |old(messages)|
      decreases n, 1
    {
      var l := Synthesize(n.left);
      if l.Err? {
        return Err(l.error);
      }
      ghost var es, m := ctx.Entries(), messages;
      var r := Synthesize(n.right);
      ProgressTrans(old(ctx.Entries()), es, ctx.Entries(), old(messages), m, messages);
      if r.Err? {
        return Err(r.error);
      }
      res := BinopOn(n.bop, l.value, r.value);
    }

    /** The part of `bty_synth_binop` after both operands: their subtype tests and the decision. */
    method BinopOn(op: BinopType, l: Option<Bty>, r: Option<Bty>) returns (res: Result<Option<Bty>, Abort>)
      modifies this
      ensures res.Ok? ==> res.value.Some? && BinopShape(op, res.value.value)
      ensures res == Ok(Some(Unknown)) ==>
        l.Some? && r.Some? && BinopOutcome(op, l.value, r.value).Err? &&
        messages == old(messages) + [BinopOutcome(op, l.value, r.value).error]
      ensures res != Ok(Some(Unknown)) ==> messages == old(messages)
      ensures l.Some? && r.Some? ==> res.Ok?
      ensures l.None? || r.None? ==> res == Err(NullDereference)
    {
      var sl := SubtypeAt(l, r, reading);
      var sr := SubtypeAt(r, l, reading);
      if sl.Err? {
        return Err(sl.error);
      }
      if sr.Err? {
        return Err(sr.error);
      }
      var out := BinopOutcome(op, l.value, r.value);
      if out.Err? {
        messages := messages + [out.error];
        return Ok(Some(Unknown));
      }
      res := Ok(Some(out.value));
    }

    /** The assignment case: the target's type, after checking the value against it. */
    method SynthAssign(n: Node) returns (res: Result<Option<Bty>, Abort>)
      requires Valid() && n.Assign?
      modifies this, ctx, ctx.kvps
      ensures Valid() && Progress(old(ctx.Entries()), ctx.Entries(), old(messages), messages)
      ensures ctx.kvps == old(ctx.kvps) || fresh(ctx.kvps)
      ensures n.target.Value? && res.Ok? ==> res.value == ValueBty(n.target.vt)
      decreases n, 1
    {
      var ty := Synthesize(n.target);
      if ty.Err? {
        return Err(ty.error);
      }
      ghost var es, m := ctx.Entries(), messages;
      var c := Check(n.value, ty.value);
      ProgressTrans(old(ctx.Entries()), es, ctx.Entries(), old(messages), m, messages);
      if c.Err? {
        return Err(c.error);
      }
      res := Ok(ty.value);
    }

    /** The binding `bty_check` makes for a variable whose lookup gives NULL, with its `assert(res)`. */
    method BindUnbound(name: string, et: Option<Bty>) returns (res: Result<(), Abort>)
      requires Valid()
      modifies ctx, ctx.kvps
      ensures Valid() && Progress(old(ctx.Entries()), ctx.Entries(), messages, messages)
      ensures ctx.kvps == old(ctx.kvps) || fresh(ctx.kvps)
      ensures !Finds(old(ctx.Entries()), name, true) ==>
        res == Ok(()) &&
        (exists i :: 0 <= i <= |old(ctx.Entries())| &&
           ctx.Entries() == old(ctx.Entries())[..i] + [(name, et)] + old(ctx.Entries())[i..])
      ensures Finds(old(ctx.Entries()), name, true) ==> res == Err(AssertFailed("res")) && ctx.Entries() == old(ctx.Entries())
    {
      ghost var es := ctx.Entries();
      var ok := ctx.Insert(name, et);
      InsertedFacts(es, name, et, true);
      if !ok {
        return Err(AssertFailed("res"));
      }
      ghost var i :| 0 <= i <= |es| && ctx.Entries() == es[..i] + [(name, et)] + es[i..];
      InsertKeeps(es, i, (name, et));
      res := Ok(());
    }

    /**
     * `bty_check`: a variable with no (or a NULL) type is bound to the
     * expected type instead of being reported, and `assert(res)` fails when
     * the name is already there; any other term is synthesized and reported
     * unless its type is below the expected one.
     */
    method Check(n: Node, et: Option<Bty>) returns (res: Result<(), Abort>)
      requires Valid()
      modifies this, ctx, ctx.kvps
      ensures Valid() && Progress(old(ctx.Entries()), ctx.Entries(), old(messages), messages)
      ensures ctx.kvps == old(ctx.kvps) || fresh(ctx.kvps)
      ensures n.VarRef? && !Finds(old(ctx.Entries()), n.name, true) ==>
        res == Ok(()) && messages == old(messages) &&
        (exists i :: 0 <= i <= |old(ctx.Entries())| &&
           ctx.Entries() == old(ctx.Entries())[..i] + [(n.name, et)] + old(ctx.Entries())[i..])
      ensures n.VarRef? && Found(old(ctx.Entries()), n.name, true) == Some(None) ==>
        res == Err(AssertFailed("res")) && ctx.Entries() == old(ctx.Entries())
      ensures n.VarRef? && Bound(old(ctx.Entries()), n.name).Some? ==>
        ctx.Entries() == old(ctx.Entries()) && Reported(CheckReport(Bound(old(ctx.Entries()), n.name), et, reading), res, old(messages), messages)
      ensures n.Value? ==>
        ctx.Entries() == old(ctx.Entries()) && Reported(CheckReport(ValueBty(n.vt), et, reading), res, old(messages), messages)
      decreases n, 3
    {
      if n.VarRef? {
        var found := ctx.Lookup(n.name);
        if found.None? || found.value.None? {
          res := BindUnbound(n.name, et);
          return;
        }
      }
      var ty := Synthesize(n);
      if ty.Err? {
        return Err(ty.error);
      }
      var rep := CheckReport(ty.value, et, reading);
      if rep.Err? {
        return Err(rep.error);
      }
      messages := messages + rep.value;
      res := Ok(());
    }
  }

  /** How a report ends a check: an abort as it is, otherwise its messages appended. */
  predicate Reported(rep: Result<seq<string>, Abort>, res: Result<(), Abort>, m0: seq<string>, m: seq<string>) {
    (rep.Err? ==> res == Err(rep.error)) && (rep.Ok? ==> res == Ok(()) && m == m0 + rep.value)
  }
}
