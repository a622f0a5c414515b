/**
 * `co_typecheck.h`: kinds (int, char, bool, float, lists, tuples and
 * functions, each carrying a source reference) and `kind_check`, their
 * structural equality that ignores the references.
 */
module CoTypecheck {
  import opened CoTypes

  /** The tags of `kind_tag_t` that carry no children. */
  datatype ScalarTag = KNone | KInt | KChar | KBool | KFloat

  /** `kind_tag_t`. */
  datatype KindTag = KScalar(scalar: ScalarTag) | KList | KTuple | KFunction

  /** `kind_t`: the tag decides which part of the union is present. */
  datatype Kind =
    | Scalar(tag: ScalarTag, ref: SrcRef)
    | ListKind(ref: SrcRef, elem: Kind)
    | TupleKind(ref: SrcRef, fields: seq<Kind>)
    | FunctionKind(ref: SrcRef, args: seq<Kind>, ret: Kind)

  function Tag(k: Kind): KindTag {
    match k
    case Scalar(t, _) => KScalar(t)
    case ListKind(_, _) => KList
    case TupleKind(_, _) => KTuple
    case FunctionKind(_, _, _) => KFunction
  }

  /**
   * `kind_check`: unequal tags fail; a list compares its element kinds, a
   * tuple its field counts and then its fields in order, a function its
   * argument counts, its arguments in order and its return kind; kinds with
   * the same scalar tag are equal.
   */
  function KindCheck(a: Kind, b: Kind): bool
    decreases a, 1
  {
    if Tag(a) != Tag(b) then false
    else match a
      case Scalar(_, _) => true
      case ListKind(_, e) => KindCheck(e, b.elem)
      case TupleKind(_, fs) =>
        |fs| == |b.fields| && AllCheck(fs, b.fields)
      case FunctionKind(_, args, r) =>
        |args| == |b.args| && AllCheck(args, b.args) && KindCheck(r, b.ret)
  }

  /** The loop over tuple fields or function arguments, stopping at the first mismatch. */
  function AllCheck(xs: seq<Kind>, ys: seq<Kind>): bool
    requires |xs| == |ys|
    decreases xs, 0
  {
    if xs == [] then true
    else KindCheck(xs[0], ys[0]) && AllCheck(xs[1..], ys[1..])
  }

  /** A kind with its source references removed. */
  datatype Shape =
    | SScalar(tag: ScalarTag)
    | SList(elem: Shape)
    | STuple(fields: seq<Shape>)
    | SFunction(args: seq<Shape>, ret: Shape)

  function Erase(k: Kind): Shape
    decreases k, 1
  {
    match k
    case Scalar(t, _) => SScalar(t)
    case ListKind(_, e) => SList(Erase(e))
    case TupleKind(_, fs) => STuple(EraseAll(fs))
    case FunctionKind(_, args, r) => SFunction(EraseAll(args), Erase(r))
  }

  function EraseAll(ks: seq<Kind>): (r: seq<Shape>)
    ensures |r| == |ks|
    decreases ks, 0
  {
    if ks == [] then [] else [Erase(ks[0])] + EraseAll(ks[1..])
  }

  /** `kind_check` holds exactly when the two kinds have the same shape once their references are dropped. */
  lemma {:induction false} KindCheckMeaning(a: Kind, b: Kind)
    ensures KindCheck(a, b) <==> Erase(a) == Erase(b)
    decreases a, 1
  {
    match a
    case Scalar(_, _) =>
    case ListKind(_, e) =>
      if b.ListKind? {
        KindCheckMeaning(e, b.elem);
      }
    case TupleKind(_, fs) =>
      if b.TupleKind? && |fs| == |b.fields| {
        AllCheckMeaning(fs, b.fields);
      } else if b.TupleKind? {
        assert |EraseAll(fs)| != |EraseAll(b.fields)|;
      }
    case FunctionKind(_, args, r) =>
      if b.FunctionKind? && |args| == |b.args| {
        AllCheckMeaning(args, b.args);
        KindCheckMeaning(r, b.ret);
      } else if b.FunctionKind? {
        assert |EraseAll(args)| != |EraseAll(b.args)|;
      }
  }

  lemma {:induction false} AllCheckMeaning(xs: seq<Kind>, ys: seq<Kind>)
    requires |xs| == |ys|
    ensures AllCheck(xs, ys) <==> EraseAll(xs) == EraseAll(ys)
    decreases xs, 0
  {
    if xs != [] {
      KindCheckMeaning(xs[0], ys[0]);
      AllCheckMeaning(xs[1..], ys[1..]);
      var ex := EraseAll(xs);
      var ey := EraseAll(ys);
      if ex == ey {
        assert ex[0] == ey[0] && ex[1..] == ey[1..];
      }
    }
  }

  /** Different tags never check, and two scalars with the same tag always do, whatever their references. */
  lemma KindCheckTags(a: Kind, b: Kind)
    ensures Tag(a) != Tag(b) ==> !KindCheck(a, b)
    ensures a.Scalar? && b.Scalar? && a.tag == b.tag ==> KindCheck(a, b)
  {
  }

  /** `kind_check` is an equivalence: reflexive, symmetric and transitive. */
  lemma KindCheckEquivalence(a: Kind, b: Kind, c: Kind)
    ensures KindCheck(a, a)
    ensures KindCheck(a, b) ==> KindCheck(b, a)
    ensures KindCheck(a, b) && KindCheck(b, c) ==> KindCheck(a, c)
  {
    KindCheckMeaning(a, a);
    KindCheckMeaning(a, b);
    KindCheckMeaning(b, a);
    KindCheckMeaning(b, c);
    KindCheckMeaning(a, c);
  }

  /** A tuple or a function checks against another exactly when the counts agree and the parts check pairwise. */
  lemma {:induction false} AllCheckPairwise(xs: seq<Kind>, ys: seq<Kind>)
    requires |xs| == |ys|
    ensures AllCheck(xs, ys) <==> forall i :: 0 <= i < |xs| ==> KindCheck(xs[i], ys[i])
    decreases xs
  {
    if xs != [] {
      AllCheckPairwise(xs[1..], ys[1..]);
      if AllCheck(xs, ys) {
        forall i | 0 <= i < |xs|
          ensures KindCheck(xs[i], ys[i])
        {
          if i > 0 {
            assert xs[1..][i - 1] == xs[i] && ys[1..][i - 1] == ys[i];
          }
        }
      } else if KindCheck(xs[0], ys[0]) {
        var j :| 0 <= j < |xs| - 1 && !KindCheck(xs[1..][j], ys[1..][j]);
        assert xs[1..][j] == xs[j + 1] && ys[1..][j] == ys[j + 1];
      }
    }
  }
}
