/**
 * `co_typing.c`: typing by signature strings. Every term gets a string
 * (`i`, `f`, `b`, `c`, `n` for the base types, `[s]` for an array of `s`,
 * `#name:args` for a call or an operator, `$name` for a variable), and a
 * context maps such strings to others, sorted and searched by bisection
 * with `strcmp`. A key is resolved by following the mapping until it ends.
 */
module CoTyping {
  import opened Wrappers
  import opened CoAst
  import opened CoInfer
  import opened CoTypes
  import Text

  /** `unop_name`. */
  function UnopName(op: UnopType): (s: string)
    ensures s != [] && ':' !in s
  {
    match op
    case Neg => "-"
    case Not => "not"
  }

  /** `binop_name`: the operator as written in the language. */
  function BinopName(op: BinopType): (s: string)
    ensures s != [] && ':' !in s
  {
    match op
    case Add => "+"
    case Sub => "-"
    case Mul => "*"
    case Div => "/"
    case Mod => "%"
    case And => "and"
    case Or => "or"
    case Xor => "xor"
    case Eq => "=="
    case Neq => "!="
    case LtEq => "<="
    case GtEq => ">="
    case Lt => "<"
    case Gt => ">"
  }

  /** Distinct operators have distinct names, so their signatures never collide. */
  lemma BinopNameInjective(a: BinopType, b: BinopType)
    ensures BinopName(a) == BinopName(b) ==> a == b
  {
  }

  /**
   * `ctx_idenity_mapping`: keys starting with a base type, a tuple or an
   * array stand for themselves and may not be bound. The C reads the first
   * byte, which is the terminator of an empty key.
   */
  predicate IdentityMapping(key: string) {
    |key| > 0 && key[0] in "ifcbn(["
  }

  /** `value_signature`: one letter per value kind. */
  function ValueSignature(vt: ValueType): (s: string)
    ensures |s| == 1 && IdentityMapping(s)
  {
    match vt
    case BoolValue => "b"
    case CharValue => "c"
    case FloatValue => "f"
    case IntValue => "i"
    case NoneValue => "n"
  }

  lemma ValueSignatureInjective(a: ValueType, b: ValueType)
    ensures ValueSignature(a) == ValueSignature(b) ==> a == b
  {
  }

  /**
   * The name the C compares for the type that has no value. It is spelled
   * `LANG_TYPENAME_NONE`, which `co_types.h` does not define (the header
   * defines `LANG_TYPENAME_VOID`); this model takes it to be `none`.
   */
  const NoneTypeName: string := "none"

  /**
   * `annotation_signature`: NULL for a missing or malformed annotation.
   * `none` is the type name signed as `n`, which the two revisions spell
   * differently.
   */
  function AnnotationSignature(a: Option<Annot>, none: string): (r: Option<string>)
    ensures r.Some? ==> IdentityMapping(r.value)
  {
    if a.None? then None else AnnotSig(a.value, none)
  }

  function AnnotSig(a: Annot, none: string): (r: Option<string>)
    ensures r.Some? ==> IdentityMapping(r.value)
  {
    if a.name == "array" then
      if |a.children| != 1 then None
      else
        var inner := AnnotSig(a.children[0], none);
        if inner.None? then None else Some("[" + inner.value + "]")
    else if a.name == "string" then Some("[c]")
    else if a.name == none then Some("n")
    else if a.name == "int" then Some("i")
    else if a.name == "float" then Some("f")
    else if a.name == "bool" then Some("b")
    else if a.name == "char" then Some("c")
    else None
  }

  /** The annotation a signature is read back as: the inverse of `AnnotSig`. */
  function SignatureAnnotation(s: string, none: string): (a: Option<Annot>)
    decreases |s|
  {
    if |s| == 1 then BaseAnnotation(s[0], none)
    else if |s| >= 2 && s[0] == '[' && s[|s| - 1] == ']' then
      var inner := SignatureAnnotation(s[1..|s| - 1], none);
      if inner.None? then None else Some(Annot("array", [inner.value]))
    else None
  }

  function BaseAnnotation(c: char, none: string): Option<Annot> {
    match c
    case 'i' => Some(Annot("int", []))
    case 'f' => Some(Annot("float", []))
    case 'b' => Some(Annot("bool", []))
    case 'c' => Some(Annot("char", []))
    case 'n' => Some(Annot(none, []))
    case _ => None
  }

  /** A type name the base types do not already use. */
  predicate FreshNoneName(none: string) {
    none !in {"array", "string", "int", "float", "bool", "char"}
  }

  lemma BaseRoundTrip(c: char, none: string)
    requires FreshNoneName(none)
    ensures BaseAnnotation(c, none).Some? ==> AnnotSig(BaseAnnotation(c, none).value, none) == Some([c])
  {
  }

  /** Reading a signature back as an annotation and signing that gives the signature again. */
  lemma {:induction false} SignatureRoundTrip(s: string, none: string)
    requires FreshNoneName(none)
    ensures SignatureAnnotation(s, none).Some? ==> AnnotSig(SignatureAnnotation(s, none).value, none) == Some(s)
    decreases |s|
  {
    if |s| == 1 {
      BaseRoundTrip(s[0], none);
      assert [s[0]] == s;
    } else if SignatureAnnotation(s, none).Some? {
      var t := s[1..|s| - 1];
      SignatureRoundTrip(t, none);
      assert s == "[" + t + "]";
    }
  }

  /** Every signature an annotation has can be read back, so the two sets coincide. */
  lemma {:induction false} AnnotationSignaturesRead(a: Annot, none: string)
    ensures AnnotSig(a, none).Some? ==> SignatureAnnotation(AnnotSig(a, none).value, none).Some?
  {
    if a.name == "array" && |a.children| == 1 && AnnotSig(a.children[0], none).Some? {
      var t := AnnotSig(a.children[0], none).value;
      AnnotationSignaturesRead(a.children[0], none);
      var s := "[" + t + "]";
      assert s[1..|s| - 1] == t;
    }
  }


  /** The signature of an array: the common one of its elements, `*` when they differ or there are none. */
  function Uniform(sigs: seq<string>): string {
    if |sigs| > 0 && forall i :: 0 <= i < |sigs| ==> sigs[i] == sigs[0] then sigs[0] else "*"
  }

  /** The signatures of a block, one after the other. */
  function Concat(sigs: seq<string>): (s: string)
    ensures |sigs| == 1 ==> s == sigs[0]
  {
    if |sigs| == 0 then "" else Concat(sigs[..|sigs| - 1]) + sigs[|sigs| - 1]
  }

  /** The sub-terms the signature of `n` is built from. */
  function Children(n: Node): (cs: seq<Node>)
    ensures forall i :: 0 <= i < |cs| ==> cs[i] < n
  {
    match n
    case ArrayLit(c) => c
    case Block(c) => c
    case FunCall(_, args) => [args]
    case FunDecl(sign, _, _) => [sign]
    case FunSign(_, argspec, _) => [argspec]
    case Binop(_, l, r) => [l, r]
    case Unop(_, x) => [x]
    case _ => []
  }

  /**
   * The signature of a term. `make_signature` writes a declaration as
   * `$name` (`named`); `infer` gives it the empty signature. Kinds the two
   * functions do not handle have the empty signature.
   */
  function Sig(n: Node, named: bool): string
    decreases n
  {
    match n
    case Value(vt, _) => ValueSignature(vt)
    case VarDecl(name, _) => if named then "$" + name else ""
    case ArrayLit(c) => "[" + Uniform(Sigs(c, named)) + "]"
    case Block(c) => Concat(Sigs(c, named))
    case FunCall(name, args) => "#" + name + ":" + Sig(args, named)
    case FunDecl(sign, _, _) => Sig(sign, named)
    case FunSign(name, argspec, _) => "#" + name + ":" + Sig(argspec, named)
    case Binop(op, l, r) => "#" + BinopName(op) + ":" + Sig(l, named) + Sig(r, named)
    case Unop(op, x) => "#" + UnopName(op) + ":" + Sig(x, named)
    case _ => ""
  }

  /** The signatures of the elements of a sequence. */
  function Sigs(c: seq<Node>, named: bool): (r: seq<string>)
    ensures |r| == |c|
    decreases c
  {
    seq(|c|, i requires 0 <= i < |c| => Sig(c[i], named))
  }

  /** No declaration among the sub-terms the signature is built from. */
  predicate NoVarDecl(n: Node)
    decreases n
  {
    !n.VarDecl? && forall i :: 0 <= i < |Children(n)| ==> NoVarDecl(Children(n)[i])
  }

  /** A declaration without an annotation somewhere among those sub-terms. */
  predicate BareDecl(n: Node)
    decreases n
  {
    (n.VarDecl? && n.vtype.None?) || exists i :: 0 <= i < |Children(n)| && BareDecl(Children(n)[i])
  }

  /** Without declarations, `make_signature` and `infer` agree. */
  lemma {:induction false} SignatureNamingAgrees(n: Node)
    requires NoVarDecl(n)
    ensures Sig(n, true) == Sig(n, false)
    decreases n, 1
  {
    var cs := Children(n);
    if n.ArrayLit? || n.Block? {
      SignaturesNamingAgree(n.content, n);
    } else if |cs| > 0 {
      assert NoVarDecl(cs[0]);
      SignatureNamingAgrees(cs[0]);
      if n.Binop? {
        assert NoVarDecl(cs[1]);
        SignatureNamingAgrees(cs[1]);
      }
    }
  }

  lemma {:induction false} SignaturesNamingAgree(c: seq<Node>, n: Node)
    requires NoVarDecl(n) && (n.ArrayLit? || n.Block?) && c == n.content
    ensures Sigs(c, true) == Sigs(c, false)
    decreases n, 0
  {
    assert Children(n) == c;
    forall i | 0 <= i < |c| ensures Sigs(c, true)[i] == Sigs(c, false)[i] {
      assert NoVarDecl(Children(n)[i]);
      SignatureNamingAgrees(c[i]);
    }
  }

  /** An array whose elements all have signature `s` has signature `[s]`. */
  lemma ArraySignatureUniform(c: seq<Node>, s: string, named: bool)
    requires |c| > 0 && forall i :: 0 <= i < |c| ==> Sig(c[i], named) == s
    ensures Sig(ArrayLit(c), named) == "[" + s + "]"
  {
    var sigs := seq(|c|, i requires 0 <= i < |c| => Sig(c[i], named));
    assert sigs[0] == s;
  }

  /** Two elements with different signatures, or none at all, make the array `[*]`. */
  lemma ArraySignatureMixed(c: seq<Node>, i: nat, j: nat, named: bool)
    requires i < |c| && j < |c| && Sig(c[i], named) != Sig(c[j], named)
    ensures Sig(ArrayLit(c), named) == "[*]"
    ensures Sig(ArrayLit([]), named) == "[*]"
  {
    var sigs := seq(|c|, k requires 0 <= k < |c| => Sig(c[k], named));
    assert sigs[i] != sigs[j];
  }

  /** `make_signature`. */
  method MakeSignature(n: Node) returns (s: string)
    ensures s == Sig(n, true)
    decreases n, 1
  {
    if n.Value? {
      s := ValueSignature(n.vt);
    } else if n.VarDecl? {
      s := "$" + n.name;
    } else if n.ArrayLit? {
      s := MakeArraySignature(n);
    } else if n.Block? {
      s := MakeBlockSignature(n);
    } else if n.FunCall? {
      var a := MakeSignature(n.args);
      s := "#" + n.name + ":" + a;
    } else if n.FunDecl? {
      s := MakeSignature(n.sign);
    } else if n.FunSign? {
      var a := MakeSignature(n.argspec);
      s := "#" + n.name + ":" + a;
    } else if n.Binop? {
      var l := MakeSignature(n.left);
      var r := MakeSignature(n.right);
      s := "#" + BinopName(n.bop) + ":" + l + r;
    } else if n.Unop? {
      var x := MakeSignature(n.inner);
      s := "#" + UnopName(n.uop) + ":" + x;
    } else {
      s := "";
    }
  }

  /** The array loop of `make_signature`, which stops at the first element that differs. */
  method MakeArraySignature(n: Node) returns (s: string)
    requires n.ArrayLit?
    ensures s == Sig(n, true)
    decreases n, 0
  {
    var c := n.content;
    ghost var sigs := seq(|c|, k requires 0 <= k < |c| => Sig(c[k], true));
    var inner: Option<string> := None;
    var i := 0;
    while i < |c|
      invariant 0 <= i <= |c|
      invariant inner.None? <==> i == 0
      invariant inner.Some? ==> inner.value == sigs[0] && forall j :: 0 <= j < i ==> sigs[j] == sigs[0]
    {
      var tmp := MakeSignature(c[i]);
      if inner.None? {
        inner := Some(tmp);
      }
      if tmp != inner.value {
        assert sigs[i] != sigs[0];
        inner := None;
        break;
      }
      i := i + 1;
    }
    if inner.None? {
      inner := Some("*");
    }
    s := "[" + inner.value + "]";
  }

  /** The block loop of `make_signature`. */
  method MakeBlockSignature(n: Node) returns (s: string)
    requires n.Block?
    ensures s == Sig(n, true)
    decreases n, 0
  {
    var c := n.content;
    ghost var sigs := seq(|c|, k requires 0 <= k < |c| => Sig(c[k], true));
    s := "";
    var i := 0;
    while i < |c|
      invariant 0 <= i <= |c|
      invariant s == Concat(sigs[..i])
    {
      var tmp := MakeSignature(c[i]);
      assert sigs[..i + 1][..i] == sigs[..i];
      s := s + tmp;
      i := i + 1;
    }
    assert sigs[..|c|] == sigs;
  }

  /** `ctx_res_t`. */
  datatype CtxRes = CtxOk | CtxOutOfMemory | CtxForbidden

  /** The pairs `es0` with `e` placed among them. */
  ghost predicate InsertedAt(es0: seq<Kvp<string>>, es: seq<Kvp<string>>, e: Kvp<string>) {
    exists i :: 0 <= i <= |es0| && es == es0[..i] + [e] + es0[i..]
  }

  /**
   * `ctx_insert`: refuses a key that stands for itself, then adds the pair
   * where it belongs unless the key is bound already. Allocation in the
   * model does not fail, so it never reports out of memory.
   */
  method CtxInsert(ctx: TyCtx<string>, key: string, val: string) returns (r: Result<CtxRes, Abort>)
    requires ctx.Valid() && !ctx.prefix
    modifies ctx, ctx.kvps
    ensures ctx.Valid() && (ctx.kvps == old(ctx.kvps) || fresh(ctx.kvps))
    ensures IdentityMapping(key) ==> r == Err(AssertFailed("ctx_idenity_mapping(key) == false"))
    ensures !IdentityMapping(key) ==> r.Ok? && r.value != CtxOutOfMemory
    ensures r == Ok(CtxOk) <==> !IdentityMapping(key) && key !in Keys(old(ctx.Entries()))
    ensures r == Ok(CtxOk) ==> InsertedAt(old(ctx.Entries()), ctx.Entries(), (key, val))
    ensures r != Ok(CtxOk) ==> ctx.Entries() == old(ctx.Entries())
    ensures r.Ok? ==> ctx.Entries() == Inserted(old(ctx.Entries()), key, val, false)
  {
    if IdentityMapping(key) {
      return Err(AssertFailed("ctx_idenity_mapping(key) == false"));
    }
    ghost var es := ctx.Entries();
    var ok := ctx.Insert(key, val);
    InsertedFacts(es, key, val, false);
    r := Ok(if ok then CtxOk else CtxForbidden);
  }

  /** What `ctx_lookup` on a sorted context finds: the pair with that key. */
  lemma FoundExact(es: seq<Kvp<string>>, k: string)
    requires Text.StrictlySorted(Keys(es))
    ensures Found(es, k, false).Some? <==> k in Keys(es)
    ensures Found(es, k, false).Some? ==> (k, Found(es, k, false).value) in es
  {
    SearchSorted(Keys(es), k, false);
    var r := BinSearch(Keys(es), 0, |es| - 1, k, false);
    if r.found {
      assert es[r.index] == (k, es[r.index].1);
    }
  }

  /** Where one round of the `ctx_infer` loop goes on to, if it does not stop. */
  ghost function Next(es: seq<Kvp<string>>, k: string): Option<string> {
    var v := Found(es, k, false);
    if v.Some? && v.value != k then v else None
  }

  /** The key `ctx_infer` returns within `fuel` rounds, if it stops by then. */
  ghost function ChainEnd(es: seq<Kvp<string>>, k: string, fuel: nat): Option<string>
    decreases fuel
  {
    if fuel == 0 then None
    else if Next(es, k).None? then Some(k)
    else ChainEnd(es, Next(es, k).value, fuel - 1)
  }

  /** The key reached after `i` rounds (the last one when the loop stopped earlier). */
  ghost function Walk(es: seq<Kvp<string>>, k: string, i: nat): string
    decreases i
  {
    if i == 0 || Next(es, k).None? then k else Walk(es, Next(es, k).value, i - 1)
  }

  /** The `ctx_infer` loop never ends. */
  ghost predicate NeverEnds(es: seq<Kvp<string>>, k: string) {
    forall fuel: nat :: ChainEnd(es, k, fuel).None?
  }

  /** A chain ends at a key with no entry or at a key mapped to itself. */
  lemma {:induction false} ChainEndAnswers(es: seq<Kvp<string>>, k: string, fuel: nat)
    requires Text.StrictlySorted(Keys(es))
    ensures ChainEnd(es, k, fuel).Some? ==>
      var e := ChainEnd(es, k, fuel).value;
      e !in Keys(es) || (e, e) in es
    decreases fuel
  {
    if fuel > 0 {
      if Next(es, k).None? {
        FoundExact(es, k);
      } else {
        ChainEndAnswers(es, Next(es, k).value, fuel - 1);
      }
    }
  }

  /** More rounds do not change where a chain ends. */
  lemma {:induction false} ChainEndStable(es: seq<Kvp<string>>, k: string, fuel: nat, more: nat)
    requires fuel <= more && ChainEnd(es, k, fuel).Some?
    ensures ChainEnd(es, k, more) == ChainEnd(es, k, fuel)
    decreases fuel
  {
    if Next(es, k).Some? {
      ChainEndStable(es, Next(es, k).value, fuel - 1, more - 1);
    }
  }

  /** A chain runs out of rounds exactly when every key it walks through goes on. */
  lemma {:induction false} ChainEndWalk(es: seq<Kvp<string>>, k: string, fuel: nat)
    ensures ChainEnd(es, k, fuel).None? <==> forall i :: 0 <= i < fuel ==> Next(es, Walk(es, k, i)).Some?
    decreases fuel
  {
    if fuel > 0 && Next(es, k).Some? {
      var k1 := Next(es, k).value;
      ChainEndWalk(es, k1, fuel - 1);
      if forall i :: 0 <= i < fuel - 1 ==> Next(es, Walk(es, k1, i)).Some? {
        forall i | 0 <= i < fuel ensures Next(es, Walk(es, k, i)).Some? {
          if i > 0 {
            assert Walk(es, k, i) == Walk(es, k1, i - 1);
          }
        }
      } else {
        var i :| 0 <= i < fuel - 1 && Next(es, Walk(es, k1, i)).None?;
        assert Walk(es, k, i + 1) == Walk(es, k1, i);
      }
    } else if fuel > 0 {
      assert Next(es, Walk(es, k, 0)).None?;
    }
  }

  /** Walking `i` and then `m` rounds is walking `i + m` rounds. */
  lemma {:induction false} WalkShift(es: seq<Kvp<string>>, k: string, i: nat, m: nat)
    ensures Walk(es, k, i + m) == Walk(es, Walk(es, k, i), m)
    decreases i
  {
    if i > 0 && Next(es, k).Some? {
      WalkShift(es, Next(es, k).value, i - 1, m);
    } else if i > 0 {
      WalkOfStop(es, k, m);
      WalkOfStop(es, k, i + m);
    }
  }

  lemma WalkOfStop(es: seq<Kvp<string>>, k: string, m: nat)
    requires Next(es, k).None?
    ensures Walk(es, k, m) == k
  {
  }

  /** A walk that comes back to a key it visited goes on for ever. */
  lemma {:induction false} CycleContinues(es: seq<Kvp<string>>, k: string, i: nat, j: nat, n: nat)
    requires i < j && Walk(es, k, i) == Walk(es, k, j)
    requires forall p :: 0 <= p < j ==> Next(es, Walk(es, k, p)).Some?
    ensures Next(es, Walk(es, k, n)).Some?
    decreases n
  {
    if n >= j {
      WalkShift(es, k, j, n - j);
      WalkShift(es, k, i, n - j);
      CycleContinues(es, k, i, j, n - (j - i));
    }
  }

  /** More distinct items than a set can hold cannot all lie in it. */
  lemma {:induction false} Pigeonhole<T>(s: seq<T>, S: set<T>)
    requires forall i :: 0 <= i < |s| ==> s[i] in S
    requires |s| > |S|
    ensures exists i, j :: 0 <= i < j < |s| && s[i] == s[j]
  {
    var last := s[|s| - 1];
    if exists i :: 0 <= i < |s| - 1 && s[i] == last {
      var i :| 0 <= i < |s| - 1 && s[i] == last;
      assert s[i] == s[|s| - 1];
    } else {
      var t := s[..|s| - 1];
      Pigeonhole(t, S - {last});
      var i, j :| 0 <= i < j < |t| && t[i] == t[j];
      assert s[i] == s[j];
    }
  }

  lemma {:induction false} KeySetSize(es: seq<Kvp<string>>)
    ensures |set k | k in Keys(es)| <= |es|
  {
    if es != [] {
      var init := es[..|es| - 1];
      KeySetSize(init);
      assert (set k | k in Keys(es)) == (set k | k in Keys(init)) + {es[|es| - 1].0} by {
        assert Keys(es) == Keys(init) + [es[|es| - 1].0];
      }
    }
  }

  /**
   * More rounds than the context has pairs without an end mean the walk
   * has come back to a key, so the C loop never ends.
   */
  lemma Divergence(es: seq<Kvp<string>>, k: string)
    requires Text.StrictlySorted(Keys(es))
    requires ChainEnd(es, k, |es| + 1).None?
    ensures NeverEnds(es, k)
  {
    ChainEndWalk(es, k, |es| + 1);
    var w := seq(|es| + 1, i requires 0 <= i <= |es| => Walk(es, k, i));
    var S := set x | x in Keys(es);
    forall i | 0 <= i < |w| ensures w[i] in S {
      assert Next(es, Walk(es, k, i)).Some?;
      FoundExact(es, w[i]);
    }
    KeySetSize(es);
    Pigeonhole(w, S);
    var i, j :| 0 <= i < j < |w| && w[i] == w[j];
    forall fuel: nat ensures ChainEnd(es, k, fuel).None? {
      forall n | 0 <= n < fuel ensures Next(es, Walk(es, k, n)).Some? {
        CycleContinues(es, k, i, j, n);
      }
      ChainEndWalk(es, k, fuel);
    }
  }

  /**
   * `ctx_infer`: follows the mapping from `key` until a key has no entry
   * or maps to itself. The C loop has no bound and runs for ever on a
   * cycle; this one stops after one round more than there are pairs, which
   * is reached only on a cycle.
   */
  method CtxInfer(ctx: TyCtx<string>, key: string) returns (r: Result<string, Abort>)
    requires ctx.Valid() && !ctx.prefix
    ensures r.Ok? <==> ChainEnd(ctx.Entries(), key, ctx.size + 1).Some?
    ensures r.Ok? ==> ChainEnd(ctx.Entries(), key, ctx.size + 1) == Some(r.value)
    ensures r.Err? ==> r.error == Diverges && NeverEnds(ctx.Entries(), key)
  {
    ghost var es := ctx.Entries();
    var cur := key;
    var steps := 0;
    while steps <= ctx.size
      invariant 0 <= steps <= ctx.size + 1
      invariant ChainEnd(es, key, ctx.size + 1) == ChainEnd(es, cur, ctx.size + 1 - steps)
    {
      var next := ctx.Lookup(cur);
      if next.None? || next.value == cur {
        return Ok(cur);
      }
      cur := next.value;
      steps := steps + 1;
    }
    Divergence(es, key);
    r := Err(Diverges);
  }

  /** A key with no entry resolves to itself; one bound to a final key resolves to that key. */
  lemma ChainShortCases(es: seq<Kvp<string>>, k: string, v: string)
    requires Text.StrictlySorted(Keys(es))
    ensures k !in Keys(es) ==> ChainEnd(es, k, 1) == Some(k)
    ensures (k, v) in es && v != k && v !in Keys(es) ==> ChainEnd(es, k, 2) == Some(v)
  {
    FoundExact(es, k);
    FoundExact(es, v);
    if (k, v) in es {
      var i :| 0 <= i < |es| && es[i] == (k, v);
      assert Keys(es)[i] == k;
      var r := BinSearch(Keys(es), 0, |es| - 1, k, false);
      SearchSorted(Keys(es), k, false);
      assert Keys(es)[r.index] == k;
      assert r.index == i by {
        if r.index != i {
          if r.index < i { assert Text.Less(Keys(es)[r.index], Keys(es)[i]); }
          else { assert Text.Less(Keys(es)[i], Keys(es)[r.index]); }
          Text.LessIrreflexive(k);
        }
      }
    }
  }

  const RefstackCap: nat := 32

  /** The stack of source references of `typing_state_t`, which supplies message locations. */
  class RefStack {
    var reftop: int
    const refstack: array<SrcRef>

    ghost predicate Valid()
      reads this
    {
      refstack.Length == RefstackCap
    }

    /** The initial state of `check`: top 0 and every slot the empty reference. */
    constructor()
      ensures Valid() && reftop == 0 && fresh(refstack)
      ensures forall i :: 0 <= i < RefstackCap ==> refstack[i] == NoRef
    {
      reftop := 0;
      refstack := new SrcRef[RefstackCap](_ => NoRef);
    }

    /** `state_get_ref`: no reference below the bottom, the last slot above the top. */
    function GetRef(): (r: SrcRef)
      requires Valid()
      reads this, refstack
      ensures reftop < 0 ==> r == NoRef
      ensures 0 <= reftop < RefstackCap ==> r == refstack[reftop]
      ensures reftop >= RefstackCap ==> r == refstack[RefstackCap - 1]
    {
      if reftop < 0 then NoRef
      else if reftop >= RefstackCap then refstack[RefstackCap - 1]
      else refstack[reftop]
    }

    /**
     * `state_push_ref`: the slot is written only below the capacity. A top
     * still negative after the increment writes before the array.
     */
    method PushRef(ref: SrcRef) returns (r: Result<(), Abort>)
      requires Valid()
      modifies this, refstack
      ensures Valid() && reftop == old(reftop) + 1
      ensures reftop < 0 <==> r == Err(OutOfBounds)
      ensures 0 <= reftop < RefstackCap ==> refstack[..] == old(refstack[..])[reftop := ref] && GetRef() == ref
      ensures reftop < 0 || reftop >= RefstackCap ==> refstack[..] == old(refstack[..])
    {
      reftop := reftop + 1;
      if reftop < 0 {
        return Err(OutOfBounds);
      }
      if reftop < RefstackCap {
        refstack[reftop] := ref;
      }
      r := Ok(());
    }

    /** `state_pop_ref`. */
    method PopRef()
      requires Valid()
      modifies this
      ensures Valid() && reftop == old(reftop) - 1
    {
      reftop := reftop - 1;
    }
  }

  /** The context keeps every pair, and the trace every message. */
  ghost predicate Grows(es0: seq<Kvp<string>>, es: seq<Kvp<string>>, m0: seq<string>, m: seq<string>) {
    (forall e :: e in es0 ==> e in es) && m0 <= m
  }

  lemma GrowsTrans(es0: seq<Kvp<string>>, es1: seq<Kvp<string>>, es2: seq<Kvp<string>>, m0: seq<string>, m1: seq<string>, m2: seq<string>)
    requires Grows(es0, es1, m0, m1) && Grows(es1, es2, m1, m2)
    ensures Grows(es0, es2, m0, m2)
  {
  }

  lemma InsertedKeeps(es0: seq<Kvp<string>>, es: seq<Kvp<string>>, e: Kvp<string>)
    requires InsertedAt(es0, es, e)
    ensures forall x :: x in es0 ==> x in es
  {
    var i :| 0 <= i <= |es0| && es == es0[..i] + [e] + es0[i..];
    forall x | x in es0 ensures x in es {
      var k :| 0 <= k < |es0| && es0[k] == x;
      if k < i {
        assert es[k] == x;
      } else {
        assert es[k + 1] == x;
      }
    }
  }

  const InvalidAnnotationMessage: string := "invalid type annotation"
  const MixedArrayMessage: string := "arrays must contain items of the same type"

  /** `infer` of `co_typing.c` over one context, with the messages it reports to the trace. */
  class Typing {
    const ctx: TyCtx<string>
    var messages: seq<string>

    ghost predicate Valid()
      reads this, ctx, ctx.kvps
    {
      ctx.Valid() && !ctx.prefix
    }

    constructor(ctx: TyCtx<string>)
      requires ctx.Valid() && !ctx.prefix
      ensures Valid() && this.ctx == ctx && messages == []
    {
      this.ctx := ctx;
      messages := [];
    }

    /**
     * `infer`: the signature of the term, as `Sig` without names for the
     * declarations, which bind their names in the context instead. The
     * only way it fails is a declaration without an annotation.
     */
    method Infer(n: Node) returns (res: Result<string, Abort>)
      requires Valid()
      modifies this, ctx, ctx.kvps
      ensures Valid() && Grows(old(ctx.Entries()), ctx.Entries(), old(messages), messages)
      ensures ctx.kvps == old(ctx.kvps) || fresh(ctx.kvps)
      ensures res.Ok? ==> res.value == Sig(n, false)
      ensures res.Err? ==> res.error == NullDereference
      ensures !BareDecl(n) ==> res.Ok?
      ensures NoVarDecl(n) ==> ctx.Entries() == old(ctx.Entries())
      decreases n, 2
    {
      if n.Value? {
        res := Ok(ValueSignature(n.vt));
      } else if n.VarDecl? {
        res := InferVarDecl(n);
      } else if n.ArrayLit? {
        res := InferArray(n);
      } else if n.Block? {
        res := InferBlock(n);
      } else if n.FunCall? {
        res := InferUnder("#" + n.name + ":", n.args, n);
      } else if n.FunDecl? {
        res := InferUnder("", n.sign, n);
      } else if n.FunSign? {
        res := InferUnder("#" + n.name + ":", n.argspec, n);
      } else if n.Binop? {
        res := InferBinop(n);
      } else if n.Unop? {
        res := InferUnder("#" + UnopName(n.uop) + ":", n.inner, n);
      } else {
        res := Ok("");
      }
    }

    /** The cases with a single sub-term: a prefix before its signature. */
    method InferUnder(pre: string, child: Node, ghost parent: Node) returns (res: Result<string, Abort>)
      requires Valid() && Children(parent) == [child]
      requires Sig(parent, false) == pre + Sig(child, false)
      modifies this, ctx, ctx.kvps
      ensures Valid() && Grows(old(ctx.Entries()), ctx.Entries(), old(messages), messages)
      ensures ctx.kvps == old(ctx.kvps) || fresh(ctx.kvps)
      ensures res.Ok? ==> res.value == Sig(parent, false)
      ensures res.Err? ==> res.error == NullDereference
      ensures !BareDecl(parent) ==> res.Ok?
      ensures NoVarDecl(parent) ==> ctx.Entries() == old(ctx.Entries())
      decreases parent, 1
    {
      assert Children(parent)[0] == child;
      assert NoVarDecl(parent) ==> NoVarDecl(Children(parent)[0]);
      assert BareDecl(Children(parent)[0]) ==> BareDecl(parent);
      var t := Infer(child);
      if t.Err? {
        return t;
      }
      res := Ok(pre + t.value);
    }

    /** The binary operator case: left, then right, after the operator name. */
    method InferBinop(n: Node) returns (res: Result<string, Abort>)
      requires Valid() && n.Binop?
      modifies this, ctx, ctx.kvps
      ensures Valid() && Grows(old(ctx.Entries()), ctx.Entries(), old(messages), messages)
      ensures ctx.kvps == old(ctx.kvps) || fresh(ctx.kvps)
      ensures res.Ok? ==> res.value == Sig(n, false)
      ensures res.Err? ==> res.error == NullDereference
      ensures !BareDecl(n) ==> res.Ok?
      ensures NoVarDecl(n) ==> ctx.Entries() == old(ctx.Entries())
      decreases n, 1
    {
      assert Children(n) == [n.left, n.right];
      assert NoVarDecl(n) ==> NoVarDecl(Children(n)[0]) && NoVarDecl(Children(n)[1]);
      assert BareDecl(Children(n)[0]) || BareDecl(Children(n)[1]) ==> BareDecl(n);
      ghost var es, m := ctx.Entries(), messages;
      var l := Infer(n.left);
      if l.Err? {
        return l;
      }
      var r := Infer(n.right);
      GrowsTrans(old(ctx.Entries()), es, ctx.Entries(), old(messages), m, messages);
      if r.Err? {
        return r;
      }
      res := Ok("#" + BinopName(n.bop) + ":" + l.value + r.value);
    }

    /**
     * The declaration case: binds `$name` to the annotation's signature
     * (a name bound already keeps its pair), or reports an invalid
     * annotation. A missing annotation is read through for the message.
     */
    method InferVarDecl(n: Node) returns (res: Result<string, Abort>)
      requires Valid() && n.VarDecl?
      modifies this, ctx, ctx.kvps
      ensures Valid() && (ctx.kvps == old(ctx.kvps) || fresh(ctx.kvps))
      ensures n.vtype.None? ==> res == Err(NullDereference) && ctx.Entries() == old(ctx.Entries()) && messages == old(messages)
      ensures n.vtype.Some? ==> res == Ok("")
      ensures n.vtype.Some? && AnnotSig(n.vtype.value, NoneTypeName).None? ==>
        messages == old(messages) + [InvalidAnnotationMessage] && ctx.Entries() == old(ctx.Entries())
      ensures n.vtype.Some? && AnnotSig(n.vtype.value, NoneTypeName).Some? ==> messages == old(messages)
      ensures n.vtype.Some? && AnnotSig(n.vtype.value, NoneTypeName).Some? && "$" + n.name in Keys(old(ctx.Entries())) ==>
        ctx.Entries() == old(ctx.Entries())
      ensures n.vtype.Some? && AnnotSig(n.vtype.value, NoneTypeName).Some? && "$" + n.name !in Keys(old(ctx.Entries())) ==>
        InsertedAt(old(ctx.Entries()), ctx.Entries(), ("$" + n.name, AnnotSig(n.vtype.value, NoneTypeName).value))
      ensures Grows(old(ctx.Entries()), ctx.Entries(), old(messages), messages)
      decreases n, 1
    {
      var sig := AnnotationSignature(n.vtype, NoneTypeName);
      var key := "$" + n.name;
      if sig.Some? {
        assert !IdentityMapping(key) by { assert key[0] == '$'; }
        var r := CtxInsert(ctx, key, sig.value);
        if r == Ok(CtxOk) {
          InsertedKeeps(old(ctx.Entries()), ctx.Entries(), (key, sig.value));
        }
        res := Ok("");
      } else if n.vtype.None? {
        res := Err(NullDereference);
      } else {
        messages := messages + [InvalidAnnotationMessage];
        res := Ok("");
      }
    }

    /**
     * The array loop: infers the elements up to the first whose signature
     * differs from the first one's, and reports a mixed or empty array.
     */
    method InferArray(n: Node) returns (res: Result<string, Abort>)
      requires Valid() && n.ArrayLit?
      modifies this, ctx, ctx.kvps
      ensures Valid() && Grows(old(ctx.Entries()), ctx.Entries(), old(messages), messages)
      ensures ctx.kvps == old(ctx.kvps) || fresh(ctx.kvps)
      ensures res.Ok? ==> res.value == Sig(n, false)
      ensures res.Err? ==> res.error == NullDereference
      ensures !BareDecl(n) ==> res.Ok?
      ensures NoVarDecl(n) ==> ctx.Entries() == old(ctx.Entries())
      ensures |n.content| == 0 ==> res == Ok("[*]") && messages == old(messages) + [MixedArrayMessage]
      decreases n, 1
    {
      var c := n.content;
      assert Children(n) == c;
      ghost var sigs := seq(|c|, k requires 0 <= k < |c| => Sig(c[k], false));
      ghost var e0, m0 := ctx.Entries(), messages;
      var inner: Option<string> := None;
      var err: Option<Abort> := None;
      var i := 0;
      while i < |c| && err.None?
        decreases |c| - i, if err.None? then 1 else 0
        invariant 0 <= i <= |c|
        invariant Valid() && Grows(e0, ctx.Entries(), m0, messages)
        invariant ctx.kvps == old(ctx.kvps) || fresh(ctx.kvps)
        invariant NoVarDecl(n) ==> ctx.Entries() == e0
        invariant i == 0 && err.None? ==> messages == m0
        invariant err.Some? ==> err.value == NullDereference && BareDecl(n) && i < |c|
        invariant err.None? ==> (inner.None? <==> i == 0)
        invariant err.None? && inner.Some? ==> inner.value == sigs[0] && forall j :: 0 <= j < i ==> sigs[j] == sigs[0]
      {
        ghost var es, m := ctx.Entries(), messages;
        assert NoVarDecl(n) ==> NoVarDecl(c[i]);
        var tmp := Infer(c[i]);
        GrowsTrans(e0, es, ctx.Entries(), m0, m, messages);
        if tmp.Err? {
          assert BareDecl(Children(n)[i]);
          assert BareDecl(n);
          err := Some(tmp.error);
        } else {
          if inner.None? {
            inner := Some(tmp.value);
          }
          if tmp.value != inner.value {
            assert sigs[i] != sigs[0];
            inner := None;
            break;
          }
          i := i + 1;
        }
      }
      if err.Some? {
        return Err(err.value);
      }
      if inner.None? {
        messages := messages + [MixedArrayMessage];
        inner := Some("*");
        assert "[" + inner.value + "]" == "[*]";
      }
      res := Ok("[" + inner.value + "]");
    }

  /** The block loop: the signatures of all the statements, one after the other. */
    method InferBlock(n: Node) returns (res: Result<string, Abort>)
      requires Valid() && n.Block?
      modifies this, ctx, ctx.kvps
      ensures Valid() && Grows(old(ctx.Entries()), ctx.Entries(), old(messages), messages)
      ensures ctx.kvps == old(ctx.kvps) || fresh(ctx.kvps)
      ensures res.Ok? ==> res.value == Sig(n, false)
      ensures res.Err? ==> res.error == NullDereference
      ensures !BareDecl(n) ==> res.Ok?
      ensures NoVarDecl(n) ==> ctx.Entries() == old(ctx.Entries())
      decreases n, 1
    {
      var c := n.content;
      assert Children(n) == c;
      ghost var sigs := seq(|c|, k requires 0 <= k < |c| => Sig(c[k], false));
      ghost var e0, m0 := ctx.Entries(), messages;
      var sign := "";
      var err: Option<Abort> := None;
      var i := 0;
      while i < |c| && err.None?
        decreases |c| - i, if err.None? then 1 else 0
        invariant 0 <= i <= |c|
        invariant Valid() && Grows(e0, ctx.Entries(), m0, messages)
        invariant ctx.kvps == old(ctx.kvps) || fresh(ctx.kvps)
        invariant NoVarDecl(n) ==> ctx.Entries() == e0
        invariant err.Some? ==> err.value == NullDereference && BareDecl(n)
        invariant sign == Concat(sigs[..i])
      {
        ghost var es, m := ctx.Entries(), messages;
        assert NoVarDecl(n) ==> NoVarDecl(c[i]);
        var tmp := Infer(c[i]);
        GrowsTrans(e0, es, ctx.Entries(), m0, m, messages);
        if tmp.Err? {
          assert BareDecl(Children(n)[i]);
          assert BareDecl(n);
          err := Some(tmp.error);
        } else {
          assert sigs[..i + 1][..i] == sigs[..i];
          sign := sign + tmp.value;
          i := i + 1;
        }
      }
      if err.Some? {
        return Err(err.value);
      }
      assert sigs[..|c|] == sigs;
      res := Ok(sign);
    }
  }

  /**
   * `check`: infers the whole tree against an empty context of capacity
   * 16, giving the messages reported.
   */
  method Check(root: Node) returns (res: Result<seq<string>, Abort>)
    ensures res.Err? ==> res.error == NullDereference
    ensures !BareDecl(root) ==> res.Ok?
  {
    var ctx := new TyCtx<string>.Create(16, false);
    var t := new Typing(ctx);
    var r := t.Infer(root);
    if r.Err? {
      return Err(r.error);
    }
    res := Ok(t.messages);
  }
}
