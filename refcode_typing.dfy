/**
 * `infer` and `typing_check` of the reference signature checker
 * (`refcode/co_typing.c`). Every term has a signature string or NULL; the
 * context maps `$name` keys to variable signatures and `#name:args` keys to
 * result signatures, and bodies are checked in a clone of it. The context
 * functions are those of `co_typing.c`, and so is the signature alphabet.
 *
 * `Run` states the whole checker as a function of the term, the context's
 * pairs and the trace's messages; the methods of `Checker` compute it on a
 * `TyCtx` and are proved to agree with it on every input.
 */
module RefcodeTyping {
  import opened Wrappers
  import opened CoAst
  import opened CoInfer
  import opened CoTyping

  /** The type name signed as `n` here: `LANG_TYPENAME_VOID` of `co_types.h`. */
  const VoidTypeName: string := "void"

  const VarDeclMessage: string := "variable declaration: invalid type annotation"
  const ArrayMessage: string := "array definition: arrays must contain items of the same type"
  const UnknownFunctionMessage: string := "function call: unknown function "
  const ReturnAnnotationMessage: string := "function declaration: invalid return type annotation: "
  const ReturnMismatchMessage: string := "function declaration: return type () does not match returned value type."
  const SignatureMessage: string := "function signature: invalid type annotation: "
  const BinopMessage: string := "binary operation: undefined ()"
  const UnopMessage: string := "unary operation: undefined ()"
  const NonBoolMessage: string := "if-condition: non boolean type"
  const EmptyConditionMessage: string := "if-condition: empty"
  const AssignMessage: string := "assignment: variable type does not match value type:\n\t"
  const UndefinedVariableMessage: string := "variable reference: reference to undefined variable"
  const ForeachMessage: string := "for-each: variable type does not match array content"

  /**
   * What one `infer` leaves behind: the signature (`None` for NULL) or how
   * the run aborted, the pairs of the context it was given, and the trace.
   */
  datatype Outcome = Outcome(res: Result<Option<string>, Abort>, es: seq<Kvp<string>>, msgs: seq<string>)

  /** The run produced a signature, not NULL and not an abort. */
  predicate Signs(o: Outcome) {
    o.res.Ok? && o.res.value.Some?
  }

  function Sign(o: Outcome): string
    requires Signs(o)
  {
    o.res.value.value
  }

  /** A NULL signature that is formatted or compared is read through; an abort stays. */
  function Abandon(o: Outcome): (r: Outcome)
    requires !Signs(o)
    ensures r.res.Err? && r.es == o.es && r.msgs == o.msgs
  {
    if o.res.Err? then o else Outcome(Err(NullDereference), o.es, o.msgs)
  }

  // ----- return types -----

  /** `s` is a run of copies of `seg`: the return check of a declaration. */
  predicate Repeats(s: string, seg: string)
    requires |seg| > 0
    decreases |s|
  {
    |s| == 0 || (|seg| <= |s| && s[..|seg|] == seg && Repeats(s[|seg|..], seg))
  }

  /** `k` copies of `seg`, one after the other. */
  function Copies(seg: string, k: nat): string {
    if k == 0 then "" else seg + Copies(seg, k - 1)
  }

  /** `Repeats` holds of exactly the strings made of whole copies of the segment. */
  lemma RepeatsCopies(s: string, seg: string)
    requires |seg| > 0
    ensures Repeats(s, seg) <==> exists k: nat :: s == Copies(seg, k)
  {
    if Repeats(s, seg) {
      var k := CopiesOf(s, seg);
    }
    if exists k: nat :: s == Copies(seg, k) {
      var k: nat :| s == Copies(seg, k);
      CopiesRepeat(seg, k);
    }
  }

  /** How many copies make up a run of them. */
  lemma {:induction false} CopiesOf(s: string, seg: string) returns (k: nat)
    requires |seg| > 0 && Repeats(s, seg)
    ensures s == Copies(seg, k)
    decreases |s|
  {
    if |s| == 0 {
      k := 0;
    } else {
      var j := CopiesOf(s[|seg|..], seg);
      assert s == seg + s[|seg|..];
      k := j + 1;
    }
  }

  lemma {:induction false} CopiesRepeat(seg: string, k: nat)
    requires |seg| > 0
    ensures Repeats(Copies(seg, k), seg)
  {
    if k > 0 {
      CopiesRepeat(seg, k - 1);
      var s := Copies(seg, k);
      assert s[..|seg|] == seg && s[|seg|..] == Copies(seg, k - 1);
    }
  }

  /** The remainder is the one of Euclidean division. */
  lemma ModUnique(x: int, d: int, q: int, r: int)
    requires d > 0 && x == q * d + r && 0 <= r < d
    ensures x % d == r
  {
    var q2, r2 := x / d, x % d;
    assert x == q2 * d + r2;
    if q > q2 {
      assert (q - q2) * d == r2 - r;
      assert (q - q2) * d >= d by { MulAtLeast(q - q2, d); }
    } else if q < q2 {
      assert (q2 - q) * d == r - r2;
      assert (q2 - q) * d >= d by { MulAtLeast(q2 - q, d); }
    }
  }

  lemma MulAtLeast(a: int, d: int)
    requires a >= 1 && d > 0
    ensures a * d >= d
  {
  }

  lemma ModStep(x: int, d: int)
    requires d > 0 && x >= d
    ensures (x - d) % d == x % d
  {
    var q, r := x / d, x % d;
    assert x - d == (q - 1) * d + r;
    ModUnique(x - d, d, q - 1, r);
  }

  /** A run of copies is a multiple of the segment long. */
  lemma {:induction false} RepeatsLength(s: string, seg: string)
    requires |seg| > 0 && Repeats(s, seg)
    ensures |s| % |seg| == 0
    decreases |s|
  {
    if |s| > 0 {
      RepeatsLength(s[|seg|..], seg);
      ModStep(|s|, |seg|);
    }
  }

  /**
   * The return check of `FUN_DECL`: the length must be a multiple of the
   * declared signature's, and every segment at a multiple must be it.
   */
  method ReturnMatches(ret: string, annot: string) returns (m: bool)
    requires |annot| > 0
    ensures m == Repeats(ret, annot)
  {
    m := |ret| % |annot| == 0;
    if !m {
      if Repeats(ret, annot) {
        RepeatsLength(ret, annot);
      }
      return;
    }
    var i := 0;
    while i < |ret|
      invariant 0 <= i <= |ret| && (|ret| - i) % |annot| == 0
      invariant Repeats(ret, annot) == (m && Repeats(ret[i..], annot))
      decreases |ret| - i, if m then 1 else 0
    {
      if |ret| - i < |annot| {
        ModUnique(|ret| - i, |annot|, 0, |ret| - i);
      }
      if ret[i..i + |annot|] != annot {
        assert ret[i..][..|annot|] == ret[i..i + |annot|];
        m := false;
        break;
      }
      assert ret[i..][|annot|..] == ret[i + |annot|..];
      ModStep(|ret| - i, |annot|);
      i := i + |annot|;
    }
    if m {
      assert ret[i..] == [];
    }
  }

  // ----- if conditions -----

  /** One message for each character of the condition's signature that is not `b`. */
  function NonBoolMessages(s: string): (m: seq<string>)
    ensures |m| <= |s| && forall i :: 0 <= i < |m| ==> m[i] == NonBoolMessage
  {
    if s == [] then [] else NonBoolMessages(s[..|s| - 1]) + (if s[|s| - 1] != 'b' then [NonBoolMessage] else [])
  }

  /** What the if rule reports about a condition's signature. */
  function ConditionMessages(s: string): seq<string> {
    NonBoolMessages(s) + (if |s| == 0 then [EmptyConditionMessage] else [])
  }

  /** The condition is accepted exactly when its signature is one or more booleans. */
  lemma {:induction false} ConditionAccepted(s: string)
    ensures ConditionMessages(s) == [] <==> |s| > 0 && forall i :: 0 <= i < |s| ==> s[i] == 'b'
  {
    NonBoolSilent(s);
  }

  lemma {:induction false} NonBoolSilent(s: string)
    ensures NonBoolMessages(s) == [] <==> forall i :: 0 <= i < |s| ==> s[i] == 'b'
    decreases |s|
  {
    if s != [] {
      var p := s[..|s| - 1];
      NonBoolSilent(p);
      assert forall i :: 0 <= i < |p| ==> p[i] == s[i];
    }
  }

  // ----- the context at a use -----

  /** `ctx_infer`: the end of the chain from `key`, or a loop that never ends. */
  ghost function Follow(key: string, es: seq<Kvp<string>>, msgs: seq<string>): Outcome {
    match ChainEnd(es, key, |es| + 1)
    case Some(k) => Outcome(Ok(Some(k)), es, msgs)
    case None => Outcome(Err(Diverges), es, msgs)
  }

  /**
   * A call, an operation or a variable looked up in the context. As written
   * the NULL test after `ctx_infer` never fires, since `ctx_infer` returns
   * the last key it saw; corrected, a key with no pair reports `missing`
   * and has the empty signature.
   */
  ghost function Resolve(key: string, es: seq<Kvp<string>>, msgs: seq<string>, missing: string, reading: Reading): Outcome {
    if reading == Corrected && Found(es, key, false).None? then Outcome(Ok(Some("")), es, msgs + [missing])
    else Follow(key, es, msgs)
  }

  /** As written, a use of an unknown function, operation or variable is never reported: it resolves to its own key. */
  lemma AsWrittenNeverReports(key: string, es: seq<Kvp<string>>, msgs: seq<string>, missing: string)
    requires Text.StrictlySorted(Keys(es)) && key !in Keys(es)
    ensures Resolve(key, es, msgs, missing, AsWritten) == Outcome(Ok(Some(key)), es, msgs)
  {
    ChainShortCases(es, key, key);
    ChainEndStable(es, key, 1, |es| + 1);
  }

  /** Corrected, a use is reported exactly when its key has no pair. */
  lemma CorrectedReportsUnknown(key: string, es: seq<Kvp<string>>, msgs: seq<string>, missing: string)
    requires Text.StrictlySorted(Keys(es))
    ensures key !in Keys(es) ==> Resolve(key, es, msgs, missing, Corrected) == Outcome(Ok(Some("")), es, msgs + [missing])
    ensures key in Keys(es) ==> Resolve(key, es, msgs, missing, Corrected).msgs == msgs
  {
    FoundExact(es, key);
  }

  // ----- the checker as a function -----

  /** The return annotation of a declaration's signature; other terms have none. */
  function ReturnAnnot(sign: Node): Option<Annot> {
    if sign.FunSign? then sign.rettype else None
  }

  /**
   * `infer` of the term on a context holding `es`, with `msgs` in the trace.
   * Signatures are formatted left operand first.
   */
  ghost function Run(n: Node, es: seq<Kvp<string>>, msgs: seq<string>, reading: Reading): Outcome
    decreases n, 1
  {
    match n
    case Value(vt, _) => Outcome(Ok(Some(ValueSignature(vt))), es, msgs)
    case VarDecl(name, vtype) =>
      var sig := AnnotationSignature(vtype, VoidTypeName);
      if sig.Some? then Outcome(Ok(sig), Inserted(es, "$" + name, sig.value, false), msgs)
      else if vtype.None? then Outcome(Err(NullDereference), es, msgs)
      else Outcome(Ok(None), es, msgs + [VarDeclMessage])
    case ArrayLit(_) => RunArray(n, 0, None, es, msgs, reading)
    case Block(_) => RunBlock(n, 0, "", es, msgs, reading)
    case FunCall(name, args) =>
      var a := Run(args, es, msgs, reading);
      if !Signs(a) then Abandon(a)
      else Resolve("#" + name + ":" + Sign(a), a.es, a.msgs, UnknownFunctionMessage, reading)
    case FunDecl(_, _, _) => RunFunDecl(n, es, msgs, reading)
    case FunSign(name, argspec, rettype) =>
      var a := Run(argspec, es, msgs, reading);
      if !Signs(a) then Abandon(a)
      else
        var ret := AnnotationSignature(rettype, VoidTypeName);
        if ret.Some? then Outcome(Ok(Some("")), Inserted(a.es, "#" + name + ":" + Sign(a), ret.value, false), a.msgs)
        else Outcome(Ok(Some("")), a.es, a.msgs + [SignatureMessage])
    case Binop(op, l, r) =>
      var lo := Run(l, es, msgs, reading);
      if lo.res.Err? then lo
      else
        var ro := Run(r, lo.es, lo.msgs, reading);
        if ro.res.Err? then ro
        else if !Signs(lo) || !Signs(ro) then Outcome(Err(NullDereference), ro.es, ro.msgs)
        else Resolve("#" + BinopName(op) + ":" + Sign(lo) + Sign(ro), ro.es, ro.msgs, BinopMessage, reading)
    case Unop(op, x) =>
      var a := Run(x, es, msgs, reading);
      if !Signs(a) then Abandon(a)
      else Resolve("#" + UnopName(op) + ":" + Sign(a), a.es, a.msgs, UnopMessage, reading)
    case IfChain(_, _, _) => RunIf(n, es, msgs, reading)
    case Assign(t, v) =>
      var lo := Run(t, es, msgs, reading);
      if lo.res.Err? then lo
      else
        var ro := Run(v, lo.es, lo.msgs, reading);
        if ro.res.Err? then ro
        else if !Signs(lo) || !Signs(ro) then Outcome(Err(NullDereference), ro.es, ro.msgs)
        else Outcome(Ok(Some("")), ro.es, ro.msgs + (if Sign(lo) == Sign(ro) then [] else [AssignMessage]))
    case VarRef(name) => Resolve("$" + name, es, msgs, UndefinedVariableMessage, reading)
    case Return(x) =>
      var o := Run(x, es, msgs, reading);
      if o.res.Err? then o
      else if o.res.value.None? then (if o.es == [] then o else Outcome(Err(NullDereference), o.es, o.msgs))
      else Follow(Sign(o), o.es, o.msgs)
    case Foreach(vd, coll, during) =>
      var vo := Run(vd, es, msgs, reading);
      if vo.res.Err? then vo
      else
        var co := Run(coll, vo.es, vo.msgs, reading);
        if co.res.Err? then co
        else if !Signs(vo) || !Signs(co) then Outcome(Err(NullDereference), co.es, co.msgs)
        else
          var m := co.msgs + (if Sign(co) == "[" + Sign(vo) + "]" then [] else [ForeachMessage]);
          Run(during, co.es, m, reading)
    case _ => Outcome(Ok(Some("")), es, msgs)
  }

  /** The array rule from element `i` on, `inner` being the first element's signature. */
  ghost function RunArray(n: Node, i: nat, inner: Option<string>, es: seq<Kvp<string>>, msgs: seq<string>, reading: Reading): Outcome
    requires n.ArrayLit? && i <= |n.content|
    decreases n, 0, |n.content| - i
  {
    if i == |n.content| then ArrayEnd(inner, es, msgs)
    else
      var o := Run(n.content[i], es, msgs, reading);
      if !Signs(o) then Abandon(o)
      else
        var first := if inner.None? then Sign(o) else inner.value;
        if Sign(o) != first then ArrayEnd(None, o.es, o.msgs)
        else RunArray(n, i + 1, Some(first), o.es, o.msgs, reading)
  }

  /** The end of the array rule: a mixed or empty array is reported and has `[*]`. */
  function ArrayEnd(inner: Option<string>, es: seq<Kvp<string>>, msgs: seq<string>): Outcome {
    if inner.None? then Outcome(Ok(Some("[*]")), es, msgs + [ArrayMessage])
    else Outcome(Ok(Some("[" + inner.value + "]")), es, msgs)
  }

  /** The block rule from item `i` on, `sign` holding the signatures of the items before. */
  ghost function RunBlock(n: Node, i: nat, sign: string, es: seq<Kvp<string>>, msgs: seq<string>, reading: Reading): Outcome
    requires n.Block? && i <= |n.content|
    decreases n, 0, |n.content| - i
  {
    if i == |n.content| then Outcome(Ok(Some(sign)), es, msgs)
    else
      var o := Run(n.content[i], es, msgs, reading);
      if !Signs(o) then Abandon(o)
      else RunBlock(n, i + 1, sign + Sign(o), o.es, o.msgs, reading)
  }

  /**
   * The declaration rule: the signature is added to the context, the body
   * is checked in a clone, and what it returns must be copies of the
   * declared return signature, no return counting as `n`.
   */
  ghost function RunFunDecl(n: Node, es: seq<Kvp<string>>, msgs: seq<string>, reading: Reading): Outcome
    requires n.FunDecl?
    decreases n, 0
  {
    var so := Run(n.sign, es, msgs, reading);
    if so.res.Err? then so
    else
      var bo := Run(n.body, so.es, so.msgs, reading);
      if bo.res.Err? then Outcome(bo.res, so.es, bo.msgs)
      else
        var annot := AnnotationSignature(ReturnAnnot(n.sign), VoidTypeName);
        if annot.None? then Outcome(Ok(Some("")), so.es, bo.msgs + [ReturnAnnotationMessage])
        else if !Signs(bo) then Outcome(Err(NullDereference), so.es, bo.msgs)
        else
          var ret := if Sign(bo) == "" then "n" else Sign(bo);
          Outcome(Ok(Some("")), so.es, bo.msgs + (if Repeats(ret, annot.value) then [] else [ReturnMismatchMessage]))
  }

  /** The if rule: the condition on the context, then the branches. */
  ghost function RunIf(n: Node, es: seq<Kvp<string>>, msgs: seq<string>, reading: Reading): Outcome
    requires n.IfChain?
    decreases n, 0, 1
  {
    var co := Run(n.cond, es, msgs, reading);
    if !Signs(co) then Abandon(co)
    else RunBranches(n, co.es, co.msgs + ConditionMessages(Sign(co)), reading)
  }

  /** The branch and the rest of the chain, each in a clone of the context. */
  ghost function RunBranches(n: Node, es: seq<Kvp<string>>, msgs: seq<string>, reading: Reading): Outcome
    requires n.IfChain?
    decreases n, 0, 0
  {
    var bo := Run(n.iftrue, es, msgs, reading);
    if bo.res.Err? then Outcome(bo.res, es, bo.msgs)
    else
      var no := Run(n.next, es, bo.msgs, reading);
      if no.res.Err? then Outcome(no.res, es, no.msgs)
      else if !Signs(bo) || !Signs(no) then Outcome(Err(NullDereference), es, no.msgs)
      else Outcome(Ok(Some(Sign(bo) + Sign(no))), es, no.msgs)
  }

  // ----- properties of the rules -----

  /** A declaration's body and an if chain's branches leave the context as the rule found it. */
  lemma ClonesDiscarded(n: Node, es: seq<Kvp<string>>, msgs: seq<string>, reading: Reading)
    requires n.FunDecl? || n.IfChain?
    ensures n.FunDecl? ==> Run(n, es, msgs, reading).es == Run(n.sign, es, msgs, reading).es
    ensures n.IfChain? ==> Run(n, es, msgs, reading).es == Run(n.cond, es, msgs, reading).es
  {
    if n.IfChain? {
      var co := Run(n.cond, es, msgs, reading);
      if Signs(co) {
        assert Run(n, es, msgs, reading) == RunBranches(n, co.es, co.msgs + ConditionMessages(Sign(co)), reading);
      }
    }
  }

  /**
   * `infer` keeps the context sorted, never drops a pair and only appends
   * to the trace.
   */
  lemma {:induction false} RunGrows(n: Node, es: seq<Kvp<string>>, msgs: seq<string>, reading: Reading)
    requires Text.StrictlySorted(Keys(es))
    ensures var o := Run(n, es, msgs, reading); Text.StrictlySorted(Keys(o.es)) && Grows(es, o.es, msgs, o.msgs)
    decreases n, 2
  {
    match n
    case VarDecl(name, vtype) =>
      var sig := AnnotationSignature(vtype, VoidTypeName);
      if sig.Some? {
        InsertedFacts(es, "$" + name, sig.value);
      }
    case ArrayLit(_) => ArrayGrows(n, 0, None, es, msgs, reading);
    case Block(_) => BlockGrows(n, 0, "", es, msgs, reading);
    case FunCall(_, _) => UseGrows(n, es, msgs, reading);
    case Unop(_, _) => UseGrows(n, es, msgs, reading);
    case Return(_) => UseGrows(n, es, msgs, reading);
    case FunSign(_, _, _) => SignGrows(n, es, msgs, reading);
    case Binop(_, _, _) => PairGrows(n, es, msgs, reading);
    case Assign(_, _) => PairGrows(n, es, msgs, reading);
    case Foreach(_, _, _) => ForeachGrows(n, es, msgs, reading);
    case FunDecl(_, _, _) => FunDeclGrows(n, es, msgs, reading);
    case IfChain(_, _, _) => IfGrows(n, es, msgs, reading);
    case _ =>
  }

  /** A use keeps the context it was given and only appends to the trace. */
  lemma {:induction false} UseGrows(n: Node, es: seq<Kvp<string>>, msgs: seq<string>, reading: Reading)
    requires (n.FunCall? || n.Unop? || n.Return?) && Text.StrictlySorted(Keys(es))
    ensures var o := Run(n, es, msgs, reading); Text.StrictlySorted(Keys(o.es)) && Grows(es, o.es, msgs, o.msgs)
    decreases n, 1
  {
    var x := if n.FunCall? then n.args else if n.Unop? then n.inner else n.result;
    RunGrows(x, es, msgs, reading);
  }

  lemma {:induction false} ArrayGrows(n: Node, i: nat, inner: Option<string>, es: seq<Kvp<string>>, msgs: seq<string>, reading: Reading)
    requires n.ArrayLit? && i <= |n.content| && Text.StrictlySorted(Keys(es))
    ensures var o := RunArray(n, i, inner, es, msgs, reading); Text.StrictlySorted(Keys(o.es)) && Grows(es, o.es, msgs, o.msgs)
    decreases n, 1, |n.content| - i
  {
    if i < |n.content| {
      var o := Run(n.content[i], es, msgs, reading);
      RunGrows(n.content[i], es, msgs, reading);
      if Signs(o) {
        var first := if inner.None? then Sign(o) else inner.value;
        if Sign(o) == first {
          ArrayGrows(n, i + 1, Some(first), o.es, o.msgs, reading);
        }
      }
    }
  }

  lemma {:induction false} BlockGrows(n: Node, i: nat, sign: string, es: seq<Kvp<string>>, msgs: seq<string>, reading: Reading)
    requires n.Block? && i <= |n.content| && Text.StrictlySorted(Keys(es))
    ensures var o := RunBlock(n, i, sign, es, msgs, reading); Text.StrictlySorted(Keys(o.es)) && Grows(es, o.es, msgs, o.msgs)
    decreases n, 1, |n.content| - i
  {
    if i < |n.content| {
      var o := Run(n.content[i], es, msgs, reading);
      RunGrows(n.content[i], es, msgs, reading);
      if Signs(o) {
        BlockGrows(n, i + 1, sign + Sign(o), o.es, o.msgs, reading);
      }
    }
  }

  lemma {:induction false} SignGrows(n: Node, es: seq<Kvp<string>>, msgs: seq<string>, reading: Reading)
    requires n.FunSign? && Text.StrictlySorted(Keys(es))
    ensures var o := Run(n, es, msgs, reading); Text.StrictlySorted(Keys(o.es)) && Grows(es, o.es, msgs, o.msgs)
    decreases n, 1
  {
    var a := Run(n.argspec, es, msgs, reading);
    RunGrows(n.argspec, es, msgs, reading);
    var ret := AnnotationSignature(n.rettype, VoidTypeName);
    if Signs(a) && ret.Some? {
      InsertedFacts(a.es, "#" + n.name + ":" + Sign(a), ret.value);
    }
  }

  lemma {:induction false} PairGrows(n: Node, es: seq<Kvp<string>>, msgs: seq<string>, reading: Reading)
    requires (n.Binop? || n.Assign?) && Text.StrictlySorted(Keys(es))
    ensures var o := Run(n, es, msgs, reading); Text.StrictlySorted(Keys(o.es)) && Grows(es, o.es, msgs, o.msgs)
    decreases n, 1
  {
    var l, r := if n.Binop? then n.left else n.target, if n.Binop? then n.right else n.value;
    var lo := Run(l, es, msgs, reading);
    RunGrows(l, es, msgs, reading);
    if lo.res.Ok? {
      var ro := Run(r, lo.es, lo.msgs, reading);
      RunGrows(r, lo.es, lo.msgs, reading);
      GrowsTrans(es, lo.es, ro.es, msgs, lo.msgs, ro.msgs);
      if n.Binop? && ro.res.Ok? && Signs(lo) && Signs(ro) {
        ResolveKeeps("#" + BinopName(n.bop) + ":" + Sign(lo) + Sign(ro), ro.es, ro.msgs, BinopMessage, reading);
      }
    }
  }

  /** A look-up keeps the context and appends at most its message. */
  lemma ResolveKeeps(key: string, es: seq<Kvp<string>>, msgs: seq<string>, missing: string, reading: Reading)
    ensures var o := Resolve(key, es, msgs, missing, reading); o.es == es && msgs <= o.msgs
  {
  }

  lemma {:induction false} ForeachGrows(n: Node, es: seq<Kvp<string>>, msgs: seq<string>, reading: Reading)
    requires n.Foreach? && Text.StrictlySorted(Keys(es))
    ensures var o := Run(n, es, msgs, reading); Text.StrictlySorted(Keys(o.es)) && Grows(es, o.es, msgs, o.msgs)
    decreases n, 1
  {
    var vo := Run(n.vardecl, es, msgs, reading);
    RunGrows(n.vardecl, es, msgs, reading);
    if vo.res.Ok? {
      var co := Run(n.collection, vo.es, vo.msgs, reading);
      RunGrows(n.collection, vo.es, vo.msgs, reading);
      if co.res.Ok? && Signs(vo) && Signs(co) {
        var m := co.msgs + (if Sign(co) == "[" + Sign(vo) + "]" then [] else [ForeachMessage]);
        RunGrows(n.during, co.es, m, reading);
      }
    }
  }

  lemma {:induction false} FunDeclGrows(n: Node, es: seq<Kvp<string>>, msgs: seq<string>, reading: Reading)
    requires n.FunDecl? && Text.StrictlySorted(Keys(es))
    ensures var o := Run(n, es, msgs, reading); Text.StrictlySorted(Keys(o.es)) && Grows(es, o.es, msgs, o.msgs)
    decreases n, 1
  {
    var so := Run(n.sign, es, msgs, reading);
    RunGrows(n.sign, es, msgs, reading);
    if so.res.Ok? {
      RunGrows(n.body, so.es, so.msgs, reading);
    }
  }

  lemma {:induction false} IfGrows(n: Node, es: seq<Kvp<string>>, msgs: seq<string>, reading: Reading)
    requires n.IfChain? && Text.StrictlySorted(Keys(es))
    ensures var o := Run(n, es, msgs, reading); Text.StrictlySorted(Keys(o.es)) && Grows(es, o.es, msgs, o.msgs)
    decreases n, 1
  {
    var co := Run(n.cond, es, msgs, reading);
    RunGrows(n.cond, es, msgs, reading);
    if Signs(co) {
      BranchesGrow(n, co.es, co.msgs + ConditionMessages(Sign(co)), reading);
    }
  }

  lemma {:induction false} BranchesGrow(n: Node, es: seq<Kvp<string>>, msgs: seq<string>, reading: Reading)
    requires n.IfChain? && Text.StrictlySorted(Keys(es))
    ensures var o := RunBranches(n, es, msgs, reading); o.es == es && msgs <= o.msgs
    decreases n, 0
  {
    var bo := Run(n.iftrue, es, msgs, reading);
    RunGrows(n.iftrue, es, msgs, reading);
    if bo.res.Ok? {
      RunGrows(n.next, es, bo.msgs, reading);
    }
  }

  /**
   * The if rule reports about the condition right after the condition's
   * own messages: one per character other than `b`, and one if it is empty.
   */
  lemma IfConditionRule(n: Node, es: seq<Kvp<string>>, msgs: seq<string>, reading: Reading)
    requires n.IfChain? && Text.StrictlySorted(Keys(es)) && Signs(Run(n.cond, es, msgs, reading))
    ensures var co := Run(n.cond, es, msgs, reading);
      co.msgs + ConditionMessages(Sign(co)) <= Run(n, es, msgs, reading).msgs
  {
    var co := Run(n.cond, es, msgs, reading);
    RunGrows(n.cond, es, msgs, reading);
    BranchesGrow(n, co.es, co.msgs + ConditionMessages(Sign(co)), reading);
  }

  /**
   * The return rule of a declaration with a valid return annotation: the
   * mismatch is reported exactly when the body's return signature (`n` for
   * none) is not a concatenation of copies of the annotation's.
   */
  lemma FunDeclReturnRule(n: Node, es: seq<Kvp<string>>, msgs: seq<string>, reading: Reading)
    requires n.FunDecl? && AnnotationSignature(ReturnAnnot(n.sign), VoidTypeName).Some?
    requires var so := Run(n.sign, es, msgs, reading); so.res.Ok? && Signs(Run(n.body, so.es, so.msgs, reading))
    ensures var so := Run(n.sign, es, msgs, reading);
      var bo := Run(n.body, so.es, so.msgs, reading);
      var annot := AnnotationSignature(ReturnAnnot(n.sign), VoidTypeName).value;
      var ret := if Sign(bo) == "" then "n" else Sign(bo);
      Run(n, es, msgs, reading) ==
        Outcome(Ok(Some("")), so.es, bo.msgs + (if exists k: nat :: ret == Copies(annot, k) then [] else [ReturnMismatchMessage]))
  {
    var so := Run(n.sign, es, msgs, reading);
    var bo := Run(n.body, so.es, so.msgs, reading);
    var annot := AnnotationSignature(ReturnAnnot(n.sign), VoidTypeName).value;
    RepeatsCopies(if Sign(bo) == "" then "n" else Sign(bo), annot);
  }

  /** An assignment is reported exactly when the two sides' signatures differ; it has the empty signature. */
  lemma AssignRule(n: Node, es: seq<Kvp<string>>, msgs: seq<string>, reading: Reading)
    requires n.Assign?
    requires var lo := Run(n.target, es, msgs, reading); Signs(lo) && Signs(Run(n.value, lo.es, lo.msgs, reading))
    ensures var lo := Run(n.target, es, msgs, reading);
      var ro := Run(n.value, lo.es, lo.msgs, reading);
      var o := Run(n, es, msgs, reading);
      o.res == Ok(Some("")) && o.es == ro.es && (Sign(lo) == Sign(ro) <==> o.msgs == ro.msgs) &&
      (Sign(lo) != Sign(ro) <==> o.msgs == ro.msgs + [AssignMessage])
  {
  }

  /** A for-each is reported exactly when the collection is not an array of the variable's signature; then the body runs. */
  lemma ForeachRule(n: Node, es: seq<Kvp<string>>, msgs: seq<string>, reading: Reading)
    requires n.Foreach?
    requires var vo := Run(n.vardecl, es, msgs, reading); Signs(vo) && Signs(Run(n.collection, vo.es, vo.msgs, reading))
    ensures var vo := Run(n.vardecl, es, msgs, reading);
      var co := Run(n.collection, vo.es, vo.msgs, reading);
      Run(n, es, msgs, reading) ==
        Run(n.during, co.es, co.msgs + (if Sign(co) == "[" + Sign(vo) + "]" then [] else [ForeachMessage]), reading)
  {
  }

  /** A declaration with an annotation is bound under `$name`, unless the name is bound already. */
  lemma {:induction false} DeclarationBinds(name: string, a: Annot, es: seq<Kvp<string>>, msgs: seq<string>, reading: Reading)
    requires Text.StrictlySorted(Keys(es)) && AnnotSig(a, VoidTypeName).Some?
    ensures var o := Run(VarDecl(name, Some(a)), es, msgs, reading);
      o.res == Ok(AnnotSig(a, VoidTypeName)) && o.msgs == msgs && Text.StrictlySorted(Keys(o.es)) &&
      ("$" + name !in Keys(es) ==> ("$" + name, AnnotSig(a, VoidTypeName).value) in o.es) &&
      forall e :: e in es ==> e in o.es
  {
    InsertedFacts(es, "$" + name, AnnotSig(a, VoidTypeName).value);
  }

  /** Inserting keeps the keys sorted and every pair, and adds the pair when its key is new. */
  lemma InsertedFacts(es: seq<Kvp<string>>, k: string, v: string)
    requires Text.StrictlySorted(Keys(es))
    ensures Text.StrictlySorted(Keys(Inserted(es, k, v, false)))
    ensures k !in Keys(es) ==> (k, v) in Inserted(es, k, v, false)
    ensures forall e :: e in es ==> e in Inserted(es, k, v, false)
    ensures forall j :: j in Keys(Inserted(es, k, v, false)) ==> j in Keys(es) || j == k
  {
    var r := BinSearch(Keys(es), 0, |es| - 1, k, false);
    SearchSorted(Keys(es), k, false);
    if !r.found {
      InsertKeepsSorted(es, r.index, (k, v));
      PlacedFacts(es, r.index, (k, v));
    }
  }

  lemma PlacedFacts(es: seq<Kvp<string>>, i: nat, e: Kvp<string>)
    requires i <= |es|
    ensures var res := es[..i] + [e] + es[i..];
      e in res && (forall x :: x in es ==> x in res) && (forall j :: j in Keys(res) ==> j in Keys(es) || j == e.0)
  {
    var res := es[..i] + [e] + es[i..];
    assert res[i] == e;
    forall x | x in es ensures x in res {
      var p :| 0 <= p < |es| && es[p] == x;
      if p < i { assert res[p] == x; } else { assert res[p + 1] == x; }
    }
    forall j | j in Keys(res) ensures j in Keys(es) || j == e.0 {
      var p :| 0 <= p < |res| && Keys(res)[p] == j;
      if p < i { assert Keys(es)[p] == j; }
      else if p > i { assert Keys(es)[p - 1] == j; }
    }
  }

  // ----- the checker as methods -----

  /** `infer` with the trace it reports to; `reading` says whether the context checks of uses are corrected. */
  class Checker {
    var messages: seq<string>
    const reading: Reading

    constructor(trace: seq<string>, reading: Reading)
      ensures messages == trace && this.reading == reading
    {
      messages := trace;
      this.reading := reading;
    }

    /** `infer`: computes `Run` on the context. */
    method Infer(n: Node, ctx: TyCtx<string>) returns (res: Result<Option<string>, Abort>)
      requires ctx.Valid() && !ctx.prefix
      modifies this, ctx, ctx.kvps
      ensures ctx.Valid() && (ctx.kvps == old(ctx.kvps) || fresh(ctx.kvps))
      ensures Outcome(res, ctx.Entries(), messages) == Run(n, old(ctx.Entries()), old(messages), reading)
      decreases n, 2
    {
      match n
      case Value(vt, _) => res := Ok(Some(ValueSignature(vt)));
      case VarDecl(_, _) => res := InferVarDecl(n, ctx);
      case ArrayLit(_) => res := InferArray(n, ctx);
      case Block(_) => res := InferBlock(n, ctx);
      case FunCall(_, _) => res := InferUse(n, ctx);
      case Unop(_, _) => res := InferUse(n, ctx);
      case FunDecl(_, _, _) => res := InferFunDecl(n, ctx);
      case FunSign(_, _, _) => res := InferFunSign(n, ctx);
      case Binop(_, _, _) => res := InferPair(n, ctx);
      case Assign(_, _) => res := InferPair(n, ctx);
      case IfChain(_, _, _) => res := InferIf(n, ctx);
      case VarRef(name) => res := ResolveKey(ctx, "$" + name, UndefinedVariableMessage);
      case Return(_) => res := InferReturn(n, ctx);
      case Foreach(_, _, _) => res := InferForeach(n, ctx);
      case _ => res := Ok(Some(""));
    }

    /** `ctx_infer` at a use, with the corrected lookup when `reading` says so. */
    method ResolveKey(ctx: TyCtx<string>, key: string, missing: string) returns (res: Result<Option<string>, Abort>)
      requires ctx.Valid() && !ctx.prefix
      modifies this
      ensures Outcome(res, ctx.Entries(), messages) == Resolve(key, ctx.Entries(), old(messages), missing, reading)
    {
      if reading == Corrected {
        var v := ctx.Lookup(key);
        if v.None? {
          messages := messages + [missing];
          return Ok(Some(""));
        }
      }
      res := FollowKey(ctx, key);
    }

    /** `ctx_infer` alone. */
    static method FollowKey(ctx: TyCtx<string>, key: string) returns (res: Result<Option<string>, Abort>)
      requires ctx.Valid() && !ctx.prefix
      ensures forall msgs :: Outcome(res, ctx.Entries(), msgs) == Follow(key, ctx.Entries(), msgs)
    {
      var r := CtxInfer(ctx, key);
      assert ctx.size == |ctx.Entries()|;
      res := if r.Ok? then Ok(Some(r.value)) else Err(Diverges);
    }

    method InferVarDecl(n: Node, ctx: TyCtx<string>) returns (res: Result<Option<string>, Abort>)
      requires ctx.Valid() && !ctx.prefix && n.VarDecl?
      modifies this, ctx, ctx.kvps
      ensures ctx.Valid() && (ctx.kvps == old(ctx.kvps) || fresh(ctx.kvps))
      ensures Outcome(res, ctx.Entries(), messages) == Run(n, old(ctx.Entries()), old(messages), reading)
    {
      var sig := AnnotationSignature(n.vtype, VoidTypeName);
      if sig.Some? {
        var key := "$" + n.name;
        assert !IdentityMapping(key) by { assert key[0] == '$'; }
        var r := CtxInsert(ctx, key, sig.value);
        res := Ok(sig);
      } else if n.vtype.None? {
        res := Err(NullDereference);
      } else {
        messages := messages + [VarDeclMessage];
        res := Ok(None);
      }
    }

    /** The array loop, up to the first element whose signature differs from the first one's. */
    method InferArray(n: Node, ctx: TyCtx<string>) returns (res: Result<Option<string>, Abort>)
      requires ctx.Valid() && !ctx.prefix && n.ArrayLit?
      modifies this, ctx, ctx.kvps
      ensures ctx.Valid() && (ctx.kvps == old(ctx.kvps) || fresh(ctx.kvps))
      ensures Outcome(res, ctx.Entries(), messages) == Run(n, old(ctx.Entries()), old(messages), reading)
      decreases n, 1
    {
      ghost var e0, m0 := ctx.Entries(), messages;
      ghost var k0 := ctx.kvps;
      var c := n.content;
      var inner: Option<string> := None;
      var i := 0;
      var stop := false;
      res := Ok(None);
      while i < |c| && !stop
        invariant 0 <= i <= |c| && ctx.Valid() && !ctx.prefix && (ctx.kvps == k0 || fresh(ctx.kvps))
        invariant !stop ==> RunArray(n, 0, None, e0, m0, reading) == RunArray(n, i, inner, ctx.Entries(), messages, reading)
        invariant stop ==> RunArray(n, 0, None, e0, m0, reading) == Outcome(res, ctx.Entries(), messages)
        decreases |c| - i + (if stop then 0 else 1)
      {
        var t := Infer(c[i], ctx);
        if t.Err? || t.value.None? {
          res := if t.Err? then t else Err(NullDereference);
          stop := true;
        } else {
          if inner.None? {
            inner := t.value;
          }
          if t.value.value != inner.value {
            messages := messages + [ArrayMessage];
            res := Ok(Some("[*]"));
            stop := true;
          } else {
            i := i + 1;
          }
        }
      }
      if !stop {
        if inner.None? {
          messages := messages + [ArrayMessage];
          res := Ok(Some("[*]"));
        } else {
          res := Ok(Some("[" + inner.value + "]"));
        }
      }
    }

    /** The block loop: every item in order, their signatures concatenated. */
    method InferBlock(n: Node, ctx: TyCtx<string>) returns (res: Result<Option<string>, Abort>)
      requires ctx.Valid() && !ctx.prefix && n.Block?
      modifies this, ctx, ctx.kvps
      ensures ctx.Valid() && (ctx.kvps == old(ctx.kvps) || fresh(ctx.kvps))
      ensures Outcome(res, ctx.Entries(), messages) == Run(n, old(ctx.Entries()), old(messages), reading)
      decreases n, 1
    {
      ghost var e0, m0 := ctx.Entries(), messages;
      ghost var k0 := ctx.kvps;
      var c := n.content;
      var sign := "";
      var i := 0;
      var stop := false;
      res := Ok(None);
      while i < |c| && !stop
        invariant 0 <= i <= |c| && ctx.Valid() && !ctx.prefix && (ctx.kvps == k0 || fresh(ctx.kvps))
        invariant !stop ==> RunBlock(n, 0, "", e0, m0, reading) == RunBlock(n, i, sign, ctx.Entries(), messages, reading)
        invariant stop ==> RunBlock(n, 0, "", e0, m0, reading) == Outcome(res, ctx.Entries(), messages)
        decreases |c| - i + (if stop then 0 else 1)
      {
        var t := Infer(c[i], ctx);
        if t.Err? || t.value.None? {
          res := if t.Err? then t else Err(NullDereference);
          stop := true;
        } else {
          sign := sign + t.value.value;
          i := i + 1;
        }
      }
      if !stop {
        res := Ok(Some(sign));
      }
    }

    /** A call or a unary operation: the operand's signature after the name, then the context. */
    method InferUse(n: Node, ctx: TyCtx<string>) returns (res: Result<Option<string>, Abort>)
      requires ctx.Valid() && !ctx.prefix && (n.FunCall? || n.Unop?)
      modifies this, ctx, ctx.kvps
      ensures ctx.Valid() && (ctx.kvps == old(ctx.kvps) || fresh(ctx.kvps))
      ensures Outcome(res, ctx.Entries(), messages) == Run(n, old(ctx.Entries()), old(messages), reading)
      decreases n, 1
    {
      var a := Infer(if n.FunCall? then n.args else n.inner, ctx);
      if a.Err? || a.value.None? {
        return if a.Err? then a else Err(NullDereference);
      }
      if n.FunCall? {
        res := ResolveKey(ctx, "#" + n.name + ":" + a.value.value, UnknownFunctionMessage);
      } else {
        res := ResolveKey(ctx, "#" + UnopName(n.uop) + ":" + a.value.value, UnopMessage);
      }
    }

    /** A binary operation or an assignment: both operands on the context, then the rule. */
    method InferPair(n: Node, ctx: TyCtx<string>) returns (res: Result<Option<string>, Abort>)
      requires ctx.Valid() && !ctx.prefix && (n.Binop? || n.Assign?)
      modifies this, ctx, ctx.kvps
      ensures ctx.Valid() && (ctx.kvps == old(ctx.kvps) || fresh(ctx.kvps))
      ensures Outcome(res, ctx.Entries(), messages) == Run(n, old(ctx.Entries()), old(messages), reading)
      decreases n, 1
    {
      var l := Infer(if n.Binop? then n.left else n.target, ctx);
      if l.Err? {
        return l;
      }
      var r := Infer(if n.Binop? then n.right else n.value, ctx);
      if r.Err? {
        return r;
      }
      if l.value.None? || r.value.None? {
        return Err(NullDereference);
      }
      if n.Binop? {
        res := ResolveKey(ctx, "#" + BinopName(n.bop) + ":" + l.value.value + r.value.value, BinopMessage);
      } else {
        if l.value.value != r.value.value {
          messages := messages + [AssignMessage];
        }
        res := Ok(Some(""));
      }
    }

    method InferFunSign(n: Node, ctx: TyCtx<string>) returns (res: Result<Option<string>, Abort>)
      requires ctx.Valid() && !ctx.prefix && n.FunSign?
      modifies this, ctx, ctx.kvps
      ensures ctx.Valid() && (ctx.kvps == old(ctx.kvps) || fresh(ctx.kvps))
      ensures Outcome(res, ctx.Entries(), messages) == Run(n, old(ctx.Entries()), old(messages), reading)
      decreases n, 1
    {
      var ret := AnnotationSignature(n.rettype, VoidTypeName);
      var a := Infer(n.argspec, ctx);
      if a.Err? || a.value.None? {
        return if a.Err? then a else Err(NullDereference);
      }
      var key := "#" + n.name + ":" + a.value.value;
      if ret.Some? {
        assert !IdentityMapping(key) by { assert key[0] == '#'; }
        var r := CtxInsert(ctx, key, ret.value);
      } else {
        messages := messages + [SignatureMessage];
      }
      res := Ok(Some(""));
    }

    method InferFunDecl(n: Node, ctx: TyCtx<string>) returns (res: Result<Option<string>, Abort>)
      requires ctx.Valid() && !ctx.prefix && n.FunDecl?
      modifies this, ctx, ctx.kvps
      ensures ctx.Valid() && (ctx.kvps == old(ctx.kvps) || fresh(ctx.kvps))
      ensures Outcome(res, ctx.Entries(), messages) == Run(n, old(ctx.Entries()), old(messages), reading)
      decreases n, 1
    {
      var s := Infer(n.sign, ctx);
      if s.Err? {
        return s;
      }
      var body := new TyCtx<string>.Clone(ctx);
      var b := Infer(n.body, body);
      if b.Err? {
        return b;
      }
      var annot := AnnotationSignature(ReturnAnnot(n.sign), VoidTypeName);
      if annot.None? {
        messages := messages + [ReturnAnnotationMessage];
        return Ok(Some(""));
      }
      if b.value.None? {
        return Err(NullDereference);
      }
      var ret := if b.value.value == "" then "n" else b.value.value;
      var ok := ReturnMatches(ret, annot.value);
      if !ok {
        messages := messages + [ReturnMismatchMessage];
      }
      res := Ok(Some(""));
    }

    /** The condition loop: one message per character that is not `b`, and one for an empty signature. */
    method CheckCondition(s: string)
      modifies this
      ensures messages == old(messages) + ConditionMessages(s)
    {
      var i := 0;
      while i < |s|
        invariant 0 <= i <= |s|
        invariant messages == old(messages) + NonBoolMessages(s[..i])
      {
        assert s[..i + 1][..i] == s[..i];
        if s[i] != 'b' {
          messages := messages + [NonBoolMessage];
        }
        i := i + 1;
      }
      assert s[..i] == s;
      if |s| == 0 {
        messages := messages + [EmptyConditionMessage];
      }
    }

    method InferIf(n: Node, ctx: TyCtx<string>) returns (res: Result<Option<string>, Abort>)
      requires ctx.Valid() && !ctx.prefix && n.IfChain?
      modifies this, ctx, ctx.kvps
      ensures ctx.Valid() && (ctx.kvps == old(ctx.kvps) || fresh(ctx.kvps))
      ensures Outcome(res, ctx.Entries(), messages) == Run(n, old(ctx.Entries()), old(messages), reading)
      decreases n, 1, 1
    {
      var c := Infer(n.cond, ctx);
      if c.Err? || c.value.None? {
        return if c.Err? then c else Err(NullDereference);
      }
      CheckCondition(c.value.value);
      res := InferBranches(n, ctx);
    }

    /** The branch and the rest of the chain, each on a clone: the context is left as it was. */
    method InferBranches(n: Node, ctx: TyCtx<string>) returns (res: Result<Option<string>, Abort>)
      requires ctx.Valid() && !ctx.prefix && n.IfChain?
      modifies this
      ensures Outcome(res, ctx.Entries(), messages) == RunBranches(n, ctx.Entries(), old(messages), reading)
      decreases n, 1, 0
    {
      var bctx := new TyCtx<string>.Clone(ctx);
      var b := Infer(n.iftrue, bctx);
      if b.Err? {
        return b;
      }
      var nctx := new TyCtx<string>.Clone(ctx);
      var x := Infer(n.next, nctx);
      if x.Err? {
        return x;
      }
      if b.value.None? || x.value.None? {
        return Err(NullDereference);
      }
      res := Ok(Some(b.value.value + x.value.value));
    }

    /** `ctx_infer` of the result's signature; a NULL one is read only by a search of a non-empty context. */
    method InferReturn(n: Node, ctx: TyCtx<string>) returns (res: Result<Option<string>, Abort>)
      requires ctx.Valid() && !ctx.prefix && n.Return?
      modifies this, ctx, ctx.kvps
      ensures ctx.Valid() && (ctx.kvps == old(ctx.kvps) || fresh(ctx.kvps))
      ensures Outcome(res, ctx.Entries(), messages) == Run(n, old(ctx.Entries()), old(messages), reading)
      decreases n, 1
    {
      var r := Infer(n.result, ctx);
      if r.Err? {
        return r;
      }
      if r.value.None? {
        assert |ctx.Entries()| == ctx.size;
        return if ctx.size == 0 then r else Err(NullDereference);
      }
      res := FollowKey(ctx, r.value.value);
    }

    method InferForeach(n: Node, ctx: TyCtx<string>) returns (res: Result<Option<string>, Abort>)
      requires ctx.Valid() && !ctx.prefix && n.Foreach?
      modifies this, ctx, ctx.kvps
      ensures ctx.Valid() && (ctx.kvps == old(ctx.kvps) || fresh(ctx.kvps))
      ensures Outcome(res, ctx.Entries(), messages) == Run(n, old(ctx.Entries()), old(messages), reading)
      decreases n, 1
    {
      var v := Infer(n.vardecl, ctx);
      if v.Err? {
        return v;
      }
      var c := Infer(n.collection, ctx);
      if c.Err? {
        return c;
      }
      if v.value.None? || c.value.None? {
        return Err(NullDereference);
      }
      ghost var es, m := ctx.Entries(), messages;
      if c.value.value != "[" + v.value.value + "]" {
        messages := messages + [ForeachMessage];
      } else {
        assert messages == m + [];
      }
      assert Run(n, old(ctx.Entries()), old(messages), reading) == Run(n.during, es, messages, reading);
      res := Infer(n.during, ctx);
    }
  }

  // ----- typing_check -----

  /** The signature the seeds give float `==` and `!=`: `f` as written, `b` corrected. */
  function FloatEqualitySign(reading: Reading): string {
    if reading == AsWritten then "f" else "b"
  }

  function SeedsBefore(): seq<Kvp<string>> {
    [("#+:ff", "f"), ("#-:ff", "f"), ("#*:ff", "f"), ("#/:ff", "f"),
     ("#+:ii", "i"), ("#-:ii", "i"), ("#*:ii", "i"), ("#/:ii", "i"),
     ("#>:ii", "b"), ("#<:ii", "b"), ("#<=:ii", "b"), ("#>=:ii", "b"), ("#==:ii", "b"), ("#!=:ii", "b"),
     ("#>:ff", "b"), ("#<:ff", "b"), ("#<=:ff", "b"), ("#>=:ff", "b")]
  }

  function SeedsAfter(): seq<Kvp<string>> {
    [("#-:f", "f"), ("#-:i", "i"), ("#%:ii", "i"), ("#not:b", "b"), ("#and:bb", "b"), ("#or:bb", "b")]
  }

  /** The operator signatures `typing_check` inserts before inferring, in its order. */
  function Seeds(reading: Reading): (ps: seq<Kvp<string>>)
    ensures |ps| == 26 && ps[..18] == SeedsBefore()
  {
    SeedsBefore() + [("#==:ff", FloatEqualitySign(reading)), ("#!=:ff", FloatEqualitySign(reading))] + SeedsAfter()
  }

  /** The key of an operator or a function: never one that stands for itself. */
  predicate OperatorKey(k: string) {
    |k| > 0 && k[0] == '#'
  }

  /** Keys that are all operator keys. */
  predicate OperatorKeys(ps: seq<Kvp<string>>) {
    forall i :: 0 <= i < |ps| ==> OperatorKey(ps[i].0)
  }

  lemma SeedKeys(reading: Reading)
    ensures OperatorKeys(Seeds(reading))
  {
    var h, t := SeedsBefore(), SeedsAfter();
    forall i | 0 <= i < |h| ensures OperatorKey(h[i].0) {
      assert Keys(h) == ["#+:ff", "#-:ff", "#*:ff", "#/:ff", "#+:ii", "#-:ii", "#*:ii", "#/:ii",
        "#>:ii", "#<:ii", "#<=:ii", "#>=:ii", "#==:ii", "#!=:ii", "#>:ff", "#<:ff", "#<=:ff", "#>=:ff"];
      assert h[i].0 in Keys(h);
    }
    forall i | 0 <= i < |t| ensures OperatorKey(t[i].0) {
      assert Keys(t) == ["#-:f", "#-:i", "#%:ii", "#not:b", "#and:bb", "#or:bb"];
      assert t[i].0 in Keys(t);
    }
    var ps := Seeds(reading);
    forall i | 0 <= i < |ps| ensures OperatorKey(ps[i].0) {
      if i < 18 { assert ps[i] == h[i]; }
      else if i >= 20 { assert ps[i] == t[i - 20]; }
    }
  }

  /** The pairs of an empty context after inserting `ps` in order. */
  ghost function Seeded(ps: seq<Kvp<string>>): seq<Kvp<string>>
    decreases |ps|
  {
    if ps == [] then [] else Inserted(Seeded(ps[..|ps| - 1]), ps[|ps| - 1].0, ps[|ps| - 1].1, false)
  }

  /** The seeded context is sorted and has keys of the pairs only. */
  lemma {:induction false} SeededFacts(ps: seq<Kvp<string>>)
    ensures Text.StrictlySorted(Keys(Seeded(ps)))
    ensures forall k :: k in Keys(Seeded(ps)) ==> k in Keys(ps)
    decreases |ps|
  {
    if ps != [] {
      var pre := ps[..|ps| - 1];
      SeededFacts(pre);
      InsertedFacts(Seeded(pre), ps[|ps| - 1].0, ps[|ps| - 1].1);
      forall k | k in Keys(pre) ensures k in Keys(ps) {
        var i :| 0 <= i < |pre| && Keys(pre)[i] == k;
        assert Keys(ps)[i] == k;
      }
      assert Keys(ps)[|ps| - 1] == ps[|ps| - 1].0;
    }
  }

  /** A pair whose key no earlier pair has is in the seeded context. */
  lemma {:induction false} SeededHas(ps: seq<Kvp<string>>, j: nat)
    requires j < |ps| && ps[j].0 !in Keys(ps[..j])
    ensures ps[j] in Seeded(ps)
    decreases |ps|
  {
    var pre := ps[..|ps| - 1];
    SeededFacts(pre);
    InsertedFacts(Seeded(pre), ps[|ps| - 1].0, ps[|ps| - 1].1);
    if j == |ps| - 1 {
      assert pre == ps[..j];
    } else {
      assert pre[..j] == ps[..j] && pre[j] == ps[j];
      SeededHas(pre, j);
    }
  }

  /** A pair with a fresh key and a value that is no key resolves to its value. */
  lemma SeedResolves(ps: seq<Kvp<string>>, j: nat, msgs: seq<string>, missing: string, reading: Reading)
    requires j < |ps| && OperatorKeys(ps) && ps[j].0 !in Keys(ps[..j]) && !OperatorKey(ps[j].1)
    ensures Resolve(ps[j].0, Seeded(ps), msgs, missing, reading) == Outcome(Ok(Some(ps[j].1)), Seeded(ps), msgs)
  {
    SeededBinding(ps, j);
    BoundResolves(Seeded(ps), ps[j].0, ps[j].1, msgs, missing, reading);
  }

  lemma SeededBinding(ps: seq<Kvp<string>>, j: nat)
    requires j < |ps| && OperatorKeys(ps) && ps[j].0 !in Keys(ps[..j]) && !OperatorKey(ps[j].1)
    ensures var es := Seeded(ps);
      Text.StrictlySorted(Keys(es)) && ps[j] in es && ps[j].1 != ps[j].0 && ps[j].1 !in Keys(es)
  {
    var es := Seeded(ps);
    var e := ps[j];
    SeededFacts(ps);
    SeededHas(ps, j);
    forall k | k in Keys(ps) ensures OperatorKey(k) {
      var i :| 0 <= i < |ps| && Keys(ps)[i] == k;
    }
    assert e.1 != e.0 by { assert OperatorKey(ps[j].0); }
  }

  /** A key bound to a value that is no key resolves to the value, in both readings. */
  lemma BoundResolves(es: seq<Kvp<string>>, k: string, v: string, msgs: seq<string>, missing: string, reading: Reading)
    requires Text.StrictlySorted(Keys(es)) && (k, v) in es && v != k && v !in Keys(es)
    ensures Resolve(k, es, msgs, missing, reading) == Outcome(Ok(Some(v)), es, msgs)
  {
    ChainShortCases(es, k, v);
    ChainEndStable(es, k, 2, |es| + 1);
    FoundExact(es, k);
    assert k in Keys(es) by { var i :| 0 <= i < |es| && es[i] == (k, v); assert Keys(es)[i] == k; }
  }

  /** An operator on two values of one base type, checked in a context seeded with `ps`. */
  lemma SeededOperation(op: BinopType, vt: ValueType, ps: seq<Kvp<string>>, j: nat, msgs: seq<string>, reading: Reading)
    requires j < |ps| && ps[j].0 == "#" + BinopName(op) + ":" + ValueSignature(vt) + ValueSignature(vt)
    requires OperatorKeys(ps) && ps[j].0 !in Keys(ps[..j]) && !OperatorKey(ps[j].1)
    ensures Run(Binop(op, Value(vt, false), Value(vt, false)), Seeded(ps), msgs, reading).res == Ok(Some(ps[j].1))
  {
    ValuesOperation(op, vt, Seeded(ps), msgs, reading);
    SeedResolves(ps, j, msgs, BinopMessage, reading);
  }

  /** An operator on two values is looked up under its name and the values' signatures. */
  lemma ValuesOperation(op: BinopType, vt: ValueType, es: seq<Kvp<string>>, msgs: seq<string>, reading: Reading)
    ensures var t := ValueSignature(vt);
      Run(Binop(op, Value(vt, false), Value(vt, false)), es, msgs, reading) == Resolve("#" + BinopName(op) + ":" + t + t, es, msgs, BinopMessage, reading)
  {
    assert Run(Value(vt, false), es, msgs, reading) == Outcome(Ok(Some(ValueSignature(vt))), es, msgs);
  }

  /** The key list of the seeds before float equality. */
  lemma SeedsBeforeKeys()
    ensures Keys(SeedsBefore()) == ["#+:ff", "#-:ff", "#*:ff", "#/:ff", "#+:ii", "#-:ii", "#*:ii", "#/:ii",
      "#>:ii", "#<:ii", "#<=:ii", "#>=:ii", "#==:ii", "#!=:ii", "#>:ff", "#<:ff", "#<=:ff", "#>=:ff"]
  {
  }

  lemma FloatEqualityKeysFresh()
    ensures "#==:ff" !in Keys(SeedsBefore()) && "#!=:ff" !in Keys(SeedsBefore()) + ["#==:ff"]
  {
    SeedsBeforeKeys();
  }

  lemma SeedsAround(reading: Reading)
    ensures var ps := Seeds(reading);
      ps[18] == ("#==:ff", FloatEqualitySign(reading)) && ps[19] == ("#!=:ff", FloatEqualitySign(reading)) &&
      ps[..19] == SeedsBefore() + [ps[18]]
  {
  }

  /** As written, `==` and `!=` of two floats have the float signature. */
  lemma FloatEqualityAsWritten(msgs: seq<string>)
    ensures Run(Binop(Eq, Value(FloatValue, false), Value(FloatValue, false)), Seeded(Seeds(AsWritten)), msgs, AsWritten).res == Ok(Some("f"))
    ensures Run(Binop(Neq, Value(FloatValue, false), Value(FloatValue, false)), Seeded(Seeds(AsWritten)), msgs, AsWritten).res == Ok(Some("f"))
  {
    FloatEquality(AsWritten, msgs);
  }

  /** Corrected, they are boolean, like every other comparison. */
  lemma FloatEqualityCorrected(msgs: seq<string>)
    ensures Run(Binop(Eq, Value(FloatValue, false), Value(FloatValue, false)), Seeded(Seeds(Corrected)), msgs, Corrected).res == Ok(Some("b"))
    ensures Run(Binop(Neq, Value(FloatValue, false), Value(FloatValue, false)), Seeded(Seeds(Corrected)), msgs, Corrected).res == Ok(Some("b"))
  {
    FloatEquality(Corrected, msgs);
  }

  lemma FloatEquality(reading: Reading, msgs: seq<string>)
    ensures Run(Binop(Eq, Value(FloatValue, false), Value(FloatValue, false)), Seeded(Seeds(reading)), msgs, reading).res == Ok(Some(FloatEqualitySign(reading)))
    ensures Run(Binop(Neq, Value(FloatValue, false), Value(FloatValue, false)), Seeded(Seeds(reading)), msgs, reading).res == Ok(Some(FloatEqualitySign(reading)))
  {
    var ps := Seeds(reading);
    SeedKeys(reading);
    SeedsAround(reading);
    FloatEqualityKeysFresh();
    assert ps[..18] == SeedsBefore();
    assert Keys(ps[..19]) == Keys(SeedsBefore()) + ["#==:ff"];
    assert "#" + BinopName(Eq) + ":" + "f" + "f" == "#==:ff";
    assert "#" + BinopName(Neq) + ":" + "f" + "f" == "#!=:ff";
    SeededOperation(Eq, FloatValue, ps, 18, msgs, reading);
    SeededOperation(Neq, FloatValue, ps, 19, msgs, reading);
  }

  lemma IntegerKeysFresh()
    ensures SeedsBefore()[4] == ("#+:ii", "i") && "#+:ii" !in Keys(SeedsBefore()[..4])
    ensures SeedsBefore()[12] == ("#==:ii", "b") && "#==:ii" !in Keys(SeedsBefore()[..12])
  {
    SeedsBeforeKeys();
    assert Keys(SeedsBefore()[..4]) == Keys(SeedsBefore())[..4];
    assert Keys(SeedsBefore()[..12]) == Keys(SeedsBefore())[..12];
  }

  /** Integer addition is integer and integer equality boolean, in both readings. */
  lemma IntegerSeeds(reading: Reading, msgs: seq<string>)
    ensures Run(Binop(Add, Value(IntValue, false), Value(IntValue, false)), Seeded(Seeds(reading)), msgs, reading).res == Ok(Some("i"))
    ensures Run(Binop(Eq, Value(IntValue, false), Value(IntValue, false)), Seeded(Seeds(reading)), msgs, reading).res == Ok(Some("b"))
  {
    var ps := Seeds(reading);
    SeedKeys(reading);
    IntegerKeysFresh();
    assert ps[..4] == SeedsBefore()[..4] && ps[..12] == SeedsBefore()[..12];
    assert ps[4] == SeedsBefore()[4] && ps[12] == SeedsBefore()[12];
    assert "#" + BinopName(Add) + ":" + "i" + "i" == "#+:ii";
    assert "#" + BinopName(Eq) + ":" + "i" + "i" == "#==:ii";
    SeededOperation(Add, IntValue, ps, 4, msgs, reading);
    SeededOperation(Eq, IntValue, ps, 12, msgs, reading);
  }

  /** The seeding loop: each pair inserted in order. */
  method Seed(ctx: TyCtx<string>, ps: seq<Kvp<string>>)
    requires ctx.Valid() && !ctx.prefix && ctx.Entries() == [] && OperatorKeys(ps)
    modifies ctx, ctx.kvps
    ensures ctx.Valid() && (ctx.kvps == old(ctx.kvps) || fresh(ctx.kvps))
    ensures ctx.Entries() == Seeded(ps)
  {
    var i := 0;
    while i < |ps|
      invariant 0 <= i <= |ps| && ctx.Valid() && !ctx.prefix && (ctx.kvps == old(ctx.kvps) || fresh(ctx.kvps))
      invariant ctx.Entries() == Seeded(ps[..i])
    {
      assert !IdentityMapping(ps[i].0) by { assert OperatorKey(ps[i].0); }
      var r := CtxInsert(ctx, ps[i].0, ps[i].1);
      assert ps[..i + 1][..i] == ps[..i];
      i := i + 1;
    }
    assert ps[..i] == ps;
  }

  /**
   * `typing_check`: a context of capacity 16 seeded with the operator
   * signatures, then `infer` of the root into the trace. Besides the
   * context it gives what `infer` returned and the messages.
   */
  method TypingCheck(root: Node, trace: seq<string>, reading: Reading) returns (ctx: TyCtx<string>, res: Result<Option<string>, Abort>, messages: seq<string>)
    ensures ctx.Valid() && !ctx.prefix
    ensures Outcome(res, ctx.Entries(), messages) == Run(root, Seeded(Seeds(reading)), trace, reading)
  {
    ctx := new TyCtx<string>.Create(16, false);
    SeedKeys(reading);
    Seed(ctx, Seeds(reading));
    var checker := new Checker(trace, reading);
    res := checker.Infer(root, ctx);
    messages := checker.messages;
  }
}
