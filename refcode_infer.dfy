/**
 * The `ti_*` inference functions of the reference copy `refcode/co_infer.c`
 * (its `find`, `connect`, `unify`, `mt_*` and `tyctx_*` are those of
 * `CoInfer`, with the context searched by `strncmp`). Only literals and
 * variable references infer a type; the other node kinds are stubs that
 * answer NULL.
 */
module RefcodeInfer {
  import opened Wrappers
  import opened TypeGraph
  import opened HmEngine
  import opened CoInfer
  import opened CoAst

  /** The static `vtypes` table. */
  const ValueTypes: seq<Ty> := [TCon("none", []), TCon("int", []), TCon("bool", []), TCon("char", []), TCon("float", [])]

  /** `ti_value`: the table entry indexed by the enumerator. */
  function TiValue(vt: ValueType): (t: Ty)
    ensures t.TCon? && t.args == []
  {
    ValueTypes[Ordinal(vt)]
  }

  /** The table's order matches the enumeration: each value type gets the constructor of its own name, and no two share one. */
  lemma ValueTableMatchesEnum(vt: ValueType, vt2: ValueType)
    ensures TiValue(NoneValue).name == "none" && TiValue(IntValue).name == "int" && TiValue(BoolValue).name == "bool"
    ensures TiValue(CharValue).name == "char" && TiValue(FloatValue).name == "float"
    ensures TiValue(vt) == TiValue(vt2) <==> vt == vt2
  {
  }

  /** `ti_instantiate` on a possibly NULL scheme: the scheme's type, read through the pointer. */
  function TiInstantiate(fa: Option<Scheme>): (r: Result<Ty, Abort>)
    ensures fa.None? <==> r == Err(NullDereference)
  {
    match fa
    case None => Err(NullDereference)
    case Some(s) => Ok(s.ty)
  }

  /** `ti_generalize`: a scheme quantifying no variables. */
  function TiGeneralize(t: Ty): (s: Scheme)
    ensures s.tyvars == []
  {
    Forall(t, [])
  }

  /** Instantiating a generalized type gives the type back. */
  lemma InstantiateGeneralize(t: Ty)
    ensures TiInstantiate(Some(TiGeneralize(t))) == Ok(t)
  {
  }

  /** Every scheme of a valid context has a type over the first `n` cells. */
  ghost predicate CtxWf(ctx: TyCtx<Scheme>, n: nat)
    reads ctx, ctx.kvps
  {
    ctx.Valid() && forall i :: 0 <= i < ctx.size ==> WfTy(ctx.kvps[i].1.ty, n)
  }

  /** The kinds outside the `switch` of `ti_infer`, which reach its failing assertion. */
  predicate Unhandled(n: Node) {
    n.StringLit? || n.TyAnnot? || n.FunExDecl? || n.ArgList?
  }

  /** The inference state: the node store with its trace, and the static `freshcntr`. */
  class Checker {
    const store: MtStore
    var counter: nat

    constructor (s: MtStore)
      ensures store == s && counter == 0
    {
      store := s;
      counter := 0;
    }

    /** `ti_freshvar`: a variable named `var-` and the counter, which then increases. */
    method TiFreshVar() returns (v: Ty)
      requires store.Valid()
      modifies this, store
      ensures store.Valid() && v == TVar(|old(store.cells)|) && counter == old(counter) + 1
      ensures store.cells == old(store.cells) + [Cell(CounterName("var-", old(counter)), None)]
      ensures Extends(old(store.cells), store.cells) && store.messages == old(store.messages)
    {
      v := store.NewVar(CounterName("var-", counter));
      counter := counter + 1;
    }

    /** The message `ti_var` reports for a name missing from the context. */
    static function UnboundMessage(name: string): string {
      "type-check: unbound variable " + name
    }

    /**
     * `ti_var` as written: a fresh variable, then a lookup; a missing name is
     * reported and its NULL scheme is then instantiated, which reads through
     * the NULL pointer.
     */
    method TiVarAsWritten(ctx: TyCtx<Scheme>, name: string, fuel: nat) returns (res: Result<Ty, Abort>)
      requires store.Valid() && CtxWf(ctx, |store.cells|)
      modifies this, store
      ensures store.Valid() && Extends(old(store.cells), store.cells) && counter == old(counter) + 1
      ensures !ctx.prefix && name !in Keys(ctx.Entries()) ==>
        res == Err(NullDereference) && store.messages == old(store.messages) + [UnboundMessage(name)]
      ensures res.Ok? ==> res.value == TVar(|old(store.cells)|)
    {
      var v := TiFreshVar();
      var fa := ctx.Lookup(name);
      if fa.None? {
        store.messages := store.messages + [UnboundMessage(name)];
      }
      var inst := TiInstantiate(fa);
      if inst.Err? {
        return Err(inst.error);
      }
      if !ctx.prefix {
        assert (name, fa.value) in ctx.Entries();
      }
      LookupWf(ctx, |old(store.cells)|, fa.value);
      WfWiden(fa.value.ty, |old(store.cells)|, |store.cells|);
      var u := store.Unify(v, inst.value, fuel);
      if u.Err? {
        return Err(u.error);
      }
      res := Ok(v);
    }

    /**
     * `ti_var`: a fresh variable unified with the type of the name's scheme
     * (the answer of `unify` is ignored, its failure is in the trace); a
     * missing name is reported and the variable returned unconstrained.
     */
    method TiVar(ctx: TyCtx<Scheme>, name: string, fuel: nat) returns (res: Result<Ty, Abort>)
      requires store.Valid() && CtxWf(ctx, |store.cells|)
      modifies this, store
      ensures store.Valid() && Extends(old(store.cells), store.cells) && |store.cells| == |old(store.cells)| + 1
      ensures store.cells[|old(store.cells)|].name == CounterName("var-", old(counter)) && counter == old(counter) + 1
      ensures res.Ok? ==> res.value == TVar(|old(store.cells)|)
      ensures fuel == 0 && name in Keys(ctx.Entries()) && !ctx.prefix ==> res == Err(StackExhausted)
      ensures !ctx.prefix && name !in Keys(ctx.Entries()) ==>
        res == Ok(TVar(|old(store.cells)|)) && store.messages == old(store.messages) + [UnboundMessage(name)] &&
        store.cells == old(store.cells) + [Cell(CounterName("var-", old(counter)), None)]
      ensures !ctx.prefix && name in Keys(ctx.Entries()) && res.Ok? ==>
        exists s :: (name, s) in ctx.Entries() && WfTy(s.ty, |store.cells|) && BoundOutcome(old(store.messages), s, fuel)
      ensures ctx.prefix && res.Ok? && store.messages != old(store.messages) + [UnboundMessage(name)] ==>
        exists e :: e in ctx.Entries() && IsPrefix(name, e.0) && WfTy(e.1.ty, |store.cells|) &&
          BoundOutcome(old(store.messages), e.1, fuel)
    {
      var v := TiFreshVar();
      ghost var cells1 := store.cells;
      var fa := ctx.Lookup(name);
      if fa.None? {
        store.messages := store.messages + [UnboundMessage(name)];
        return Ok(v);
      }
      ghost var e: Kvp<Scheme> := (name, fa.value);
      if ctx.prefix {
        e :| e in ctx.Entries() && IsPrefix(name, e.0) && e.1 == fa.value;
      }
      assert e in ctx.Entries() && e.1 == fa.value;
      LookupWf(ctx, |old(store.cells)|, fa.value);
      WfWiden(fa.value.ty, |old(store.cells)|, |store.cells|);
      res := BindScheme(v, fa.value, fuel);
      ExtendsTrans(old(store.cells), cells1, store.cells);
    }

    /** Unifying the fresh variable `v`, the newest cell, with the type of `s`. */
    method BindScheme(v: Ty, s: Scheme, fuel: nat) returns (res: Result<Ty, Abort>)
      requires store.Valid() && |store.cells| > 0 && v == TVar(|store.cells| - 1) && WfTy(s.ty, |store.cells|)
      modifies store
      ensures store.Valid() && Extends(old(store.cells), store.cells) && |store.cells| == |old(store.cells)|
      ensures store.cells[|store.cells| - 1].name == old(store.cells[|store.cells| - 1].name)
      ensures WfTy(s.ty, |store.cells|)
      ensures res.Ok? ==> res == Ok(v) && BoundOutcome(old(store.messages), s, fuel)
      ensures fuel == 0 ==> res == Err(StackExhausted)
    {
      ghost var n, m0 := |store.cells|, store.messages;
      var u := store.Unify(v, s.ty, fuel);
      assert |store.cells| == n;
      WfWiden(s.ty, n, n);
      if u.Err? {
        return Err(u.error);
      }
      if u.value {
        assert Unified(store.cells, store.rank, TVar(|store.cells| - 1), s.ty, fuel);
      } else {
        assert store.messages == m0 + ["type-check: unification failed."];
      }
      res := Ok(v);
    }

    /** After `unify`, either the result variable and the scheme's type are unified or the failure is the one new message. */
    ghost predicate BoundOutcome(messages0: seq<string>, s: Scheme, fuel: nat)
      reads this, store
      requires store.Valid() && |store.cells| > 0 && WfTy(s.ty, |store.cells|)
    {
      Unified(store.cells, store.rank, TVar(|store.cells| - 1), s.ty, fuel) ||
      store.messages == messages0 + ["type-check: unification failed."]
    }

    /**
     * `ti_infer`: literals answer with their table entry, declarations and
     * references go through `ti_var`, a signature asserts its argument block
     * and a function declaration takes a fresh variable; every other handled
     * kind answers NULL (`None`), and an unhandled one fails its assertion.
     */
    method TiInfer(ctx: TyCtx<Scheme>, n: Node, fuel: nat) returns (res: Result<Option<Ty>, Abort>)
      requires store.Valid() && CtxWf(ctx, |store.cells|)
      modifies this, store
      ensures store.Valid() && Extends(old(store.cells), store.cells)
      ensures n.Value? ==> res == Ok(Some(TiValue(n.vt))) && store.cells == old(store.cells) && counter == old(counter)
      ensures (n.VarDecl? || n.VarRef?) && res.Ok? ==> res.value == Some(TVar(|old(store.cells)|))
      ensures (n.VarDecl? || n.VarRef?) && !ctx.prefix && n.name !in Keys(ctx.Entries()) ==>
        res == Ok(Some(TVar(|old(store.cells)|))) && store.messages == old(store.messages) + [Checker.UnboundMessage(n.name)]
      ensures n.FunSign? && !n.argspec.Block? ==> res == Err(AssertFailed("fs.argspec->type == AST_BLOCK"))
      ensures n.FunDecl? ==>
        res == Ok(None) && store.cells == old(store.cells) + [Cell(CounterName("var-", old(counter)), None)]
      ensures Unhandled(n) ==> res == Err(AssertFailed("unhandled type"))
      ensures !(n.Value? || n.VarDecl? || n.VarRef? || n.FunSign? || n.FunDecl? || Unhandled(n)) ==>
        res == Ok(None) && store.cells == old(store.cells) && store.messages == old(store.messages)
    {
      if n.Value? {
        res := Ok(Some(TiValue(n.vt)));
      } else if n.VarDecl? || n.VarRef? {
        var t := TiVar(ctx, n.name, fuel);
        res := if t.Ok? then Ok(Some(t.value)) else Err(t.error);
      } else if n.FunSign? && !n.argspec.Block? {
        res := Err(AssertFailed("fs.argspec->type == AST_BLOCK"));
      } else if n.FunDecl? {
        var v := TiFreshVar();
        res := Ok(None);
      } else if Unhandled(n) {
        res := Err(AssertFailed("unhandled type"));
      } else {
        res := Ok(None);
      }
    }
  }

  /** A scheme held by a well-formed context has a type over its cells. */
  lemma LookupWf(ctx: TyCtx<Scheme>, n: nat, s: Scheme)
    requires CtxWf(ctx, n) && exists e :: e in ctx.Entries() && e.1 == s
    ensures WfTy(s.ty, n)
  {
    var e :| e in ctx.Entries() && e.1 == s;
    var i :| 0 <= i < ctx.size && ctx.Entries()[i] == e;
  }
}
