/**
 * The reference copy of the Hindley-Milner port (`refcode/co_hm.c`): a
 * context that is an append-only array of key/scheme pairs, and
 * `hm_infer_rec`, where every node, literals included, answers with its
 * fresh result variable (named `$<N>`).
 */
module RefcodeHm {
  import opened Wrappers
  import opened TypeGraph
  import opened HmEngine

  /** The `tyexp_t` kinds. `tyexp_assign` asserts that its target is a variable, so the target is a name here. */
  datatype TyExp =
    | Var(name: string)
    | IntLit
    | FloatLit
    | BoolLit
    | CharLit
    | ListExp
    | Function(param: TyExp, body: TyExp)
    | Apply(func: TyExp, arg: TyExp)
    | Where(binding: TyExp, body: TyExp)
    | Assign(target: string, value: TyExp)

  type Kvp = (string, Ty)

  /** What `hm_map_get` answers: the value of the FIRST pair whose key is `key`. */
  function FirstMatch(kvps: seq<Kvp>, key: string): Option<Ty> {
    if kvps == [] then None
    else if kvps[0].0 == key then Some(kvps[0].1)
    else FirstMatch(kvps[1..], key)
  }

  /** The value of the LAST pair whose key is `key`: the innermost binding. */
  function LastMatch(kvps: seq<Kvp>, key: string): Option<Ty> {
    if kvps == [] then None
    else if kvps[|kvps| - 1].0 == key then Some(kvps[|kvps| - 1].1)
    else LastMatch(kvps[..|kvps| - 1], key)
  }

  /** The pairs read as successive dictionary updates, later keys replacing earlier ones. */
  function AsMap(kvps: seq<Kvp>): map<string, Ty> {
    if kvps == [] then map[]
    else AsMap(kvps[..|kvps| - 1])[kvps[|kvps| - 1].0 := kvps[|kvps| - 1].1]
  }

  /** A key found by either lookup is a key of some pair, and conversely. */
  lemma {:induction false} MatchFound(kvps: seq<Kvp>, key: string)
    ensures FirstMatch(kvps, key).Some? <==> (exists i :: 0 <= i < |kvps| && kvps[i].0 == key)
    ensures LastMatch(kvps, key).Some? <==> FirstMatch(kvps, key).Some?
  {
    if kvps != [] {
      MatchFound(kvps[1..], key);
      MatchFound(kvps[..|kvps| - 1], key);
      if exists i :: 0 <= i < |kvps| && kvps[i].0 == key {
        var i :| 0 <= i < |kvps| && kvps[i].0 == key;
        if i > 0 { assert kvps[1..][i - 1].0 == key; }
        if i < |kvps| - 1 { assert kvps[..|kvps| - 1][i].0 == key; }
      }
      var front, rest := kvps[..|kvps| - 1], kvps[1..];
      if exists i :: 0 <= i < |front| && front[i].0 == key {
        var i :| 0 <= i < |front| && front[i].0 == key;
        assert kvps[i].0 == key;
      }
      if exists i :: 0 <= i < |rest| && rest[i].0 == key {
        var i :| 0 <= i < |rest| && rest[i].0 == key;
        assert kvps[i + 1].0 == key;
      }
    }
  }

  /** The innermost-binding lookup is exactly dictionary semantics (the prototype's `{**ctx, name: scheme}`). */
  lemma {:induction false} LastMatchIsMap(kvps: seq<Kvp>, key: string)
    ensures LastMatch(kvps, key) == if key in AsMap(kvps) then Some(AsMap(kvps)[key]) else None
  {
    if kvps != [] {
      LastMatchIsMap(kvps[..|kvps| - 1], key);
    }
  }

  /** Appending a binding makes it the one the innermost lookup finds, and leaves other keys alone. */
  lemma LastMatchAppend(kvps: seq<Kvp>, key: string, v: Ty, other: string)
    ensures LastMatch(kvps + [(key, v)], key) == Some(v)
    ensures other != key ==> LastMatch(kvps + [(key, v)], other) == LastMatch(kvps, other)
  {
    assert (kvps + [(key, v)])[..|kvps|] == kvps;
  }

  /** Appending a binding for a key that is already bound changes nothing `hm_map_get` can see. */
  lemma {:induction false} FirstMatchAppend(kvps: seq<Kvp>, key: string, v: Ty, other: string)
    requires FirstMatch(kvps, other).Some?
    ensures FirstMatch(kvps + [(key, v)], other) == FirstMatch(kvps, other)
  {
    if kvps[0].0 != other {
      assert (kvps + [(key, v)])[1..] == kvps[1..] + [(key, v)];
      FirstMatchAppend(kvps[1..], key, v, other);
    }
  }

  /**
   * The shadowing the context loses: a function `\x. \x. x` adds `x` twice,
   * and the inner `x` is looked up as the outer parameter's type.
   */
  lemma FirstMatchMissesShadowing(a: Ty, b: Ty)
    requires a != b
    ensures FirstMatch([("x", a), ("x", b)], "x") == Some(a)
    ensures LastMatch([("x", a), ("x", b)], "x") == Some(b)
    ensures AsMap([("x", a), ("x", b)])["x"] == b
  {
    assert [("x", a), ("x", b)][..1] == [("x", a)];
  }

  /** An `hm_map_t`: `count` pairs in a buffer of `capacity`; `buffer` says the buffer pointer is not NULL. */
  class HmMap {
    var kvps: seq<Kvp>
    var capacity: nat
    var buffer: bool

    ghost predicate Valid()
      reads this
    {
      |kvps| <= capacity && (capacity > 0 ==> buffer)
    }

    /** The zero-initialised map of `hm_infer`. */
    constructor Empty()
      ensures Valid() && kvps == [] && capacity == 0 && !buffer
    {
      kvps := [];
      capacity := 0;
      buffer := false;
    }

    /** `hm_map_copy`: a fresh buffer of the same capacity holding the same pairs. */
    constructor Copy(other: HmMap)
      requires other.Valid()
      ensures Valid() && kvps == other.kvps && capacity == other.capacity && buffer
    {
      kvps := other.kvps;
      capacity := other.capacity;
      buffer := true;
    }

    /** `hm_map_get`: the first pair with the key, scanning from the start. */
    method Get(key: string) returns (r: Option<Ty>)
      ensures r == FirstMatch(kvps, key)
    {
      var i := 0;
      while i < |kvps|
        invariant 0 <= i <= |kvps|
        invariant FirstMatch(kvps, key) == FirstMatch(kvps[i..], key)
      {
        assert kvps[i..][1..] == kvps[i + 1..];
        if kvps[i].0 == key {
          return Some(kvps[i].1);
        }
        i := i + 1;
      }
      r := None;
    }

    /** The lookup the context needs: the last pair with the key, scanning from the end. */
    method Lookup(key: string) returns (r: Option<Ty>)
      ensures r == LastMatch(kvps, key)
      ensures r == if key in AsMap(kvps) then Some(AsMap(kvps)[key]) else None
    {
      LastMatchIsMap(kvps, key);
      var i := |kvps|;
      assert kvps[..i] == kvps;
      while i > 0
        invariant 0 <= i <= |kvps|
        invariant LastMatch(kvps, key) == LastMatch(kvps[..i], key)
      {
        assert kvps[..i][..i - 1] == kvps[..i - 1];
        if kvps[i - 1].0 == key {
          return Some(kvps[i - 1].1);
        }
        i := i - 1;
      }
      r := None;
    }

    /**
     * `hm_map_add`: a map that was never allocated gets 4 slots; a full
     * one grows to twice one more than its count; the pair is appended.
     */
    method Add(key: string, v: Ty)
      requires Valid()
      modifies this
      ensures Valid() && kvps == old(kvps) + [(key, v)] && buffer
      ensures !old(buffer) && old(capacity) == 0 ==> capacity == 4
      ensures (old(buffer) || old(capacity) > 0) && |old(kvps)| == old(capacity) ==> capacity == (|old(kvps)| + 1) * 2
      ensures (old(buffer) || old(capacity) > 0) && |old(kvps)| < old(capacity) ==> capacity == old(capacity)
    {
      if !buffer && capacity == 0 {
        buffer := true;
        capacity := 4;
      }
      if |kvps| >= capacity {
        capacity := (|kvps| + 1) * 2;
      }
      kvps := kvps + [(key, v)];
    }
  }

  predicate CtxWf(cells: seq<Cell>, kvps: seq<Kvp>) {
    forall i :: 0 <= i < |kvps| ==> WfTy(kvps[i].1, |cells|)
  }

  lemma CtxWiden(cells: seq<Cell>, cells2: seq<Cell>, kvps: seq<Kvp>)
    requires CtxWf(cells, kvps) && |cells| <= |cells2|
    ensures CtxWf(cells2, kvps)
  {
    forall i | 0 <= i < |kvps| ensures WfTy(kvps[i].1, |cells2|) { WfWiden(kvps[i].1, |cells|, |cells2|); }
  }

  lemma CtxExtend(cells: seq<Cell>, kvps: seq<Kvp>, name: string, t: Ty)
    requires CtxWf(cells, kvps) && WfTy(t, |cells|)
    ensures CtxWf(cells, kvps + [(name, t)])
  {
  }

  lemma {:induction false} LastMatchWf(cells: seq<Cell>, kvps: seq<Kvp>, key: string)
    requires CtxWf(cells, kvps) && LastMatch(kvps, key).Some?
    ensures WfTy(LastMatch(kvps, key).value, |cells|)
  {
    if kvps[|kvps| - 1].0 != key {
      LastMatchWf(cells, kvps[..|kvps| - 1], key);
    }
  }

  /** A function node with result `TVar(r)`: parameter `r + 1`, body result `r + 2`. */
  ghost predicate FunctionRule(cells: seq<Cell>, rank: seq<nat>, r: nat, fuel: nat) {
    Ranked(cells, rank) && r + 2 < |cells| &&
    Unified(cells, rank, TVar(r), FuncType(TVar(r + 1), TVar(r + 2)), fuel)
  }

  /** An application with result `TVar(r)` whose argument's result variable is `k`. */
  ghost predicate ApplyWitness(cells: seq<Cell>, rank: seq<nat>, r: nat, k: nat, fuel: nat) {
    Ranked(cells, rank) && r + 1 < k < |cells| &&
    Unified(cells, rank, TVar(r + 1), FuncType(TVar(k), TVar(r)), fuel)
  }

  ghost predicate ApplyRule(cells: seq<Cell>, rank: seq<nat>, r: nat, fuel: nat) {
    exists k :: ApplyWitness(cells, rank, r, k, fuel)
  }

  /** A `where` node with result `TVar(r)`, unified with the body's result, created after the value's. */
  ghost predicate WhereRule(cells: seq<Cell>, rank: seq<nat>, r: nat, fuel: nat) {
    Ranked(cells, rank) && r < |cells| &&
    exists k :: r + 1 < k < |cells| && Unified(cells, rank, TVar(r), TVar(k), fuel)
  }

  /** `hm_infer_rec` over one node store. */
  class Inferrer {
    const store: HmStore

    constructor (s: HmStore)
      ensures store == s
    {
      store := s;
    }

    ghost predicate FreshResult(r: nat)
      reads store
    {
      store.Valid() && r + 1 == |store.cells| && store.cells[r].link.None?
    }

    /** `hm_infer`: inference from the zero-initialised, empty context. */
    method Infer(e: TyExp, fuel: nat) returns (res: Result<Ty, Abort>)
      requires store.Valid()
      modifies store
      ensures store.Valid() && Extends(old(store.cells), store.cells) && |store.cells| > |old(store.cells)|
      ensures res.Ok? ==> res.value == TVar(|old(store.cells)|)
      ensures e.Var? ==> res == Err(AssertFailed("unbound variable expr.name"))
    {
      var m := new HmMap.Empty();
      res := InferRec(e, m, fuel);
    }

    /**
     * `hm_infer_rec`: a fresh result variable, unified as the node
     * demands; the variable rule reads the innermost binding of the name.
     */
    method InferRec(e: TyExp, ctx: HmMap, fuel: nat) returns (res: Result<Ty, Abort>)
      requires store.Valid() && ctx.Valid() && CtxWf(store.cells, ctx.kvps)
      modifies store
      ensures store.Valid() && Extends(old(store.cells), store.cells) && |store.cells| > |old(store.cells)|
      ensures store.cells[|old(store.cells)|].name == CounterName("$", old(store.counter))
      ensures res.Ok? ==> res.value == TVar(|old(store.cells)|)
      ensures e.BoolLit? ==>
        (res.Ok? <==> fuel > 0) && (res.Ok? ==> Unified(store.cells, store.rank, TVar(|old(store.cells)|), TCon("bool", []), fuel))
      ensures e.IntLit? ==>
        (res.Ok? <==> fuel > 0) && (res.Ok? ==> Unified(store.cells, store.rank, TVar(|old(store.cells)|), TCon("int", []), fuel))
      ensures e.Var? && LastMatch(ctx.kvps, e.name).None? ==> res == Err(AssertFailed("unbound variable expr.name"))
      ensures e.Var? && LastMatch(ctx.kvps, e.name).Some? && res.Ok? ==>
        WfTy(LastMatch(ctx.kvps, e.name).value, |store.cells|) &&
        Unified(store.cells, store.rank, TVar(|old(store.cells)|), LastMatch(ctx.kvps, e.name).value, fuel)
      ensures e.Function? && !e.param.Var? ==> res == Err(AssertFailed("e->fun.arg->kind == TYEXP_VAR"))
      ensures e.Function? && res.Ok? ==>
        FunctionRule(store.cells, store.rank, |old(store.cells)|, fuel) && store.cells[|old(store.cells)| + 1].name == "a"
      ensures e.Apply? && res.Ok? ==> ApplyRule(store.cells, store.rank, |old(store.cells)|, fuel)
      ensures e.Where? && !e.binding.Assign? ==> res == Err(AssertFailed("e->where.binding->kind == TYEXP_ASSIGN"))
      ensures e.Where? && res.Ok? ==> WhereRule(store.cells, store.rank, |old(store.cells)|, fuel)
      ensures e.FloatLit? || e.CharLit? || e.ListExp? || e.Assign? ==> res == Err(AssertFailed("unexpected type"))
      decreases e, 1
    {
      var result := store.FreshVar(None, "$");
      CtxWiden(old(store.cells), store.cells, ctx.kvps);
      match e
      case BoolLit =>
        res := UnifyResult(result.id, TCon("bool", []), fuel, "unify bool failed.");
      case IntLit =>
        res := UnifyResult(result.id, TCon("int", []), fuel, "unify int failed.");
      case Var(name) =>
        var scheme := ctx.Lookup(name);
        if scheme.None? {
          return Err(AssertFailed("unbound variable expr.name"));
        }
        LastMatchWf(store.cells, ctx.kvps, name);
        res := UnifyResult(result.id, scheme.value, fuel, "unify var failed.");
      case Function(_, _) =>
        res := InferFunction(e, ctx, fuel, result.id);
      case Apply(_, _) =>
        res := InferApply(e, ctx, fuel, result.id);
      case Where(_, _) =>
        res := InferWhere(e, ctx, fuel, result.id);
      case FloatLit => res := Err(AssertFailed("unexpected type"));
      case CharLit => res := Err(AssertFailed("unexpected type"));
      case ListExp => res := Err(AssertFailed("unexpected type"));
      case Assign(_, _) => res := Err(AssertFailed("unexpected type"));
    }

    /** Unifies the result variable with `t`; a false answer fails the assertion `msg`. */
    method UnifyResult(r: nat, t: Ty, fuel: nat, msg: string) returns (res: Result<Ty, Abort>)
      requires FreshResult(r) && WfTy(t, |store.cells|)
      modifies store`cells, store`rank
      ensures store.Valid() && Extends(old(store.cells), store.cells) && |store.cells| == |old(store.cells)|
      ensures res.Ok? ==> res.value == TVar(r) && Unified(store.cells, store.rank, TVar(r), t, fuel)
      ensures t.TCon? ==> (res.Ok? <==> fuel > 0)
    {
      var u := store.Unify(TVar(r), t, fuel);
      if u.Err? {
        return Err(u.error);
      }
      if !u.value {
        return Err(AssertFailed(msg));
      }
      res := Ok(TVar(r));
    }

    /** A context equal to `ctx` with `name` bound to `t`, `ctx` itself untouched. */
    method Extend(ctx: HmMap, name: string, t: Ty) returns (m: HmMap)
      requires ctx.Valid()
      ensures fresh(m) && m.Valid() && m.kvps == ctx.kvps + [(name, t)]
    {
      m := new HmMap.Copy(ctx);
      m.Add(name, t);
    }

    /** Infers `body` in a copy of `ctx` that binds `name` to `t`. */
    method InferUnder(body: TyExp, ctx: HmMap, name: string, t: Ty, fuel: nat) returns (res: Result<Ty, Abort>)
      requires store.Valid() && ctx.Valid() && CtxWf(store.cells, ctx.kvps) && WfTy(t, |store.cells|)
      modifies store
      ensures store.Valid() && Extends(old(store.cells), store.cells) && |store.cells| > |old(store.cells)|
      ensures res.Ok? ==> res.value == TVar(|old(store.cells)|)
      decreases body, 2
    {
      var inner := Extend(ctx, name, t);
      CtxExtend(store.cells, ctx.kvps, name, t);
      res := InferRec(body, inner, fuel);
    }

    method InferFunction(e: TyExp, ctx: HmMap, fuel: nat, r: nat) returns (res: Result<Ty, Abort>)
      requires FreshResult(r) && ctx.Valid() && CtxWf(store.cells, ctx.kvps) && e.Function?
      modifies store
      ensures store.Valid() && Extends(old(store.cells), store.cells)
      ensures !e.param.Var? ==> res == Err(AssertFailed("e->fun.arg->kind == TYEXP_VAR"))
      ensures res.Ok? ==>
        res.value == TVar(r) && FunctionRule(store.cells, store.rank, r, fuel) && store.cells[r + 1].name == "a"
      decreases e, 0
    {
      var argVar := store.FreshVar(Some("a"), "$");
      if !e.param.Var? {
        return Err(AssertFailed("e->fun.arg->kind == TYEXP_VAR"));
      }
      ghost var c1 := store.cells;
      CtxWiden(old(store.cells), store.cells, ctx.kvps);
      var bodyTy := InferUnder(e.body, ctx, e.param.name, argVar, fuel);
      ExtendsTrans(old(store.cells), c1, store.cells);
      if bodyTy.Err? {
        return Err(bodyTy.error);
      }
      res := FinishFunction(r, bodyTy.value, fuel);
    }

    /** Unifies the function's result variable with `a -> body`, where the parameter is cell `r + 1` and the body's result cell `r + 2`. */
    method FinishFunction(r: nat, bodyTy: Ty, fuel: nat) returns (res: Result<Ty, Abort>)
      requires store.Valid() && r + 2 < |store.cells| && bodyTy == TVar(r + 2)
      modifies store`cells, store`rank
      ensures store.Valid() && Extends(old(store.cells), store.cells)
      ensures res.Ok? ==> res.value == TVar(r) && FunctionRule(store.cells, store.rank, r, fuel)
    {
      var u := store.Unify(TVar(r), FuncType(TVar(r + 1), bodyTy), fuel);
      if u.Err? {
        return Err(u.error);
      }
      if !u.value {
        return Err(AssertFailed("unify failed."));
      }
      res := Ok(TVar(r));
    }

    method InferApply(e: TyExp, ctx: HmMap, fuel: nat, r: nat) returns (res: Result<Ty, Abort>)
      requires FreshResult(r) && ctx.Valid() && CtxWf(store.cells, ctx.kvps) && e.Apply?
      modifies store
      ensures store.Valid() && Extends(old(store.cells), store.cells)
      ensures res.Ok? ==> res.value == TVar(r) && ApplyRule(store.cells, store.rank, r, fuel)
      decreases e, 0
    {
      var funcTy := InferRec(e.func, ctx, fuel);
      if funcTy.Err? {
        return Err(funcTy.error);
      }
      ghost var c1 := store.cells;
      CtxWiden(old(store.cells), store.cells, ctx.kvps);
      var argTy := InferRec(e.arg, ctx, fuel);
      ExtendsTrans(old(store.cells), c1, store.cells);
      if argTy.Err? {
        return Err(argTy.error);
      }
      var u := store.Unify(funcTy.value, FuncType(argTy.value, TVar(r)), fuel);
      if u.Err? {
        return Err(u.error);
      }
      if !u.value {
        return Err(AssertFailed("unify failed."));
      }
      assert ApplyWitness(store.cells, store.rank, r, |c1|, fuel);
      res := Ok(TVar(r));
    }

    method InferWhere(e: TyExp, ctx: HmMap, fuel: nat, r: nat) returns (res: Result<Ty, Abort>)
      requires FreshResult(r) && ctx.Valid() && CtxWf(store.cells, ctx.kvps) && e.Where?
      modifies store
      ensures store.Valid() && Extends(old(store.cells), store.cells)
      ensures !e.binding.Assign? ==> res == Err(AssertFailed("e->where.binding->kind == TYEXP_ASSIGN"))
      ensures res.Ok? ==> res.value == TVar(r) && WhereRule(store.cells, store.rank, r, fuel)
      decreases e, 0
    {
      if !e.binding.Assign? {
        return Err(AssertFailed("e->where.binding->kind == TYEXP_ASSIGN"));
      }
      var valueTy := InferRec(e.binding.value, ctx, fuel);
      if valueTy.Err? {
        return Err(valueTy.error);
      }
      ghost var c1 := store.cells;
      CtxWiden(old(store.cells), store.cells, ctx.kvps);
      var bodyTy := InferUnder(e.body, ctx, e.binding.target, valueTy.value, fuel);
      ExtendsTrans(old(store.cells), c1, store.cells);
      if bodyTy.Err? {
        return Err(bodyTy.error);
      }
      var u := store.Unify(TVar(r), bodyTy.value, fuel);
      if u.Err? {
        return Err(u.error);
      }
      if !u.value {
        return Err(AssertFailed("unify failed."));
      }
      assert Unified(store.cells, store.rank, TVar(r), TVar(|c1|), fuel);
      res := Ok(TVar(r));
    }
  }
}
