/**
 * `hm_infer` of the compiler's first C port of the Hindley-Milner
 * prototype: no instantiation and no generalization, literals answer with
 * the shared base constructors, fresh variables are named `var<N>`.
 */
module CoHm {
  import opened Wrappers
  import opened TypeGraph
  import opened HmEngine

  /** The `tyexp_t` kinds; a function's parameter is itself an expression that must be a variable. */
  datatype TyExp =
    | Var(name: string)
    | IntLit
    | FloatLit
    | BoolLit
    | CharLit
    | ListExp
    | Function(param: TyExp, body: TyExp)
    | Apply(func: TyExp, arg: TyExp)
    | Define(bound: string, value: TyExp, body: TyExp)

  /** The context: each name's `hm_forall` carries no quantified variables, only its type. */
  type Ctx = map<string, Ty>

  predicate CtxWf(cells: seq<Cell>, ctx: Ctx) {
    forall k :: k in ctx ==> WfTy(ctx[k], |cells|)
  }

  lemma CtxWiden(cells: seq<Cell>, cells2: seq<Cell>, ctx: Ctx)
    requires CtxWf(cells, ctx) && |cells| <= |cells2|
    ensures CtxWf(cells2, ctx)
  {
    forall k | k in ctx ensures WfTy(ctx[k], |cells2|) { WfWiden(ctx[k], |cells|, |cells2|); }
  }

  /** The static `hm_bool`, `hm_char`, `hm_int` and `hm_float`: constructors without arguments. */
  function Literal(e: TyExp): (t: Ty)
    requires e.IntLit? || e.FloatLit? || e.BoolLit? || e.CharLit?
    ensures t.TCon? && t.args == []
  {
    match e
    case IntLit => TCon("int", [])
    case FloatLit => TCon("float", [])
    case BoolLit => TCon("bool", [])
    case CharLit => TCon("char", [])
  }

  predicate IsLiteral(e: TyExp) {
    e.IntLit? || e.FloatLit? || e.BoolLit? || e.CharLit?
  }

  /** The type `hm_infer` answers for `e` when its fresh result variable is cell `r`. */
  function ResultOf(e: TyExp, r: nat): Ty {
    if IsLiteral(e) then Literal(e) else TVar(r)
  }

  /** A function node with result `TVar(r)`: parameter `r + 1`, body result created next. */
  ghost predicate FunctionRule(cells: seq<Cell>, rank: seq<nat>, r: nat, body: TyExp, fuel: nat) {
    Ranked(cells, rank) && r + 2 < |cells| &&
    Unified(cells, rank, TVar(r), FuncType(TVar(r + 1), ResultOf(body, r + 2)), fuel)
  }

  /** An application with result `TVar(r)` whose argument's result variable is `k`. */
  ghost predicate ApplyWitness(cells: seq<Cell>, rank: seq<nat>, r: nat, func: TyExp, arg: TyExp, k: nat, fuel: nat) {
    Ranked(cells, rank) && r + 1 < k < |cells| &&
    Unified(cells, rank, ResultOf(func, r + 1), FuncType(ResultOf(arg, k), TVar(r)), fuel)
  }

  ghost predicate ApplyRule(cells: seq<Cell>, rank: seq<nat>, r: nat, func: TyExp, arg: TyExp, fuel: nat) {
    exists k :: ApplyWitness(cells, rank, r, func, arg, k, fuel)
  }

  /** A definition with result `TVar(r)`: unified with the body's result, created after the value's. */
  ghost predicate DefineRule(cells: seq<Cell>, rank: seq<nat>, r: nat, body: TyExp, fuel: nat) {
    Ranked(cells, rank) && r < |cells| &&
    exists k :: r + 1 < k < |cells| && Unified(cells, rank, TVar(r), ResultOf(body, k), fuel)
  }

  /** The `hm_infer` of one run, over the node store. */
  class Inferrer {
    const store: HmStore

    constructor (s: HmStore)
      ensures store == s
    {
      store := s;
    }

    /** The store is valid and the freshly created result variable `r` is its last, unbound cell. */
    ghost predicate FreshResult(r: nat)
      reads store
    {
      store.Valid() && r + 1 == |store.cells| && store.cells[r].link.None?
    }

    /**
     * `hm_infer`: a fresh result variable first; literals then answer with
     * their base constructor, the other nodes with the result variable,
     * unified as the node demands. A failed unification or lookup is an
     * assertion failure.
     */
    method Infer(e: TyExp, ctx: Ctx, fuel: nat) returns (res: Result<Ty, Abort>)
      requires store.Valid() && CtxWf(store.cells, ctx)
      modifies store
      ensures store.Valid() && Extends(old(store.cells), store.cells) && |store.cells| > |old(store.cells)|
      ensures store.cells[|old(store.cells)|].name == CounterName("var", old(store.counter))
      ensures res.Ok? ==> res.value == ResultOf(e, |old(store.cells)|)
      ensures IsLiteral(e) ==>
        res == Ok(Literal(e)) && store.cells == old(store.cells) + [Cell(CounterName("var", old(store.counter)), None)]
      ensures e.Var? && e.name !in ctx ==> res == Err(AssertFailed("unbound variable expr.name"))
      ensures e.Var? && e.name in ctx && res.Ok? ==>
        WfTy(ctx[e.name], |store.cells|) && Unified(store.cells, store.rank, TVar(|old(store.cells)|), ctx[e.name], fuel)
      ensures e.Function? && !e.param.Var? ==> res == Err(AssertFailed("e->fun.arg->kind == TYEXP_VAR"))
      ensures e.Function? && res.Ok? ==>
        FunctionRule(store.cells, store.rank, |old(store.cells)|, e.body, fuel) &&
        store.cells[|old(store.cells)| + 1].name == "a"
      ensures e.Apply? && res.Ok? ==> ApplyRule(store.cells, store.rank, |old(store.cells)|, e.func, e.arg, fuel)
      ensures e.Define? && res.Ok? ==> DefineRule(store.cells, store.rank, |old(store.cells)|, e.body, fuel)
      ensures e.ListExp? ==> res == Err(AssertFailed("unexpected type"))
      decreases e, 1
    {
      var result := store.FreshVar(None, "var");
      CtxWiden(old(store.cells), store.cells, ctx);
      match e
      case BoolLit => res := Ok(Literal(e));
      case CharLit => res := Ok(Literal(e));
      case IntLit => res := Ok(Literal(e));
      case FloatLit => res := Ok(Literal(e));
      case Var(name) =>
        if name !in ctx {
          return Err(AssertFailed("unbound variable expr.name"));
        }
        res := UnifyResult(result.id, ctx[name], fuel);
      case Function(_, _) =>
        res := InferFunction(e, ctx, fuel, result.id);
      case Apply(_, _) =>
        res := InferApply(e, ctx, fuel, result.id);
      case Define(_, _, _) =>
        res := InferDefine(e, ctx, fuel, result.id);
      case ListExp =>
        res := Err(AssertFailed("unexpected type"));
    }

    /** Unifies the result variable with `t`; a false answer fails the assertion. */
    method UnifyResult(r: nat, t: Ty, fuel: nat) returns (res: Result<Ty, Abort>)
      requires FreshResult(r) && WfTy(t, |store.cells|)
      modifies store`cells, store`rank
      ensures store.Valid() && Extends(old(store.cells), store.cells) && |store.cells| == |old(store.cells)|
      ensures res.Ok? ==> res.value == TVar(r) && Unified(store.cells, store.rank, TVar(r), t, fuel)
    {
      var u := store.Unify(TVar(r), t, fuel);
      if u.Err? {
        return Err(u.error);
      }
      if !u.value {
        return Err(AssertFailed("unify failed."));
      }
      res := Ok(TVar(r));
    }

    method InferFunction(e: TyExp, ctx: Ctx, fuel: nat, r: nat) returns (res: Result<Ty, Abort>)
      requires FreshResult(r) && CtxWf(store.cells, ctx) && e.Function?
      modifies store
      ensures store.Valid() && Extends(old(store.cells), store.cells)
      ensures !e.param.Var? ==> res == Err(AssertFailed("e->fun.arg->kind == TYEXP_VAR"))
      ensures res.Ok? ==>
        res.value == TVar(r) && FunctionRule(store.cells, store.rank, r, e.body, fuel) && store.cells[r + 1].name == "a"
      decreases e, 0
    {
      var argVar := store.FreshVar(Some("a"), "var");
      if !e.param.Var? {
        return Err(AssertFailed("e->fun.arg->kind == TYEXP_VAR"));
      }
      ghost var c1 := store.cells;
      CtxWiden(old(store.cells), store.cells, ctx);
      var bodyTy := Infer(e.body, ctx[e.param.name := argVar], fuel);
      ExtendsTrans(old(store.cells), c1, store.cells);
      if bodyTy.Err? {
        return Err(bodyTy.error);
      }
      res := FinishFunction(r, bodyTy.value, e.body, fuel);
    }

    /** Unifies the function's result variable with `a -> body`, where the parameter is cell `r + 1`. */
    method FinishFunction(r: nat, bodyTy: Ty, body: TyExp, fuel: nat) returns (res: Result<Ty, Abort>)
      requires store.Valid() && r + 2 < |store.cells| && WfTy(bodyTy, |store.cells|) && bodyTy == ResultOf(body, r + 2)
      modifies store`cells, store`rank
      ensures store.Valid() && Extends(old(store.cells), store.cells)
      ensures res.Ok? ==> res.value == TVar(r) && FunctionRule(store.cells, store.rank, r, body, fuel)
    {
      var u := store.Unify(TVar(r), FuncType(TVar(r + 1), bodyTy), fuel);
      if u.Err? {
        return Err(u.error);
      }
      if !u.value {
        return Err(AssertFailed("unify failed."));
      }
      res := Ok(TVar(r));
    }

    method InferApply(e: TyExp, ctx: Ctx, fuel: nat, r: nat) returns (res: Result<Ty, Abort>)
      requires FreshResult(r) && CtxWf(store.cells, ctx) && e.Apply?
      modifies store
      ensures store.Valid() && Extends(old(store.cells), store.cells)
      ensures res.Ok? ==> res.value == TVar(r) && ApplyRule(store.cells, store.rank, r, e.func, e.arg, fuel)
      decreases e, 0
    {
      var funcTy := Infer(e.func, ctx, fuel);
      if funcTy.Err? {
        return Err(funcTy.error);
      }
      ghost var c1 := store.cells;
      CtxWiden(old(store.cells), store.cells, ctx);
      var argTy := Infer(e.arg, ctx, fuel);
      ExtendsTrans(old(store.cells), c1, store.cells);
      if argTy.Err? {
        return Err(argTy.error);
      }
      var u := store.Unify(funcTy.value, FuncType(argTy.value, TVar(r)), fuel);
      if u.Err? {
        return Err(u.error);
      }
      if !u.value {
        return Err(AssertFailed("unify failed."));
      }
      assert ApplyWitness(store.cells, store.rank, r, e.func, e.arg, |c1|, fuel);
      res := Ok(TVar(r));
    }

    method InferDefine(e: TyExp, ctx: Ctx, fuel: nat, r: nat) returns (res: Result<Ty, Abort>)
      requires FreshResult(r) && CtxWf(store.cells, ctx) && e.Define?
      modifies store
      ensures store.Valid() && Extends(old(store.cells), store.cells)
      ensures res.Ok? ==> res.value == TVar(r) && DefineRule(store.cells, store.rank, r, e.body, fuel)
      decreases e, 0
    {
      var valueTy := Infer(e.value, ctx, fuel);
      if valueTy.Err? {
        return Err(valueTy.error);
      }
      ghost var c1 := store.cells;
      CtxWiden(old(store.cells), store.cells, ctx);
      var bodyTy := Infer(e.body, ctx[e.bound := valueTy.value], fuel);
      ExtendsTrans(old(store.cells), c1, store.cells);
      if bodyTy.Err? {
        return Err(bodyTy.error);
      }
      var u := store.Unify(TVar(r), bodyTy.value, fuel);
      if u.Err? {
        return Err(u.error);
      }
      if !u.value {
        return Err(AssertFailed("unify failed."));
      }
      assert Unified(store.cells, store.rank, TVar(r), ResultOf(e.body, |c1|), fuel);
      res := Ok(TVar(r));
    }
  }
}
