/**
 * The Hindley-Milner inference prototype. Type variables are cells of a
 * store and are linked by unification; constructors are values; a scheme
 * quantifies variable names; inference walks the expression and draws fresh
 * variable names from a global counter, which the store carries.
 */
module HindleyMilner {
  import opened Wrappers
  import opened TypeGraph
  import Text

  const IntType: Ty := TCon("int", [])
  const BoolType: Ty := TCon("bool", [])

  function ListType(t: Ty): (r: Ty)
    ensures r.TCon? && r.args == [t]
  {
    TCon("list", [t])
  }

  /** `Forall(tyvars, ty)`; the bound variables are kept by name. */
  datatype Scheme = Forall(vars: seq<string>, ty: Ty)

  type Ctx = map<string, Scheme>

  /** The expression nodes; a `Where` carries its `Assign` binding's name and value. */
  datatype Expr =
    | Var(name: string)
    | Int
    | Bool
    | Function(param: string, body: Expr)
    | Apply(func: Expr, arg: Expr)
    | Assign(target: string, value: Expr)
    | Where(bound: string, value: Expr, body: Expr)

  /** The exceptions the prototype raises; `RecursionLimit` stands for
      running out of recursion depth. */
  datatype Error = TypeError(msg: string) | AssertionError(msg: string) | RecursionLimit

  predicate CtxWf(cells: seq<Cell>, ctx: Ctx) {
    forall k :: k in ctx ==> WfTy(ctx[k].ty, |cells|)
  }

  lemma CtxWiden(cells: seq<Cell>, cells2: seq<Cell>, ctx: Ctx)
    requires CtxWf(cells, ctx) && |cells| <= |cells2|
    ensures CtxWf(cells2, ctx)
  {
    forall k | k in ctx ensures WfTy(ctx[k].ty, |cells2|) { WfWiden(ctx[k].ty, |cells|, |cells2|); }
  }

  // ---------------------------------------------------------------- names

  predicate NoDigits(p: string) {
    forall k :: 0 <= k < |p| ==> !('0' <= p[k] <= '9')
  }

  /** The name `fresh_tyvar(prefix)` gives when the counter is `n`. */
  function FreshName(prefix: string, n: nat): string {
    prefix + Text.Decimal(n)
  }

  /** The index of the first digit of `s`, or `|s|` when it has none. */
  function FirstDigit(s: string): (i: nat)
    ensures i <= |s|
  {
    if s == [] || '0' <= s[0] <= '9' then 0 else 1 + FirstDigit(s[1..])
  }

  lemma {:induction false} FirstDigitOfFreshName(p: string, n: nat)
    requires NoDigits(p)
    ensures FirstDigit(FreshName(p, n)) == |p|
  {
    var d := Text.Decimal(n);
    if p != [] {
      assert (p + d)[1..] == p[1..] + d;
      FirstDigitOfFreshName(p[1..], n);
    } else {
      assert p + d == d;
    }
  }

  /** Different counters (or different digit-free prefixes) never give the same name. */
  lemma FreshNameInjective(p: string, n: nat, q: string, m: nat)
    requires NoDigits(p) && NoDigits(q) && FreshName(p, n) == FreshName(q, m)
    ensures p == q && n == m
  {
    var s := FreshName(p, n);
    FirstDigitOfFreshName(p, n);
    FirstDigitOfFreshName(q, m);
    assert p == s[..|p|] == q;
    assert Text.Decimal(n) == s[|p|..] == Text.Decimal(m);
    Text.DecimalInjective(n, m);
  }

  /** The cells that `count` successive `fresh_tyvar(prefix)` calls create. */
  function FreshCells(prefix: string, counter: nat, count: nat): (r: seq<Cell>)
    ensures |r| == count
  {
    seq(count, k requires 0 <= k < count => Cell(FreshName(prefix, counter + k), None))
  }

  // ---------------------------------------------------------- substitution

  /** `apply_ty`: variables are looked up by name, constructors are rebuilt. */
  function ApplyTy(cells: seq<Cell>, t: Ty, subst: map<string, Ty>): (r: Ty)
    requires WfTy(t, |cells|)
    ensures t.TCon? ==> r.TCon? && r.name == t.name && |r.args| == |t.args|
  {
    match t
    case TVar(i) => if cells[i].name in subst then subst[cells[i].name] else t
    case TCon(n, args) => TCon(n, seq(|args|, k requires 0 <= k < |args| => ApplyTy(cells, args[k], subst)))
  }

  predicate SubstWf(cells: seq<Cell>, subst: map<string, Ty>) {
    forall n :: n in subst ==> WfTy(subst[n], |cells|)
  }

  lemma {:induction false} ApplyWf(cells: seq<Cell>, t: Ty, subst: map<string, Ty>)
    requires WfTy(t, |cells|) && SubstWf(cells, subst)
    ensures WfTy(ApplyTy(cells, t, subst), |cells|)
  {
    match t
    case TVar(_) =>
    case TCon(n, args) =>
      var r := ApplyTy(cells, t, subst);
      forall a | a in r.args ensures WfTy(a, |cells|) {
        var k :| 0 <= k < |r.args| && r.args[k] == a;
        assert args[k] in args;
        ApplyWf(cells, args[k], subst);
      }
  }

  /** Substitution only reads the names of the cells, which a grown store keeps. */
  lemma {:induction false} ApplyKeepsNames(c: seq<Cell>, c2: seq<Cell>, t: Ty, subst: map<string, Ty>)
    requires WfTy(t, |c|) && Extends(c, c2)
    ensures WfTy(t, |c2|) && ApplyTy(c2, t, subst) == ApplyTy(c, t, subst)
  {
    WfWiden(t, |c|, |c2|);
    match t
    case TVar(_) =>
    case TCon(n, args) =>
      forall k | 0 <= k < |args| ensures ApplyTy(c2, args[k], subst) == ApplyTy(c, args[k], subst) {
        assert args[k] in args;
        ApplyKeepsNames(c, c2, args[k], subst);
      }
  }

  /** Applying the empty substitution rebuilds the same type. */
  lemma {:induction false} ApplyEmpty(cells: seq<Cell>, t: Ty)
    requires WfTy(t, |cells|)
    ensures ApplyTy(cells, t, map[]) == t
  {
    match t
    case TVar(_) =>
    case TCon(n, args) =>
      forall k | 0 <= k < |args| ensures ApplyTy(cells, args[k], map[]) == args[k] {
        assert args[k] in args;
        ApplyEmpty(cells, args[k]);
      }
      assert ApplyTy(cells, t, map[]).args == args;
  }

  // ------------------------------------------------------ free variables

  /** The names of the variables of `t` in occurrence order (links are not followed). */
  function FtvList(cells: seq<Cell>, t: Ty): seq<string>
    requires WfTy(t, |cells|)
  {
    match t
    case TVar(i) => [cells[i].name]
    case TCon(_, args) => FtvListAll(cells, args)
  }

  function FtvListAll(cells: seq<Cell>, ts: seq<Ty>): (r: seq<string>)
    requires forall a :: a in ts ==> WfTy(a, |cells|)
    ensures forall y :: y in r <==> exists k :: 0 <= k < |ts| && y in FtvList(cells, ts[k])
  {
    if ts == [] then []
    else
      var rest := FtvListAll(cells, ts[1..]);
      assert forall k :: 1 <= k < |ts| ==> ts[k] == ts[1..][k - 1];
      FtvList(cells, ts[0]) + rest
  }

  /** `ftv_ty`: the set of variable names occurring in `t`. */
  function Ftv(cells: seq<Cell>, t: Ty): set<string>
    requires WfTy(t, |cells|)
  {
    set y | y in FtvList(cells, t)
  }

  /** A constructor's free names are those of its arguments. */
  lemma FtvCon(cells: seq<Cell>, t: Ty, y: string)
    requires WfTy(t, |cells|) && t.TCon?
    ensures y in Ftv(cells, t) <==> exists k :: 0 <= k < |t.args| && y in Ftv(cells, t.args[k])
  {
  }

  /**
   * The free names after substitution: the names left unmapped, and the
   * free names of the types the mapped names are replaced by.
   */
  lemma {:induction false} ApplyFtv(cells: seq<Cell>, t: Ty, s: map<string, Ty>, y: string)
    requires WfTy(t, |cells|) && SubstWf(cells, s)
    ensures WfTy(ApplyTy(cells, t, s), |cells|)
    ensures y in Ftv(cells, ApplyTy(cells, t, s)) <==>
      (y in Ftv(cells, t) && y !in s) || exists n :: n in Ftv(cells, t) && n in s && y in Ftv(cells, s[n])
  {
    ApplyWf(cells, t, s);
    match t
    case TVar(i) =>
    case TCon(_, args) =>
      var r := ApplyTy(cells, t, s);
      forall k | 0 <= k < |args|
        ensures WfTy(args[k], |cells|)
        ensures y in Ftv(cells, r.args[k]) <==>
          (y in Ftv(cells, args[k]) && y !in s) || exists n :: n in Ftv(cells, args[k]) && n in s && y in Ftv(cells, s[n])
      {
        assert args[k] in args;
        ApplyFtv(cells, args[k], s, y);
      }
      FtvCon(cells, r, y);
      FtvCon(cells, t, y);
      forall n ensures n in Ftv(cells, t) <==> exists k :: 0 <= k < |args| && n in Ftv(cells, args[k]) {
        FtvCon(cells, t, n);
      }
  }

  /** The free names of a scheme: those of its body minus the bound ones. */
  function FtvScheme(cells: seq<Cell>, s: Scheme): set<string>
    requires WfTy(s.ty, |cells|)
  {
    Ftv(cells, s.ty) - set y | y in s.vars
  }

  function FtvCtx(cells: seq<Cell>, ctx: Ctx): set<string>
    requires CtxWf(cells, ctx)
  {
    set k, y | k in ctx && y in FtvScheme(cells, ctx[k]) :: y
  }

  function Without(xs: seq<string>, drop: set<string>): (r: seq<string>)
    ensures forall y :: y in r <==> y in xs && y !in drop
  {
    if xs == [] then []
    else
      assert forall y :: y in xs <==> y == xs[0] || y in xs[1..];
      (if xs[0] in drop then [] else [xs[0]]) + Without(xs[1..], drop)
  }

  /**
   * `generalize` as the prototype writes it: the context's free names are
   * taken from the raw scheme bodies, without following links.
   */
  function GeneralizeAsWritten(cells: seq<Cell>, ty: Ty, ctx: Ctx): (s: Scheme)
    requires WfTy(ty, |cells|) && CtxWf(cells, ctx)
    ensures s.ty == ty && Text.StrictlySorted(s.vars)
    ensures forall y :: y in s.vars <==> y in Ftv(cells, ty) && y !in FtvCtx(cells, ctx)
  {
    Forall(Text.SortUnique(Without(FtvList(cells, ty), FtvCtx(cells, ctx))), ty)
  }

  // ------------------------------------------------------------ freezing

  /** `recursive_find`: every variable replaced by what it resolves to, all the way down. */
  function Freeze(cells: seq<Cell>, ghost rank: seq<nat>, t: Ty, fuel: nat): (r: Option<Ty>)
    requires Ranked(cells, rank) && WfTy(t, |cells|)
    ensures r.Some? ==> WfTy(r.value, |cells|) && AllUnbound(cells, r.value)
    decreases fuel, 0
  {
    if fuel == 0 then None
    else
      match t
      case TVar(_) =>
        var found := Resolve(cells, rank, t);
        if found == t then Some(t) else Freeze(cells, rank, found, fuel - 1)
      case TCon(n, args) =>
        match FreezeAll(cells, rank, args, fuel - 1)
        case None => None
        case Some(frozen) => Some(TCon(n, frozen))
  }

  function FreezeAll(cells: seq<Cell>, ghost rank: seq<nat>, ts: seq<Ty>, fuel: nat): (r: Option<seq<Ty>>)
    requires Ranked(cells, rank) && forall a :: a in ts ==> WfTy(a, |cells|)
    ensures r.Some? ==> |r.value| == |ts|
    ensures r.Some? ==> forall k :: 0 <= k < |ts| ==> Freeze(cells, rank, ts[k], fuel) == Some(r.value[k])
    ensures r.None? ==> exists k :: 0 <= k < |ts| && Freeze(cells, rank, ts[k], fuel).None?
    decreases fuel, |ts| + 1
  {
    if ts == [] then Some([])
    else
      match Freeze(cells, rank, ts[0], fuel)
      case None => None
      case Some(first) =>
        match FreezeAll(cells, rank, ts[1..], fuel)
        case None =>
          assert forall k :: 1 <= k < |ts| ==> ts[k] == ts[1..][k - 1];
          None
        case Some(rest) =>
          assert forall k :: 1 <= k < |ts| ==> ts[k] == ts[1..][k - 1];
          Some([first] + rest)
  }

  /** A frozen type is equal to the original after resolution. */
  lemma {:induction false} FreezeSound(cells: seq<Cell>, rank: seq<nat>, t: Ty, fuel: nat)
    requires Ranked(cells, rank) && WfTy(t, |cells|) && Freeze(cells, rank, t, fuel).Some?
    ensures Unified(cells, rank, t, Freeze(cells, rank, t, fuel).value, fuel)
    decreases fuel
  {
    var u := Freeze(cells, rank, t, fuel).value;
    match t
    case TVar(_) =>
      var found := Resolve(cells, rank, t);
      if found != t && found.TCon? {
        FreezeSound(cells, rank, found, fuel - 1);
        UnifiedDeeper(cells, rank, found, u, fuel - 1, fuel);
      }
    case TCon(n, args) =>
      forall k | 0 <= k < |args| ensures Unified(cells, rank, args[k], u.args[k], fuel - 1) {
        assert args[k] in args;
        FreezeSound(cells, rank, args[k], fuel - 1);
      }
  }

  /** Freezing a type whose variables are all unbound gives it back (given enough depth). */
  lemma {:induction false} FreezeIdempotent(cells: seq<Cell>, rank: seq<nat>, u: Ty, fuel: nat)
    requires Ranked(cells, rank) && WfTy(u, |cells|) && AllUnbound(cells, u) && fuel > Height(u)
    ensures Freeze(cells, rank, u, fuel) == Some(u)
    decreases u
  {
    match u
    case TVar(_) =>
    case TCon(n, args) =>
      forall k | 0 <= k < |args| ensures Freeze(cells, rank, args[k], fuel - 1) == Some(args[k]) {
        assert args[k] in args;
        FreezeIdempotent(cells, rank, args[k], fuel - 1);
      }
      assert FreezeAll(cells, rank, args, fuel - 1).value == args;
  }

  /** Freezing twice is freezing once. */
  lemma FreezeTwice(cells: seq<Cell>, rank: seq<nat>, t: Ty, fuel: nat, fuel2: nat)
    requires Ranked(cells, rank) && WfTy(t, |cells|) && Freeze(cells, rank, t, fuel).Some?
    requires fuel2 > Height(Freeze(cells, rank, t, fuel).value)
    ensures Freeze(cells, rank, Freeze(cells, rank, t, fuel).value, fuel2) == Freeze(cells, rank, t, fuel)
  {
    FreezeIdempotent(cells, rank, Freeze(cells, rank, t, fuel).value, fuel2);
  }

  /** Every context body frozen; `None` when some body runs out of depth. */
  function FreezeCtx(cells: seq<Cell>, ghost rank: seq<nat>, ctx: Ctx, fuel: nat): (r: Option<Ctx>)
    requires Ranked(cells, rank) && CtxWf(cells, ctx)
    ensures r.Some? ==> r.value.Keys == ctx.Keys && CtxWf(cells, r.value)
    ensures r.Some? ==> forall k :: k in ctx ==>
      r.value[k].vars == ctx[k].vars && Freeze(cells, rank, ctx[k].ty, fuel) == Some(r.value[k].ty)
  {
    if forall k :: k in ctx ==> Freeze(cells, rank, ctx[k].ty, fuel).Some? then
      Some(map k | k in ctx :: Forall(ctx[k].vars, Freeze(cells, rank, ctx[k].ty, fuel).value))
    else None
  }

  /**
   * `generalize` with the context's free names taken after resolution: no
   * name the context still refers to is quantified.
   */
  function Generalize(cells: seq<Cell>, ghost rank: seq<nat>, ty: Ty, ctx: Ctx, fuel: nat): (r: Result<Scheme, Error>)
    requires Ranked(cells, rank) && WfTy(ty, |cells|) && CtxWf(cells, ctx)
    ensures r.Ok? ==> r.value.ty == ty && Text.StrictlySorted(r.value.vars)
    ensures r.Err? ==> r.error == RecursionLimit
  {
    match FreezeCtx(cells, rank, ctx, fuel)
    case None => Err(RecursionLimit)
    case Some(frozen) => Ok(GeneralizeAsWritten(cells, ty, frozen))
  }

  /**
   * Which names the corrected `generalize` binds: exactly those free in the
   * type and free in no frozen context scheme.
   */
  lemma GeneralizeBinds(cells: seq<Cell>, rank: seq<nat>, ty: Ty, ctx: Ctx, fuel: nat)
    requires Ranked(cells, rank) && WfTy(ty, |cells|) && CtxWf(cells, ctx)
    requires Generalize(cells, rank, ty, ctx, fuel).Ok?
    ensures var s := Generalize(cells, rank, ty, ctx, fuel).value;
      forall y :: y in s.vars ==> y in Ftv(cells, ty)
    ensures var s := Generalize(cells, rank, ty, ctx, fuel).value;
      forall y, k :: y in s.vars && k in ctx ==>
        Freeze(cells, rank, ctx[k].ty, fuel).Some? &&
        y !in FtvScheme(cells, Forall(ctx[k].vars, Freeze(cells, rank, ctx[k].ty, fuel).value))
    ensures var s := Generalize(cells, rank, ty, ctx, fuel).value;
      forall y ::
        (y in Ftv(cells, ty) &&
         forall k :: k in ctx ==>
           Freeze(cells, rank, ctx[k].ty, fuel).Some? &&
           y !in FtvScheme(cells, Forall(ctx[k].vars, Freeze(cells, rank, ctx[k].ty, fuel).value)))
        ==> y in s.vars
  {
  }

  /**
   * The prototype over-generalizes: in a store where the lambda parameter's
   * variable `a1` is linked to `t3`, generalizing `t3` quantifies `t3`
   * although the context still refers to it through `a1`.
   */
  lemma GeneralizeAsWrittenQuantifiesContextVariable()
    ensures var cells := [Cell("a1", Some(TVar(1))), Cell("t3", None)];
            var ctx := map["x" := Forall([], TVar(0))];
            Ranked(cells, [1, 0]) &&
            Resolve(cells, [1, 0], ctx["x"].ty) == TVar(1) &&
            GeneralizeAsWritten(cells, TVar(1), ctx).vars == ["t3"] &&
            Generalize(cells, [1, 0], TVar(1), ctx, 2) == Ok(Forall([], TVar(1)))
  {
    var cells := [Cell("a1", Some(TVar(1))), Cell("t3", None)];
    var ctx := map["x" := Forall([], TVar(0))];
    assert Ranked(cells, [1, 0]);
    assert FtvList(cells, TVar(0)) == ["a1"];
    assert FtvList(cells, TVar(1)) == ["t3"];
    assert Ftv(cells, TVar(1)) == {"t3"};
    assert forall k | k in ctx :: "t3" !in FtvScheme(cells, ctx[k]);
    var g := GeneralizeAsWritten(cells, TVar(1), ctx);
    assert "t3" in g.vars;
    Text.SortedUnique(g.vars, ["t3"]);
    var fc := FreezeCtx(cells, [1, 0], ctx, 2);
    assert Freeze(cells, [1, 0], TVar(1), 1) == Some(TVar(1));
    assert Freeze(cells, [1, 0], TVar(0), 2) == Some(TVar(1));
    assert fc.Some? && fc.value == map["x" := Forall([], TVar(1))];
    assert "x" in fc.value && "t3" in FtvScheme(cells, fc.value["x"]);
    assert Without(["t3"], FtvCtx(cells, fc.value)) == [];
  }

  /**
   * The variable branches of `unify` as the prototype writes them: when the
   * left end is a variable it is linked to the right end, even when both
   * ends are that same variable; otherwise the right end is linked to the left.
   */
  function BindEndsAsWritten(cells: seq<Cell>, a: Ty, b: Ty): (r: seq<Cell>)
    requires WfTy(a, |cells|) && WfTy(b, |cells|) && (a.TVar? || b.TVar?)
    ensures |r| == |cells|
    ensures WfCells(cells) ==> WfCells(r)
    ensures a.TVar? ==> r[a.id] == Cell(cells[a.id].name, Some(b))
    ensures !a.TVar? ==> r[b.id] == Cell(cells[b.id].name, Some(a))
  {
    if a.TVar? then Bind(cells, a.id, b) else Bind(cells, b.id, a)
  }

  lemma {:induction false} FollowSelfLink(cells: seq<Cell>, n: nat)
    requires |cells| == 1 && cells[0].link == Some(TVar(0))
    ensures WfCells(cells) && Follow(cells, TVar(0), n) == TVar(0)
    decreases n
  {
    if n > 0 { FollowSelfLink(cells, n - 1); }
  }

  /**
   * Unifying an unbound variable with itself links it to itself: `find`
   * then never reaches an end, and no rank can justify the arena.
   */
  lemma SelfLinkNeverResolves()
    ensures var c := BindEndsAsWritten([Cell("a1", None)], TVar(0), TVar(0));
      c == [Cell("a1", Some(TVar(0)))] && WfCells(c) &&
      (forall n: nat :: Follow(c, TVar(0), n) == TVar(0) && !IsEnd(c, Follow(c, TVar(0), n))) &&
      (forall rank :: !Ranked(c, rank))
  {
    var c := BindEndsAsWritten([Cell("a1", None)], TVar(0), TVar(0));
    assert c == [Cell("a1", Some(TVar(0)))];
    forall n: nat ensures Follow(c, TVar(0), n) == TVar(0) { FollowSelfLink(c, n); }
    forall rank ensures !Ranked(c, rank) {
      if |rank| == |c| {
        assert c[0].link.Some? && c[0].link.value.TVar? && c[0].link.value.id == 0;
        assert rank[0] <= rank[0];
      }
    }
  }

  /**
   * What one level of `unify` does with the resolved ends `a` and `b` of its
   * arguments, before any argument pairs: `after` is the arena it leaves.
   */
  ghost predicate UnifyStep(cells: seq<Cell>, rank: seq<nat>, t1: Ty, t2: Ty, res: Result<(), Error>, after: seq<Cell>)
    requires Ranked(cells, rank) && WfTy(t1, |cells|) && WfTy(t2, |cells|)
  {
    var a := Resolve(cells, rank, t1);
    var b := Resolve(cells, rank, t2);
    (a == b && a.TVar? ==> res.Ok? && after == cells) &&
    (a != b && a.TVar? ==> res.Ok? && after == Bind(cells, a.id, b)) &&
    (a.TCon? && b.TVar? ==> res.Ok? && after == Bind(cells, b.id, a)) &&
    (a.TCon? && b.TCon? && a.name != b.name ==>
      res == Err(TypeError("Failed to unify")) && after == cells) &&
    (a.TCon? && b.TCon? && a.name == b.name && |a.args| != |b.args| ==>
      res == Err(TypeError("Failed to unify args")) && after == cells)
  }

  // ---------------------------------------------------- fresh substitution

  /** The mapping `instantiate` builds: each bound name to the next fresh variable (a later duplicate wins). */
  function FreshSubst(vars: seq<string>, base: nat): (m: map<string, Ty>)
    ensures m.Keys == set y | y in vars
    decreases |vars|
  {
    if vars == [] then map[]
    else FreshSubst(vars[..|vars| - 1], base)[vars[|vars| - 1] := TVar(base + |vars| - 1)]
  }

  /**
   * Instantiation uses one fresh variable per bound name: each name maps to
   * the variable created for its last occurrence, and distinct names map to
   * distinct variables.
   */
  lemma {:induction false} FreshSubstFresh(vars: seq<string>, base: nat, y: string)
    requires y in vars
    ensures var m := FreshSubst(vars, base);
      y in m && m[y].TVar? && base <= m[y].id < base + |vars| && vars[m[y].id - base] == y
    decreases |vars|
  {
    if vars[|vars| - 1] != y {
      var init := vars[..|vars| - 1];
      var k :| 0 <= k < |vars| && vars[k] == y;
      assert init[k] == y;
      FreshSubstFresh(init, base, y);
    }
  }

  /** The fresh variables are cells of any store that has them. */
  lemma FreshSubstWf(vars: seq<string>, base: nat, cells: seq<Cell>)
    requires base + |vars| <= |cells|
    ensures SubstWf(cells, FreshSubst(vars, base))
  {
    forall y | y in FreshSubst(vars, base) ensures WfTy(FreshSubst(vars, base)[y], |cells|) {
      FreshSubstFresh(vars, base, y);
    }
  }

  lemma FreshSubstInjective(vars: seq<string>, base: nat, y: string, z: string)
    requires y in vars && z in vars && y != z
    ensures FreshSubst(vars, base)[y] != FreshSubst(vars, base)[z]
  {
    FreshSubstFresh(vars, base, y);
    FreshSubstFresh(vars, base, z);
  }

  // ----------------------------------------------------------- the store

  // ------------------------------------------------------- inference rules

  /** The `Var` rule: the result `TVar(r)` is unified with the instance of `s` whose fresh variables start at `r + 1`. */
  ghost predicate VarRule(cells: seq<Cell>, rank: seq<nat>, r: nat, s: Scheme, fuel: nat) {
    Ranked(cells, rank) && r < |cells| && WfTy(s.ty, |cells|) &&
    SubstWf(cells, FreshSubst(s.vars, r + 1)) &&
    WfTy(ApplyTy(cells, s.ty, FreshSubst(s.vars, r + 1)), |cells|) &&
    Unified(cells, rank, TVar(r), ApplyTy(cells, s.ty, FreshSubst(s.vars, r + 1)), fuel)
  }

  /** The `Function` rule: the result `TVar(r)` is unified with parameter `r + 1` to body result `r + 2`. */
  ghost predicate FunctionRule(cells: seq<Cell>, rank: seq<nat>, r: nat, fuel: nat) {
    Ranked(cells, rank) && r + 2 < |cells| &&
    Unified(cells, rank, TVar(r), FuncType(TVar(r + 1), TVar(r + 2)), fuel)
  }

  /** The `Where` rule's `generalize(recursive_find(value))`: variable `v` of the store got scheme `s`. */
  ghost predicate Generalized(cells: seq<Cell>, rank: seq<nat>, v: nat, ctx: Ctx, s: Scheme, fuel: nat) {
    Ranked(cells, rank) && v < |cells| && CtxWf(cells, ctx) &&
    Freeze(cells, rank, TVar(v), fuel).Some? &&
    Generalize(cells, rank, Freeze(cells, rank, TVar(v), fuel).value, ctx, fuel) == Ok(s)
  }

  /**
   * How `infer` typed a tree: one node per `Function`, `Apply` and `Where`,
   * each sub-derivation kept with the store (and its ranks) in which that
   * sub-term's inference finished; for `Where`, that store is also where
   * the bound value was generalized, and the node records the scheme it got.
   */
  datatype Deriv =
    | Leaf
    | DFunction(body: Deriv, bodyCells: seq<Cell>, bodyRank: seq<nat>)
    | DApply(func: Deriv, funcCells: seq<Cell>, funcRank: seq<nat>,
             argAt: nat, arg: Deriv, argCells: seq<Cell>, argRank: seq<nat>)
    | DWhere(value: Deriv, mid: seq<Cell>, midRank: seq<nat>, scheme: Scheme,
             body: Deriv, bodyCells: seq<Cell>, bodyRank: seq<nat>)

  /**
   * The typing rules of `infer`, case by case: `e` was inferred in `ctx`
   * with its result variable at `r`, and the store `cells` keeps what each
   * rule unified. A sub-term's type is the variable its own inference
   * created first: the body of a `Function` at `r + 2`, the function of an
   * `Apply` at `r + 1` and its argument at `argAt`, the value of a `Where`
   * at `r + 1` and its body at the first cell after the store `mid`. Each
   * sub-term is typed in the store its inference left, which `cells` extends.
   */
  ghost predicate Typed(cells: seq<Cell>, rank: seq<nat>, ctx: Ctx, e: Expr, d: Deriv, r: nat, fuel: nat)
    decreases e
  {
    Ranked(cells, rank) && r < |cells| && CtxWf(cells, ctx) &&
    match e
    case Var(x) => x in ctx && VarRule(cells, rank, r, ctx[x], fuel)
    case Int => Unified(cells, rank, TVar(r), IntType, fuel)
    case Bool => Unified(cells, rank, TVar(r), BoolType, fuel)
    case Function(p, body) =>
      // the parameter is bound to the monomorphic scheme of `r + 1`
      d.DFunction? && FunctionRule(cells, rank, r, fuel) && Extends(d.bodyCells, cells) &&
      Typed(d.bodyCells, d.bodyRank, ctx[p := Forall([], TVar(r + 1))], body, d.body, r + 2, fuel)
    case Apply(f, a) =>
      // the function's type is unified with `argument -> result`
      d.DApply? && r + 1 < d.argAt && Extends(d.funcCells, cells) && Extends(d.argCells, cells) &&
      Typed(d.funcCells, d.funcRank, ctx, f, d.func, r + 1, fuel) &&
      Typed(d.argCells, d.argRank, ctx, a, d.arg, d.argAt, fuel) &&
      Unified(cells, rank, TVar(r + 1), FuncType(TVar(d.argAt), TVar(r)), fuel)
    case Where(x, v, body) =>
      // the value is frozen and generalized in the store reached after it,
      // and the body is typed with `x` bound to that scheme
      d.DWhere? && r + 1 < |d.mid| && Extends(d.mid, cells) && Extends(d.bodyCells, cells) &&
      Generalized(d.mid, d.midRank, r + 1, ctx, d.scheme, fuel) &&
      Typed(d.mid, d.midRank, ctx, v, d.value, r + 1, fuel) &&
      Typed(d.bodyCells, d.bodyRank, ctx[x := d.scheme], body, d.body, |d.mid|, fuel) &&
      Unified(cells, rank, TVar(r), TVar(|d.mid|), fuel)
    case Assign(_, _) => false
  }

  /** A grown store keeps every derivation: unification only adds links. */
  lemma TypedExtends(c: seq<Cell>, r: seq<nat>, c2: seq<Cell>, r2: seq<nat>,
                     ctx: Ctx, e: Expr, d: Deriv, at: nat, fuel: nat)
    requires Ranked(c2, r2) && Extends(c, c2) && Typed(c, r, ctx, e, d, at, fuel)
    ensures Typed(c2, r2, ctx, e, d, at, fuel)
  {
    CtxWiden(c, c2, ctx);
    match e
    case Var(x) =>
      var s := ctx[x];
      var sub := FreshSubst(s.vars, at + 1);
      ApplyKeepsNames(c, c2, s.ty, sub);
      forall n | n in sub ensures WfTy(sub[n], |c2|) { WfWiden(sub[n], |c|, |c2|); }
      UnifiedExtends(c, r, c2, r2, TVar(at), ApplyTy(c, s.ty, sub), fuel);
    case Int =>
      UnifiedExtends(c, r, c2, r2, TVar(at), IntType, fuel);
    case Bool =>
      UnifiedExtends(c, r, c2, r2, TVar(at), BoolType, fuel);
    case Function(p, body) =>
      ExtendsTrans(d.bodyCells, c, c2);
      UnifiedExtends(c, r, c2, r2, TVar(at), FuncType(TVar(at + 1), TVar(at + 2)), fuel);
    case Apply(f, a) =>
      ExtendsTrans(d.funcCells, c, c2);
      ExtendsTrans(d.argCells, c, c2);
      UnifiedExtends(c, r, c2, r2, TVar(at + 1), FuncType(TVar(d.argAt), TVar(at)), fuel);
    case Where(x, v, body) =>
      ExtendsTrans(d.mid, c, c2);
      ExtendsTrans(d.bodyCells, c, c2);
      UnifiedExtends(c, r, c2, r2, TVar(at), TVar(|d.mid|), fuel);
  }

  /**
   * The store of all `TyVar` objects together with `fresh_var_counter`.
   * `rank` is a proof device: it shows that `find` terminates.
   */
  class TypeStore {
    var cells: seq<Cell>
    var counter: nat
    ghost var rank: seq<nat>

    ghost predicate Valid()
      reads this
    {
      Ranked(cells, rank)
    }

    constructor ()
      ensures Valid() && cells == [] && counter == 0
    {
      cells := [];
      counter := 0;
      rank := [];
    }

    /** `TyVar(name)`: a new unbound variable with the given name. */
    method NewVar(name: string) returns (v: Ty)
      requires Valid()
      modifies this
      ensures Valid() && v == TVar(|old(cells)|)
      ensures cells == old(cells) + [Cell(name, None)] && counter == old(counter)
      ensures Extends(old(cells), cells)
    {
      forall i | 0 <= i < |cells| && cells[i].link.Some?
        ensures WfTy(cells[i].link.value, |cells| + 1)
      {
        WfWiden(cells[i].link.value, |cells|, |cells| + 1);
      }
      v := TVar(|cells|);
      cells := cells + [Cell(name, None)];
      rank := rank + [0];
    }

    /** `fresh_tyvar(prefix)`: a new variable named by the prefix and the counter, which then increases. */
    method FreshTyVar(prefix: string) returns (v: Ty)
      requires Valid()
      modifies this
      ensures Valid() && v == TVar(|old(cells)|)
      ensures cells == old(cells) + [Cell(FreshName(prefix, old(counter)), None)]
      ensures counter == old(counter) + 1
      ensures Extends(old(cells), cells)
    {
      var name := FreshName(prefix, counter);
      counter := counter + 1;
      v := NewVar(name);
    }

    /** `find`: follows links to the first unbound variable or constructor. */
    method Find(t: Ty) returns (r: Ty)
      requires Valid() && WfTy(t, |cells|)
      ensures r == Resolve(cells, rank, t)
    {
      r := t;
      while r.TVar?
        invariant WfTy(r, |cells|)
        invariant Resolve(cells, rank, r) == Resolve(cells, rank, t)
        decreases if r.TVar? then rank[r.id] + 1 else 0
      {
        match cells[r.id].link
        case None => return;
        case Some(next) => r := next;
      }
    }

    /**
     * `make_equal_to`: links the end of `v`'s chain to `other`, and fails
     * the assertion when that end is already a constructor. `other` must not
     * resolve to that same end, or the link would close a cycle.
     */
    method MakeEqualTo(v: nat, other: Ty) returns (res: Result<(), Error>)
      requires Valid() && v < |cells| && WfTy(other, |cells|)
      requires Resolve(cells, rank, other) != Resolve(cells, rank, TVar(v))
      modifies this`cells, this`rank
      ensures Valid()
      ensures var end := Resolve(old(cells), old(rank), TVar(v));
        if end.TVar? then res.Ok? && cells == Bind(old(cells), end.id, other)
        else res == Err(AssertionError("already resolved")) && cells == old(cells)
    {
      var end := Find(TVar(v));
      if end.TCon? {
        return Err(AssertionError("already resolved"));
      }
      BindKeepsRanked(cells, rank, end.id, other);
      rank := BindRank(cells, rank, end.id, other);
      cells := Bind(cells, end.id, other);
      res := Ok(());
    }

    /**
     * `unify`: binds whichever side resolves to a variable (the left one
     * first), fails on a constructor name or argument-count mismatch, and
     * otherwise unifies the arguments pairwise from left to right, stopping
     * at the first failure. Two sides that resolve to the same variable are
     * left alone (see the self-link finding).
     */
    method Unify(t1: Ty, t2: Ty, fuel: nat) returns (res: Result<(), Error>)
      requires Valid() && WfTy(t1, |cells|) && WfTy(t2, |cells|)
      modifies this`cells, this`rank
      ensures Valid() && Extends(old(cells), cells) && |cells| == |old(cells)|
      ensures res.Ok? ==> Unified(cells, rank, t1, t2, fuel)
      ensures fuel == 0 ==> res == Err(RecursionLimit) && cells == old(cells)
      ensures fuel > 0 ==> UnifyStep(old(cells), old(rank), t1, t2, res, cells)
      decreases fuel, 2
    {
      if fuel == 0 {
        return Err(RecursionLimit);
      }
      var a := Find(t1);
      var b := Find(t2);
      if a.TVar? || b.TVar? {
        if a == b {
          return Ok(());
        }
        ghost var c0, r0 := cells, rank;
        var v, other := if a.TVar? then a.id else b.id, if a.TVar? then b else a;
        res := MakeEqualTo(v, other);
        ResolveAfterBind(c0, r0, v, other, rank, t1);
        ResolveAfterBind(c0, r0, v, other, rank, t2);
        return;
      }
      if a.name != b.name {
        return Err(TypeError("Failed to unify"));
      }
      if |a.args| != |b.args| {
        return Err(TypeError("Failed to unify args"));
      }
      res := UnifyArgs(a, b, fuel);
      ResolveThroughEnd(old(cells), old(rank), cells, rank, t1);
      ResolveThroughEnd(old(cells), old(rank), cells, rank, t2);
    }

    /** The `zip` loop of `unify`: argument pairs unified left to right until one fails. */
    method UnifyArgs(a: Ty, b: Ty, fuel: nat) returns (res: Result<(), Error>)
      requires Valid() && WfTy(a, |cells|) && WfTy(b, |cells|)
      requires fuel > 0 && a.TCon? && b.TCon? && |a.args| == |b.args|
      modifies this`cells, this`rank
      ensures Valid() && Extends(old(cells), cells) && |cells| == |old(cells)|
      ensures res.Ok? ==> PairsUnified(cells, rank, a.args, b.args, |a.args|, fuel - 1)
      decreases fuel, 1
    {
      assert forall k :: 0 <= k < |a.args| ==> a.args[k] in a.args && b.args[k] in b.args;
      var i := 0;
      assert PairsUnified(cells, rank, a.args, b.args, 0, fuel - 1);
      while i < |a.args|
        invariant 0 <= i <= |a.args|
        invariant Valid() && Extends(old(cells), cells) && |cells| == |old(cells)|
        invariant PairsUnified(cells, rank, a.args, b.args, i, fuel - 1)
      {
        ghost var c0 := cells;
        res := UnifyPair(a.args, b.args, i, fuel - 1);
        if res.Err? {
          return;
        }
        ExtendsTrans(old(cells), c0, cells);
        i := i + 1;
      }
      res := Ok(());
    }

    /** One step of the `zip` loop: unifies the `i`-th pair, keeping the earlier pairs unified. */
    method UnifyPair(xs: seq<Ty>, ys: seq<Ty>, i: nat, depth: nat) returns (res: Result<(), Error>)
      requires Valid() && i < |xs| && i < |ys|
      requires WfTy(xs[i], |cells|) && WfTy(ys[i], |cells|)
      requires PairsUnified(cells, rank, xs, ys, i, depth)
      modifies this`cells, this`rank
      ensures Valid() && Extends(old(cells), cells) && |cells| == |old(cells)|
      ensures res.Ok? ==> PairsUnified(cells, rank, xs, ys, i + 1, depth)
      decreases depth + 1, 0
    {
      ghost var c0, r0 := cells, rank;
      res := Unify(xs[i], ys[i], depth);
      if res.Ok? {
        PairsUnifiedExtend(c0, r0, cells, rank, xs, ys, i, depth);
        PairsUnifiedNext(cells, rank, xs, ys, i, depth);
      }
    }

    /** `instantiate`: one fresh variable per bound name, substituted into the body. */
    method Instantiate(s: Scheme) returns (t: Ty)
      requires Valid() && WfTy(s.ty, |cells|)
      modifies this
      ensures Valid() && Extends(old(cells), cells)
      ensures cells == old(cells) + FreshCells("t", old(counter), |s.vars|)
      ensures counter == old(counter) + |s.vars|
      ensures WfTy(s.ty, |cells|) && WfTy(t, |cells|)
      ensures t == ApplyTy(cells, s.ty, FreshSubst(s.vars, |old(cells)|))
    {
      var base := |cells|;
      var subst: map<string, Ty> := map[];
      var i := 0;
      while i < |s.vars|
        invariant 0 <= i <= |s.vars|
        invariant Valid() && Extends(old(cells), cells)
        invariant cells == old(cells) + FreshCells("t", old(counter), i)
        invariant counter == old(counter) + i
        invariant subst == FreshSubst(s.vars[..i], base)
        invariant forall y :: y in subst ==> subst[y].TVar? && subst[y].id < |cells|
      {
        ghost var c0 := cells;
        var v := FreshTyVar("t");
        ExtendsTrans(old(cells), c0, cells);
        assert s.vars[..i + 1][..i] == s.vars[..i];
        subst := subst[s.vars[i] := v];
        i := i + 1;
      }
      assert s.vars[..i] == s.vars;
      WfWiden(s.ty, |old(cells)|, |cells|);
      ApplyWf(cells, s.ty, subst);
      t := ApplyTy(cells, s.ty, subst);
    }

    /**
     * `infer`: a fresh result variable first, then the node's own rule; an
     * exception raised on the way becomes `Err`. The result is always the
     * variable created first, and `d` records how each rule typed the tree.
     */
    method Infer(e: Expr, ctx: Ctx, fuel: nat) returns (res: Result<Ty, Error>, ghost d: Deriv)
      requires Valid() && CtxWf(cells, ctx)
      modifies this
      ensures Valid() && Extends(old(cells), cells) && |cells| > |old(cells)|
      ensures counter - old(counter) == |cells| - |old(cells)|
      ensures cells[|old(cells)|].name == FreshName("t", old(counter))
      ensures res.Ok? ==> res.value == TVar(|old(cells)|)
      ensures e.Var? && e.name !in ctx ==> res == Err(TypeError("Unbound variable " + e.name))
      ensures e.Var? && e.name in ctx && res.Ok? ==>
        VarRule(cells, rank, |old(cells)|, ctx[e.name], fuel)
      ensures e.Int? ==> (res.Ok? <==> fuel > 0) && (res.Ok? ==> Unified(cells, rank, TVar(|old(cells)|), IntType, fuel))
      ensures e.Bool? ==> (res.Ok? <==> fuel > 0) && (res.Ok? ==> Unified(cells, rank, TVar(|old(cells)|), BoolType, fuel))
      ensures e.Function? && res.Ok? ==>
        FunctionRule(cells, rank, |old(cells)|, fuel) &&
        cells[|old(cells)| + 1].name == FreshName("a", old(counter) + 1)
      ensures res.Ok? ==> Typed(cells, rank, ctx, e, d, |old(cells)|, fuel)
      ensures e.Assign? ==> res == Err(TypeError("Unexpected type"))
      decreases e, 2
    {
      d := Leaf;
      var result := FreshTyVar("t");
      CtxWiden(old(cells), cells, ctx);
      match e {
      case Var(name) =>
        if name !in ctx {
          res := Err(TypeError("Unbound variable " + name));
          return;
        }
        res := InferVar(ctx[name], fuel, result);
      case Int =>
        res := UnifyResult(result, IntType, fuel);
      case Bool =>
        res := UnifyResult(result, BoolType, fuel);
      case Function(_, _) =>
        res, d := InferFunction(e, ctx, fuel, result);
      case Apply(_, _) =>
        res, d := InferApply(e, ctx, fuel, result);
      case Where(_, _, _) =>
        res, d := InferWhere(e, ctx, fuel, result);
      case Assign(_, _) =>
        res := Err(TypeError("Unexpected type"));
      }
      CtxWiden(old(cells), cells, ctx);
    }

    /** The cell of `result` was the last one created and is still unbound. */
    ghost predicate FreshResult(result: Ty)
      reads this
    {
      result.TVar? && result.id + 1 == |cells| && cells[result.id].link.None?
    }

    /** The `Var` rule once the name is found: unify the result with an instance of its scheme. */
    method InferVar(s: Scheme, fuel: nat, result: Ty) returns (res: Result<Ty, Error>)
      requires Valid() && FreshResult(result) && WfTy(s.ty, |cells|)
      modifies this
      ensures Valid() && Extends(old(cells), cells)
      ensures counter - old(counter) == |cells| - |old(cells)|
      ensures res.Ok? ==> res.value == result && VarRule(cells, rank, result.id, s, fuel)
    {
      var t := Instantiate(s);
      ghost var ci := cells;
      var u := Unify(result, t, fuel);
      ApplyKeepsNames(ci, cells, s.ty, FreshSubst(s.vars, result.id + 1));
      FreshSubstWf(s.vars, result.id + 1, cells);
      if u.Err? {
        return Err(u.error);
      }
      res := Ok(result);
    }

    /** The `Int` and `Bool` rules: unify the result with the constant type. */
    method UnifyResult(result: Ty, con: Ty, fuel: nat) returns (res: Result<Ty, Error>)
      requires Valid() && FreshResult(result) && con.TCon? && WfTy(con, |cells|)
      modifies this`cells, this`rank
      ensures Valid() && Extends(old(cells), cells) && |cells| == |old(cells)|
      ensures res.Ok? <==> fuel > 0
      ensures res.Ok? ==> res.value == result && Unified(cells, rank, result, con, fuel)
    {
      var u := Unify(result, con, fuel);
      if u.Err? {
        return Err(u.error);
      }
      res := Ok(result);
    }

    /** The `Function` rule: the parameter gets a fresh `a` variable and the result becomes `param -> body`. */
    method InferFunction(e: Expr, ctx: Ctx, fuel: nat, result: Ty) returns (res: Result<Ty, Error>, ghost d: Deriv)
      requires Valid() && CtxWf(cells, ctx) && FreshResult(result) && e.Function?
      modifies this
      ensures Valid() && Extends(old(cells), cells)
      ensures counter - old(counter) == |cells| - |old(cells)|
      ensures res.Ok? ==> (res.value == result && FunctionRule(cells, rank, result.id, fuel) &&
        cells[result.id + 1].name == FreshName("a", old(counter)))
      ensures res.Ok? ==> Typed(cells, rank, ctx, e, d, result.id, fuel)
      decreases e, 1
    {
      var argVar := FreshTyVar("a");
      CtxWiden(old(cells), cells, ctx);
      ghost var c1 := cells;
      res, d := InferFunctionBody(e, ctx, fuel, result, argVar);
      ExtendsTrans(old(cells), c1, cells);
    }

    /** The rest of the `Function` rule once the parameter's variable exists: the body is inferred with it bound. */
    method InferFunctionBody(e: Expr, ctx: Ctx, fuel: nat, result: Ty, argVar: Ty) returns (res: Result<Ty, Error>, ghost d: Deriv)
      requires Valid() && CtxWf(cells, ctx) && e.Function? && result.TVar?
      requires argVar == TVar(result.id + 1) && result.id + 2 == |cells|
      modifies this
      ensures Valid() && Extends(old(cells), cells)
      ensures counter - old(counter) == |cells| - |old(cells)|
      ensures res.Ok? ==> res.value == result && FunctionRule(cells, rank, result.id, fuel)
      ensures res.Ok? ==> Typed(cells, rank, ctx, e, d, result.id, fuel)
      decreases e, 0
    {
      d := Leaf;
      assert CtxWf(cells, ctx[e.param := Forall([], argVar)]);
      var bodyTy, db := Infer(e.body, ctx[e.param := Forall([], argVar)], fuel);
      if bodyTy.Err? {
        res := Err(bodyTy.error);
        return;
      }
      ghost var c2, r2 := cells, rank;
      CtxWiden(old(cells), c2, ctx);
      res := FinishFunction(e.param, e.body, ctx, fuel, result, argVar, bodyTy.value, db);
      ExtendsTrans(old(cells), c2, cells);
      d := DFunction(db, c2, r2);
    }

    /** The last step of the `Function` rule: the result is unified with `param -> body`. */
    method FinishFunction(p: string, body: Expr, ctx: Ctx, fuel: nat, result: Ty, argTy: Ty, bodyTy: Ty, ghost db: Deriv)
      returns (res: Result<Ty, Error>)
      requires Valid() && CtxWf(cells, ctx) && result.TVar? && result.id + 2 < |cells|
      requires argTy == TVar(result.id + 1) && bodyTy == TVar(result.id + 2)
      requires Typed(cells, rank, ctx[p := Forall([], TVar(result.id + 1))], body, db, result.id + 2, fuel)
      modifies this`cells, this`rank
      ensures Valid() && Extends(old(cells), cells) && |cells| == |old(cells)|
      ensures res.Ok? ==> res.value == result && FunctionRule(cells, rank, result.id, fuel)
      ensures res.Ok? ==> Typed(cells, rank, ctx, Function(p, body), DFunction(db, old(cells), old(rank)), result.id, fuel)
    {
      var u := Unify(result, FuncType(argTy, bodyTy), fuel);
      if u.Err? {
        res := Err(u.error);
        return;
      }
      res := Ok(result);
    }

    /** The `Apply` rule: the function's type is unified with `argument -> result`. */
    method InferApply(e: Expr, ctx: Ctx, fuel: nat, result: Ty) returns (res: Result<Ty, Error>, ghost d: Deriv)
      requires Valid() && CtxWf(cells, ctx) && FreshResult(result) && e.Apply?
      modifies this
      ensures Valid() && Extends(old(cells), cells)
      ensures counter - old(counter) == |cells| - |old(cells)|
      ensures res.Ok? ==> res.value == result && Typed(cells, rank, ctx, e, d, result.id, fuel)
      decreases e, 1
    {
      d := Leaf;
      var funcTy, df := Infer(e.func, ctx, fuel);
      if funcTy.Err? {
        res := Err(funcTy.error);
        return;
      }
      ghost var c1, r1 := cells, rank;
      CtxWiden(old(cells), cells, ctx);
      var argTy, da := Infer(e.arg, ctx, fuel);
      ExtendsTrans(old(cells), c1, cells);
      if argTy.Err? {
        res := Err(argTy.error);
        return;
      }
      CtxWiden(old(cells), cells, ctx);
      ghost var c2, r2 := cells, rank;
      res := FinishApply(e.func, e.arg, ctx, fuel, result, funcTy.value, argTy.value, c1, r1, df, da);
      ExtendsTrans(old(cells), c2, cells);
      d := DApply(df, c1, r1, |c1|, da, c2, r2);
    }

    /** The last step of the `Apply` rule: the function's type is unified with `argument -> result`. */
    method FinishApply(f: Expr, a: Expr, ctx: Ctx, fuel: nat, result: Ty, funcTy: Ty, argTy: Ty, ghost c1: seq<Cell>, ghost r1: seq<nat>,
                       ghost df: Deriv, ghost da: Deriv)
      returns (res: Result<Ty, Error>)
      requires Valid() && CtxWf(cells, ctx) && result.TVar? && result.id + 1 < |c1| < |cells|
      requires funcTy == TVar(result.id + 1) && argTy == TVar(|c1|)
      requires Extends(c1, cells) && Typed(c1, r1, ctx, f, df, result.id + 1, fuel)
      requires Typed(cells, rank, ctx, a, da, |c1|, fuel)
      modifies this`cells, this`rank
      ensures Valid() && Extends(old(cells), cells) && |cells| == |old(cells)|
      ensures res.Ok? ==> res.value == result
      ensures res.Ok? ==>
        Typed(cells, rank, ctx, Apply(f, a), DApply(df, c1, r1, |c1|, da, old(cells), old(rank)), result.id, fuel)
    {
      var u := Unify(funcTy, FuncType(argTy, result), fuel);
      if u.Err? {
        res := Err(u.error);
        return;
      }
      ExtendsTrans(c1, old(cells), cells);
      res := Ok(result);
    }

    /**
     * The `Where` rule: the bound value is inferred, frozen and generalized
     * (against the frozen context), and the body is inferred with the name
     * bound to that scheme; the result is unified with the body's type.
     */
    method InferWhere(e: Expr, ctx: Ctx, fuel: nat, result: Ty) returns (res: Result<Ty, Error>, ghost d: Deriv)
      requires Valid() && CtxWf(cells, ctx) && FreshResult(result) && e.Where?
      modifies this
      ensures Valid() && Extends(old(cells), cells)
      ensures counter - old(counter) == |cells| - |old(cells)|
      ensures res.Ok? ==> res.value == result && Typed(cells, rank, ctx, e, d, result.id, fuel)
      decreases e, 1
    {
      d := Leaf;
      var valueTy, dv := Infer(e.value, ctx, fuel);
      if valueTy.Err? {
        res := Err(valueTy.error);
        return;
      }
      CtxWiden(old(cells), cells, ctx);
      ghost var c1 := cells;
      res, d := InferWhereBody(e, ctx, fuel, result, valueTy.value, dv);
      ExtendsTrans(old(cells), c1, cells);
    }

    /**
     * The rest of the `Where` rule once the value's type is inferred: it is
     * frozen and generalized, and the body is inferred with the name bound
     * to that scheme.
     */
    method InferWhereBody(e: Expr, ctx: Ctx, fuel: nat, result: Ty, valueTy: Ty, ghost dv: Deriv)
      returns (res: Result<Ty, Error>, ghost d: Deriv)
      requires Valid() && CtxWf(cells, ctx) && e.Where? && result.TVar? && result.id + 1 < |cells|
      requires valueTy == TVar(result.id + 1)
      requires Typed(cells, rank, ctx, e.value, dv, result.id + 1, fuel)
      modifies this
      ensures Valid() && Extends(old(cells), cells)
      ensures counter - old(counter) == |cells| - |old(cells)|
      ensures res.Ok? ==> res.value == result && Typed(cells, rank, ctx, e, d, result.id, fuel)
      decreases e, 0
    {
      d := Leaf;
      var frozen := Freeze(cells, rank, valueTy, fuel);
      if frozen.None? {
        res := Err(RecursionLimit);
        return;
      }
      var scheme := Generalize(cells, rank, frozen.value, ctx, fuel);
      if scheme.Err? {
        res := Err(scheme.error);
        return;
      }
      assert Generalized(cells, rank, result.id + 1, ctx, scheme.value, fuel);
      ghost var c1, r1 := cells, rank;
      var bodyTy, db := Infer(e.body, ctx[e.bound := scheme.value], fuel);
      if bodyTy.Err? {
        res := Err(bodyTy.error);
        return;
      }
      CtxWiden(c1, cells, ctx);
      ghost var c2 := cells;
      ghost var r2 := rank;
      res := FinishWhere(e.bound, e.value, e.body, ctx, fuel, result, bodyTy.value, c1, r1, dv, scheme.value, db);
      ExtendsTrans(c1, c2, cells);
      d := DWhere(dv, c1, r1, scheme.value, db, c2, r2);
    }

    /** The last step of the `Where` rule: the result is unified with the body's type. */
    method FinishWhere(x: string, v: Expr, body: Expr, ctx: Ctx, fuel: nat, result: Ty, bodyTy: Ty,
                       ghost c1: seq<Cell>, ghost r1: seq<nat>, ghost dv: Deriv, ghost s: Scheme, ghost db: Deriv)
      returns (res: Result<Ty, Error>)
      requires Valid() && CtxWf(cells, ctx) && result.TVar? && result.id + 1 < |c1| < |cells|
      requires bodyTy == TVar(|c1|)
      requires Extends(c1, cells) && Typed(c1, r1, ctx, v, dv, result.id + 1, fuel)
      requires Generalized(c1, r1, result.id + 1, ctx, s, fuel)
      requires Typed(cells, rank, ctx[x := s], body, db, |c1|, fuel)
      modifies this`cells, this`rank
      ensures Valid() && Extends(old(cells), cells) && |cells| == |old(cells)|
      ensures res.Ok? ==> res.value == result
      ensures res.Ok? ==>
        Typed(cells, rank, ctx, Where(x, v, body), DWhere(dv, c1, r1, s, db, old(cells), old(rank)), result.id, fuel)
    {
      var u := Unify(result, bodyTy, fuel);
      if u.Err? {
        res := Err(u.error);
        return;
      }
      ExtendsTrans(c1, old(cells), cells);
      res := Ok(result);
    }
  }
}
