/**
 * The union-find type graph shared by every Hindley-Milner variant of the
 * compiler. A type variable is a cell of an arena (its name and an optional
 * forwarding link); a type constructor is an immutable value holding its
 * argument types. The functions here are the specification the stores of
 * the individual variants are proved against.
 */
module TypeGraph {
  import opened Wrappers

  /** A monotype: a reference to a variable cell or a constructor. */
  datatype Ty = TVar(id: nat) | TCon(name: string, args: seq<Ty>)

  /**
   * The function type `arg -> ret`: the `->` constructor, argument first.
   * The Python prototype and both C engines build it the same way.
   */
  function FuncType(arg: Ty, ret: Ty): (t: Ty)
    ensures t.TCon? && t.name == "->" && t.args == [arg, ret]
  {
    TCon("->", [arg, ret])
  }

  /** A type variable: its name and the link set when it is bound. */
  datatype Cell = Cell(name: string, link: Option<Ty>)

  /** Every variable `t` refers to is one of the `n` cells. */
  predicate WfTy(t: Ty, n: nat) {
    match t
    case TVar(i) => i < n
    case TCon(_, args) => forall a :: a in args ==> WfTy(a, n)
  }

  predicate WfCells(cells: seq<Cell>) {
    forall i :: 0 <= i < |cells| && cells[i].link.Some? ==> WfTy(cells[i].link.value, |cells|)
  }

  /**
   * `rank` witnesses that following variable-to-variable links terminates:
   * a variable linked to a variable has a strictly larger rank.
   */
  predicate Ranked(cells: seq<Cell>, rank: seq<nat>) {
    |rank| == |cells| && WfCells(cells) &&
    forall i :: 0 <= i < |cells| && cells[i].link.Some? && cells[i].link.value.TVar? ==>
      rank[cells[i].link.value.id] < rank[i]
  }

  /** A resolved type: a constructor or an unbound variable. */
  predicate IsEnd(cells: seq<Cell>, t: Ty)
    requires WfTy(t, |cells|)
  {
    t.TCon? || cells[t.id].link.None?
  }

  /** Follows forwarding links to the end of the chain. */
  function Resolve(cells: seq<Cell>, ghost rank: seq<nat>, t: Ty): (r: Ty)
    requires Ranked(cells, rank) && WfTy(t, |cells|)
    ensures WfTy(r, |cells|) && IsEnd(cells, r)
    ensures IsEnd(cells, t) ==> r == t
    ensures t.TVar? && cells[t.id].link.Some? ==> r == Resolve(cells, rank, cells[t.id].link.value)
    decreases if t.TVar? then rank[t.id] + 1 else 0
  {
    match t
    case TCon(_, _) => t
    case TVar(i) =>
      match cells[i].link
      case None => t
      case Some(next) => Resolve(cells, rank, next)
  }

  /** At most `n` steps of `find`'s loop: the link of a bound variable is followed. */
  function Follow(cells: seq<Cell>, t: Ty, n: nat): (r: Ty)
    requires WfCells(cells) && WfTy(t, |cells|)
    ensures WfTy(r, |cells|)
    decreases n
  {
    if n == 0 || t.TCon? || cells[t.id].link.None? then t
    else Follow(cells, cells[t.id].link.value, n - 1)
  }

  /** In a ranked arena `find`'s loop reaches the end of a chain within the rank of its start. */
  lemma {:induction false} FollowReachesEnd(cells: seq<Cell>, rank: seq<nat>, t: Ty, n: nat)
    requires Ranked(cells, rank) && WfTy(t, |cells|)
    requires n >= (if t.TVar? then rank[t.id] + 1 else 0)
    ensures Follow(cells, t, n) == Resolve(cells, rank, t)
    decreases n
  {
    if t.TVar? && cells[t.id].link.Some? {
      FollowReachesEnd(cells, rank, cells[t.id].link.value, n - 1);
    }
  }

  /** The arena with the unbound variable `e` linked to `other`. */
  function Bind(cells: seq<Cell>, e: nat, other: Ty): (r: seq<Cell>)
    requires e < |cells|
    ensures |r| == |cells| && r[e] == Cell(cells[e].name, Some(other))
    ensures forall i :: 0 <= i < |cells| && i != e ==> r[i] == cells[i]
  {
    cells[e := Cell(cells[e].name, Some(other))]
  }

  /**
   * The variable branches of `hm_unify` and `unify` as the C ports write
   * them: a variable end on the left is linked to the right end, even when
   * both ends are that same variable; otherwise the right end is linked to
   * the left.
   */
  function LinkEndsAsWritten(cells: seq<Cell>, a: Ty, b: Ty): seq<Cell>
    requires WfTy(a, |cells|) && WfTy(b, |cells|) && (a.TVar? || b.TVar?)
  {
    if a.TVar? then Bind(cells, a.id, b) else Bind(cells, b.id, a)
  }

  lemma {:induction false} FollowSelfLink(name: string, n: nat)
    requires WfCells([Cell(name, Some(TVar(0)))])
    ensures Follow([Cell(name, Some(TVar(0)))], TVar(0), n) == TVar(0)
    decreases n
  {
    if n > 0 { FollowSelfLink(name, n - 1); }
  }

  /**
   * As written, unifying an unbound variable with itself links it to
   * itself: `find`'s loop then never reaches the end of a chain, and no
   * rank can order the arena.
   */
  lemma SelfUnifyAsWrittenCycles(name: string)
    ensures var c := LinkEndsAsWritten([Cell(name, None)], TVar(0), TVar(0));
      c == [Cell(name, Some(TVar(0)))] && WfCells(c) &&
      (forall n: nat :: Follow(c, TVar(0), n) == TVar(0) && !IsEnd(c, Follow(c, TVar(0), n))) &&
      (forall rank :: !Ranked(c, rank))
  {
    var c := LinkEndsAsWritten([Cell(name, None)], TVar(0), TVar(0));
    assert c == [Cell(name, Some(TVar(0)))];
    assert WfCells(c);
    forall n: nat ensures Follow(c, TVar(0), n) == TVar(0) { FollowSelfLink(name, n); }
    forall rank ensures !Ranked(c, rank) {
      if |rank| == |c| {
        assert c[0].link.Some? && c[0].link.value.TVar? && c[0].link.value.id == 0;
      }
    }
  }

  /**
   * The rank after binding `e` to `other`: every variable whose chain ends
   * in `e` is lifted above the rank of `other`.
   */
  ghost function BindRank(cells: seq<Cell>, rank: seq<nat>, e: nat, other: Ty): seq<nat>
    requires Ranked(cells, rank) && WfTy(other, |cells|)
  {
    var lift := if other.TVar? then rank[other.id] + 1 else 0;
    seq(|cells|, i requires 0 <= i < |cells| =>
      if Resolve(cells, rank, TVar(i)) == TVar(e) then rank[i] + lift else rank[i])
  }

  lemma WfWiden(t: Ty, n: nat, m: nat)
    requires WfTy(t, n) && n <= m
    ensures WfTy(t, m)
  {
    match t
    case TVar(_) =>
    case TCon(_, args) =>
      forall a | a in args ensures WfTy(a, m) { WfWiden(a, n, m); }
  }

  /**
   * Binding an unbound variable to a type that does not resolve back to it
   * keeps every chain finite.
   */
  lemma {:induction false} BindKeepsRanked(cells: seq<Cell>, rank: seq<nat>, e: nat, other: Ty)
    requires Ranked(cells, rank) && e < |cells| && cells[e].link.None?
    requires WfTy(other, |cells|) && Resolve(cells, rank, other) != TVar(e)
    ensures Ranked(Bind(cells, e, other), BindRank(cells, rank, e, other))
  {
    var c2 := Bind(cells, e, other);
    var r2 := BindRank(cells, rank, e, other);
    forall i | 0 <= i < |c2| && c2[i].link.Some? && c2[i].link.value.TVar?
      ensures r2[c2[i].link.value.id] < r2[i]
    {
      var j := c2[i].link.value.id;
      if i == e {
        assert other == TVar(j);
        assert Resolve(cells, rank, TVar(e)) == TVar(e);
      } else {
        assert cells[i].link == Some(TVar(j));
        assert Resolve(cells, rank, TVar(i)) == Resolve(cells, rank, TVar(j));
      }
    }
  }

  /**
   * After binding `e` to `other`, a type resolves where it resolved before,
   * unless its chain ended in `e`: then it resolves where `other` does.
   */
  lemma {:induction false} ResolveAfterBind(cells: seq<Cell>, rank: seq<nat>, e: nat, other: Ty, rank2: seq<nat>, t: Ty)
    requires Ranked(cells, rank) && e < |cells| && cells[e].link.None?
    requires WfTy(other, |cells|) && Resolve(cells, rank, other) != TVar(e)
    requires Ranked(Bind(cells, e, other), rank2) && WfTy(t, |cells|)
    ensures Resolve(Bind(cells, e, other), rank2, t) ==
      if Resolve(cells, rank, t) == TVar(e) then Resolve(cells, rank, other) else Resolve(cells, rank, t)
    decreases if t.TVar? then rank2[t.id] + 1 else 0
  {
    var c2 := Bind(cells, e, other);
    match t
    case TCon(_, _) =>
    case TVar(i) =>
      if i == e {
        ResolveAfterBind(cells, rank, e, other, rank2, other);
      } else if cells[i].link.Some? {
        ResolveAfterBind(cells, rank, e, other, rank2, cells[i].link.value);
      }
  }

  /**
   * `c2` grows `c`: cells may be added and unbound cells may become bound,
   * names never change and no link is removed or redirected.
   */
  predicate Extends(c: seq<Cell>, c2: seq<Cell>) {
    |c| <= |c2| &&
    forall i :: 0 <= i < |c| ==> c2[i].name == c[i].name && (c[i].link.Some? ==> c2[i].link == c[i].link)
  }

  lemma ExtendsTrans(c1: seq<Cell>, c2: seq<Cell>, c3: seq<Cell>)
    requires Extends(c1, c2) && Extends(c2, c3)
    ensures Extends(c1, c3)
  {
  }

  /** In a grown arena a type resolves where the end of its old chain resolves. */
  lemma {:induction false} ResolveThroughEnd(c: seq<Cell>, r: seq<nat>, c2: seq<Cell>, r2: seq<nat>, t: Ty)
    requires Ranked(c, r) && Ranked(c2, r2) && Extends(c, c2) && WfTy(t, |c|)
    ensures WfTy(t, |c2|) && WfTy(Resolve(c, r, t), |c2|)
    ensures Resolve(c2, r2, t) == Resolve(c2, r2, Resolve(c, r, t))
    decreases if t.TVar? then r[t.id] + 1 else 0
  {
    WfWiden(t, |c|, |c2|);
    WfWiden(Resolve(c, r, t), |c|, |c2|);
    match t
    case TCon(_, _) =>
    case TVar(i) =>
      if c[i].link.Some? {
        ResolveThroughEnd(c, r, c2, r2, c[i].link.value);
      }
  }

  /**
   * `t1` and `t2` are equal after resolution, looking at most `depth`
   * constructor levels deep.
   */
  predicate Unified(cells: seq<Cell>, ghost rank: seq<nat>, t1: Ty, t2: Ty, depth: nat)
    requires Ranked(cells, rank) && WfTy(t1, |cells|) && WfTy(t2, |cells|)
    decreases depth
  {
    var a := Resolve(cells, rank, t1);
    var b := Resolve(cells, rank, t2);
    a == b ||
    (depth > 0 && a.TCon? && b.TCon? && a.name == b.name && |a.args| == |b.args| &&
     forall k :: 0 <= k < |a.args| ==> Unified(cells, rank, a.args[k], b.args[k], depth - 1))
  }

  /** Unification that holds at some depth holds at every larger one. */
  lemma {:induction false} UnifiedDeeper(cells: seq<Cell>, rank: seq<nat>, t1: Ty, t2: Ty, d: nat, d2: nat)
    requires Ranked(cells, rank) && WfTy(t1, |cells|) && WfTy(t2, |cells|)
    requires Unified(cells, rank, t1, t2, d) && d <= d2
    ensures Unified(cells, rank, t1, t2, d2)
    decreases d
  {
    var a := Resolve(cells, rank, t1);
    var b := Resolve(cells, rank, t2);
    if a != b {
      forall k | 0 <= k < |a.args| ensures Unified(cells, rank, a.args[k], b.args[k], d2 - 1) {
        UnifiedDeeper(cells, rank, a.args[k], b.args[k], d - 1, d2 - 1);
      }
    }
  }

  /** Growing the arena never undoes a unification. */
  lemma {:induction false} UnifiedExtends(c: seq<Cell>, r: seq<nat>, c2: seq<Cell>, r2: seq<nat>, t1: Ty, t2: Ty, d: nat)
    requires Ranked(c, r) && Ranked(c2, r2) && Extends(c, c2)
    requires WfTy(t1, |c|) && WfTy(t2, |c|) && Unified(c, r, t1, t2, d)
    ensures WfTy(t1, |c2|) && WfTy(t2, |c2|) && Unified(c2, r2, t1, t2, d)
    decreases d
  {
    ResolveThroughEnd(c, r, c2, r2, t1);
    ResolveThroughEnd(c, r, c2, r2, t2);
    var a := Resolve(c, r, t1);
    var b := Resolve(c, r, t2);
    if a != b {
      assert a.TCon? && b.TCon?;
      forall k | 0 <= k < |a.args| ensures WfTy(a.args[k], |c2|) && WfTy(b.args[k], |c2|) && Unified(c2, r2, a.args[k], b.args[k], d - 1) {
        assert a.args[k] in a.args && b.args[k] in b.args;
        UnifiedExtends(c, r, c2, r2, a.args[k], b.args[k], d - 1);
      }
    }
  }

  /** The first `n` argument pairs of two constructors are unified to `depth`. */
  ghost predicate PairsUnified(cells: seq<Cell>, rank: seq<nat>, xs: seq<Ty>, ys: seq<Ty>, n: nat, depth: nat)
  {
    Ranked(cells, rank) && n <= |xs| && n <= |ys| &&
    forall k :: 0 <= k < n ==>
      WfTy(xs[k], |cells|) && WfTy(ys[k], |cells|) && Unified(cells, rank, xs[k], ys[k], depth)
  }

  lemma PairsUnifiedExtend(c: seq<Cell>, r: seq<nat>, c2: seq<Cell>, r2: seq<nat>, xs: seq<Ty>, ys: seq<Ty>, n: nat, depth: nat)
    requires Ranked(c2, r2) && Extends(c, c2) && PairsUnified(c, r, xs, ys, n, depth)
    ensures PairsUnified(c2, r2, xs, ys, n, depth)
  {
    forall k | 0 <= k < n
      ensures WfTy(xs[k], |c2|) && WfTy(ys[k], |c2|) && Unified(c2, r2, xs[k], ys[k], depth)
    {
      UnifiedExtends(c, r, c2, r2, xs[k], ys[k], depth);
    }
  }

  lemma PairsUnifiedNext(cells: seq<Cell>, rank: seq<nat>, xs: seq<Ty>, ys: seq<Ty>, n: nat, depth: nat)
    requires PairsUnified(cells, rank, xs, ys, n, depth) && n < |xs| && n < |ys|
    requires WfTy(xs[n], |cells|) && WfTy(ys[n], |cells|) && Unified(cells, rank, xs[n], ys[n], depth)
    ensures PairsUnified(cells, rank, xs, ys, n + 1, depth)
  {
  }

  /** Every variable occurring in `t` is unbound. */
  predicate AllUnbound(cells: seq<Cell>, t: Ty)
    requires WfTy(t, |cells|)
  {
    match t
    case TVar(i) => cells[i].link.None?
    case TCon(_, args) => forall a :: a in args ==> AllUnbound(cells, a)
  }

  /** Constructor nesting depth. */
  function Height(t: Ty): nat {
    match t
    case TVar(_) => 0
    case TCon(_, args) => 1 + MaxHeight(args)
  }

  function MaxHeight(ts: seq<Ty>): (h: nat)
    ensures forall a :: a in ts ==> Height(a) <= h
  {
    if ts == [] then 0
    else
      var rest := MaxHeight(ts[1..]);
      assert forall a :: a in ts ==> a == ts[0] || a in ts[1..];
      if Height(ts[0]) > rest then Height(ts[0]) else rest
  }
}
