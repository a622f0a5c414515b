/**
 * The union-find engine shared by the two C ports of the Hindley-Milner
 * prototype (`co_hm.c` and its reference copy `refcode/co_hm.c`): type
 * nodes live in one store, `find` follows the `next`/`forward` links,
 * `make_equal_to` writes the link of a chain end and `unify` answers with a
 * boolean. Aborts of the C program are `Wrappers.Abort` outcomes.
 */
module HmEngine {
  import opened Wrappers
  import opened TypeGraph
  import Text

  /** The name `hm_fresh_var(NULL)` gives: the prefix and the decimal counter. */
  function CounterName(prefix: string, n: nat): string {
    prefix + Text.Decimal(n)
  }

  /**
   * What one level of `hm_unify` does with the resolved ends `a` and `b`
   * before looking at argument pairs; `after` is the store it leaves.
   * The argument count is compared before the name.
   */
  ghost predicate UnifyStep(cells: seq<Cell>, rank: seq<nat>, t1: Ty, t2: Ty, res: Result<bool, Abort>, after: seq<Cell>)
    requires Ranked(cells, rank) && WfTy(t1, |cells|) && WfTy(t2, |cells|)
  {
    var a := Resolve(cells, rank, t1);
    var b := Resolve(cells, rank, t2);
    (a == b && a.TVar? ==> res == Ok(true) && after == cells) &&
    (a != b && a.TVar? ==> res == Ok(true) && after == Bind(cells, a.id, b)) &&
    (a.TCon? && b.TVar? ==> res == Ok(true) && after == Bind(cells, b.id, a)) &&
    (a.TCon? && b.TCon? && |a.args| != |b.args| ==> res == Ok(false) && after == cells) &&
    (a.TCon? && b.TCon? && |a.args| == |b.args| && a.name != b.name ==> res == Ok(false) && after == cells)
  }

  /** The `hm_type_t` nodes of one run, with the counter of `hm_fresh_var`. */
  class HmStore {
    var cells: seq<Cell>
    var counter: nat
    ghost var rank: seq<nat>

    ghost predicate Valid()
      reads this
    {
      Ranked(cells, rank)
    }

    constructor ()
      ensures Valid() && cells == [] && counter == 0
    {
      cells := [];
      counter := 0;
      rank := [];
    }

    /**
     * `hm_fresh_var(name)`: a new variable with a NULL link, named `name`,
     * or, without a name, by `prefix` and the counter, which then increases.
     */
    method FreshVar(name: Option<string>, prefix: string) returns (v: Ty)
      requires Valid()
      modifies this
      ensures Valid() && v == TVar(|old(cells)|) && Extends(old(cells), cells)
      ensures name.Some? ==> cells == old(cells) + [Cell(name.value, None)] && counter == old(counter)
      ensures name.None? ==>
        cells == old(cells) + [Cell(CounterName(prefix, old(counter)), None)] && counter == old(counter) + 1
    {
      var n: string;
      if name.Some? {
        n := name.value;
      } else {
        n := CounterName(prefix, counter);
        counter := counter + 1;
      }
      forall i | 0 <= i < |cells| && cells[i].link.Some?
        ensures WfTy(cells[i].link.value, |cells| + 1)
      {
        WfWiden(cells[i].link.value, |cells|, |cells| + 1);
      }
      v := TVar(|cells|);
      cells := cells + [Cell(n, None)];
      rank := rank + [0];
    }

    /** `hm_type_find`: a constructor unchanged, a variable followed to the end of its chain. */
    method Find(t: Ty) returns (r: Ty)
      requires Valid() && WfTy(t, |cells|)
      ensures r == Resolve(cells, rank, t)
    {
      if t.TCon? {
        return t;
      }
      r := t;
      while r.TVar?
        invariant WfTy(r, |cells|)
        invariant Resolve(cells, rank, r) == Resolve(cells, rank, t)
        decreases if r.TVar? then rank[r.id] + 1 else 0
      {
        match cells[r.id].link
        case None => return;
        case Some(next) => r := next;
      }
    }

    /**
     * `hm_type_make_equal_to`: asserts that the end of `v`'s chain is a
     * variable and writes its link, and nothing else. `other` must not
     * resolve to that end, or the link would close a cycle.
     */
    method MakeEqualTo(v: nat, other: Ty) returns (res: Result<(), Abort>)
      requires Valid() && v < |cells| && WfTy(other, |cells|)
      requires Resolve(cells, rank, other) != Resolve(cells, rank, TVar(v))
      modifies this`cells, this`rank
      ensures Valid()
      ensures var end := Resolve(old(cells), old(rank), TVar(v));
        if end.TVar? then res.Ok? && cells == Bind(old(cells), end.id, other)
        else res == Err(AssertFailed("already resolved to something else")) && cells == old(cells)
    {
      var end := Find(TVar(v));
      if end.TCon? {
        return Err(AssertFailed("already resolved to something else"));
      }
      BindKeepsRanked(cells, rank, end.id, other);
      rank := BindRank(cells, rank, end.id, other);
      cells := Bind(cells, end.id, other);
      res := Ok(());
    }

    /**
     * `hm_unify`: binds the left end when it is a variable, swaps the
     * arguments when only the right one is, returns false on an
     * argument-count or name mismatch, and otherwise unifies the arguments
     * pairwise, stopping at the first pair that fails. Two ends that are
     * the same variable are left alone; as written the C code links the
     * variable to itself (`TypeGraph.SelfUnifyAsWrittenCycles`). `fuel` bounds the recursion depth.
     */
    method Unify(t1: Ty, t2: Ty, fuel: nat) returns (res: Result<bool, Abort>)
      requires Valid() && WfTy(t1, |cells|) && WfTy(t2, |cells|)
      modifies this`cells, this`rank
      ensures Valid() && Extends(old(cells), cells) && |cells| == |old(cells)|
      ensures res == Ok(true) ==> Unified(cells, rank, t1, t2, fuel)
      ensures fuel == 0 ==> res == Err(StackExhausted) && cells == old(cells)
      ensures fuel > 0 ==> UnifyStep(old(cells), old(rank), t1, t2, res, cells)
      decreases fuel, 2
    {
      if fuel == 0 {
        return Err(StackExhausted);
      }
      var a := Find(t1);
      var b := Find(t2);
      if a.TVar? || b.TVar? {
        if a == b {
          return Ok(true);
        }
        ghost var c0, r0 := cells, rank;
        var v, other := if a.TVar? then a.id else b.id, if a.TVar? then b else a;
        var bound := MakeEqualTo(v, other);
        ResolveAfterBind(c0, r0, v, other, rank, t1);
        ResolveAfterBind(c0, r0, v, other, rank, t2);
        return Ok(true);
      }
      if |a.args| != |b.args| {
        return Ok(false);
      }
      if a.name != b.name {
        return Ok(false);
      }
      res := UnifyArgs(a, b, fuel);
      ResolveThroughEnd(old(cells), old(rank), cells, rank, t1);
      ResolveThroughEnd(old(cells), old(rank), cells, rank, t2);
    }

    /** The argument loop of `hm_unify`. */
    method UnifyArgs(a: Ty, b: Ty, fuel: nat) returns (res: Result<bool, Abort>)
      requires Valid() && WfTy(a, |cells|) && WfTy(b, |cells|)
      requires fuel > 0 && a.TCon? && b.TCon? && |a.args| == |b.args|
      modifies this`cells, this`rank
      ensures Valid() && Extends(old(cells), cells) && |cells| == |old(cells)|
      ensures res == Ok(true) ==> PairsUnified(cells, rank, a.args, b.args, |a.args|, fuel - 1)
      decreases fuel, 1
    {
      assert forall k :: 0 <= k < |a.args| ==> a.args[k] in a.args && b.args[k] in b.args;
      var i := 0;
      assert PairsUnified(cells, rank, a.args, b.args, 0, fuel - 1);
      while i < |a.args|
        invariant 0 <= i <= |a.args|
        invariant Valid() && Extends(old(cells), cells) && |cells| == |old(cells)|
        invariant PairsUnified(cells, rank, a.args, b.args, i, fuel - 1)
      {
        ghost var c0 := cells;
        res := UnifyPair(a.args, b.args, i, fuel - 1);
        if res != Ok(true) {
          return;
        }
        ExtendsTrans(old(cells), c0, cells);
        i := i + 1;
      }
      res := Ok(true);
    }

    /** One pair of the argument loop, keeping the earlier pairs unified. */
    method UnifyPair(xs: seq<Ty>, ys: seq<Ty>, i: nat, depth: nat) returns (res: Result<bool, Abort>)
      requires Valid() && i < |xs| && i < |ys|
      requires WfTy(xs[i], |cells|) && WfTy(ys[i], |cells|)
      requires PairsUnified(cells, rank, xs, ys, i, depth)
      modifies this`cells, this`rank
      ensures Valid() && Extends(old(cells), cells) && |cells| == |old(cells)|
      ensures res == Ok(true) ==> PairsUnified(cells, rank, xs, ys, i + 1, depth)
      decreases depth + 1, 0
    {
      ghost var c0, r0 := cells, rank;
      res := Unify(xs[i], ys[i], depth);
      if res == Ok(true) {
        PairsUnifiedExtend(c0, r0, cells, rank, xs, ys, i, depth);
        PairsUnifiedNext(cells, rank, xs, ys, i, depth);
      }
    }
  }
}
