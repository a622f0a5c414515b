/**
 * `co_infer.c`: the typing context as an array of name/scheme pairs kept
 * sorted by name and searched by bisection, and the union-find store of
 * `mt_t` nodes with `find`, `connect` and `unify`, which report failures
 * as trace messages. The reference copy `refcode/co_infer.c` is the same
 * code except that names are compared with `strncmp` limited to the length
 * of the queried name; a context built with `prefix` set compares that way.
 */
module CoInfer {
  import opened Wrappers
  import opened TypeGraph
  import opened HmEngine
  import Text

  /** `strcmp` on code points, reduced to its sign. */
  function StrCmp(a: string, b: string): (c: int)
    ensures -1 <= c <= 1
  {
    if a == [] && b == [] then 0
    else if a == [] then -1
    else if b == [] then 1
    else if a[0] < b[0] then -1
    else if a[0] > b[0] then 1
    else StrCmp(a[1..], b[1..])
  }

  /** `strcmp` agrees with the lexicographic order of the typing context. */
  lemma {:induction false} StrCmpOrder(a: string, b: string)
    ensures StrCmp(a, b) == 0 <==> a == b
    ensures StrCmp(a, b) < 0 <==> Text.Less(a, b)
    ensures StrCmp(a, b) > 0 <==> Text.Less(b, a)
  {
    if a != [] && b != [] && a[0] == b[0] {
      StrCmpOrder(a[1..], b[1..]);
      assert a == [a[0]] + a[1..] && b == [b[0]] + b[1..];
    }
  }

  predicate IsPrefix(p: string, s: string) {
    |p| <= |s| && s[..|p|] == p
  }

  /** At most the first `n` characters of `s`: what `strncmp(s, q, n)` looks at. */
  function Prefix(s: string, n: nat): string {
    if |s| <= n then s else s[..n]
  }

  /** How the context compares a stored key with the queried name. */
  function KeyCmp(key: string, name: string, prefix: bool): int {
    if prefix then StrCmp(Prefix(key, |name|), name) else StrCmp(key, name)
  }

  /** The comparisons can differ only on a key that properly extends the queried name. */
  lemma {:induction false} PrefixCmpAgrees(key: string, name: string)
    requires !IsPrefix(name, key) || key == name
    ensures KeyCmp(key, name, true) == KeyCmp(key, name, false)
  {
    if |key| > |name| {
      assert key[..|name|] != name;
      assert name != [];
      if key[0] == name[0] {
        assert key[1..][..|name| - 1] == key[..|name|][1..];
        PrefixCmpAgrees(key[1..], name[1..]);
      }
    }
  }

  /** A prefix comparison is zero exactly on keys that start with the name. */
  lemma PrefixCmpZero(key: string, name: string)
    ensures KeyCmp(key, name, true) == 0 <==> IsPrefix(name, key)
  {
    StrCmpOrder(Prefix(key, |name|), name);
  }

  /** The `res_t` of `tyctx_binsearch`. */
  datatype Search = Search(found: bool, index: int)

  /**
   * `tyctx_binsearch` over `keys[low..high]` (both inclusive): the index of
   * a key comparing equal, or the `low` bound the bisection ends on.
   */
  function BinSearch(keys: seq<string>, low: int, high: int, name: string, prefix: bool): (r: Search)
    requires 0 <= low <= high + 1 <= |keys|
    ensures low <= r.index <= high + 1
    ensures r.found ==> r.index <= high
    decreases high - low + 1
  {
    if high >= low then
      var mid := low + (high - low) / 2;
      var c := KeyCmp(keys[mid], name, prefix);
      if c == 0 then Search(true, mid)
      else if c > 0 then BinSearch(keys, low, mid - 1, name, prefix)
      else BinSearch(keys, mid + 1, high, name, prefix)
    else Search(false, low)
  }

  /**
   * With `strcmp` on sorted keys the bisection finds the name exactly when
   * it is present, and otherwise ends on the position where it belongs.
   */
  lemma {:induction false} BinSearchExact(keys: seq<string>, low: int, high: int, name: string)
    requires 0 <= low <= high + 1 <= |keys| && Text.StrictlySorted(keys)
    ensures var r := BinSearch(keys, low, high, name, false);
      (r.found <==> exists j :: low <= j <= high && keys[j] == name) &&
      (r.found ==> keys[r.index] == name) &&
      (!r.found ==> (forall j :: low <= j < r.index ==> Text.Less(keys[j], name)) &&
                    (forall j :: r.index <= j <= high ==> Text.Less(name, keys[j])))
    decreases high - low + 1
  {
    if high >= low {
      var mid := low + (high - low) / 2;
      StrCmpOrder(keys[mid], name);
      var c := KeyCmp(keys[mid], name, false);
      if c > 0 {
        BinSearchExact(keys, low, mid - 1, name);
        forall j | mid <= j <= high ensures Text.Less(name, keys[j]) {
          if j > mid { Text.LessTrans(name, keys[mid], keys[j]); }
        }
        forall j | mid <= j <= high ensures keys[j] != name {
          Text.LessIrreflexive(name);
        }
      } else if c < 0 {
        BinSearchExact(keys, mid + 1, high, name);
        forall j | low <= j <= mid ensures Text.Less(keys[j], name) {
          if j < mid { Text.LessTrans(keys[j], keys[mid], name); }
        }
        forall j | low <= j <= mid ensures keys[j] != name {
          Text.LessIrreflexive(name);
        }
      }
    }
  }

  /** With `strncmp`, a search that finds nothing takes the same path as with `strcmp`. */
  lemma {:induction false} PrefixMissIsExact(keys: seq<string>, low: int, high: int, name: string)
    requires 0 <= low <= high + 1 <= |keys|
    requires !BinSearch(keys, low, high, name, true).found
    ensures BinSearch(keys, low, high, name, true) == BinSearch(keys, low, high, name, false)
    decreases high - low + 1
  {
    if high >= low {
      var mid := low + (high - low) / 2;
      PrefixCmpZero(keys[mid], name);
      PrefixCmpAgrees(keys[mid], name);
      if KeyCmp(keys[mid], name, true) > 0 {
        PrefixMissIsExact(keys, low, mid - 1, name);
      } else {
        PrefixMissIsExact(keys, mid + 1, high, name);
      }
    }
  }

  /** With `strncmp`, a found key is one that starts with the queried name. */
  lemma {:induction false} PrefixHitExtends(keys: seq<string>, low: int, high: int, name: string)
    requires 0 <= low <= high + 1 <= |keys|
    requires BinSearch(keys, low, high, name, true).found
    ensures IsPrefix(name, keys[BinSearch(keys, low, high, name, true).index])
    decreases high - low + 1
  {
    var mid := low + (high - low) / 2;
    PrefixCmpZero(keys[mid], name);
    if KeyCmp(keys[mid], name, true) > 0 {
      PrefixHitExtends(keys, low, mid - 1, name);
    } else if KeyCmp(keys[mid], name, true) < 0 {
      PrefixHitExtends(keys, mid + 1, high, name);
    }
  }

  /** With `strncmp` a stored `xs` answers a query for `x`; with `strcmp` it does not. */
  lemma PrefixSearchMatchesLongerName()
    ensures BinSearch(["xs"], 0, 0, "x", true) == Search(true, 0)
    ensures BinSearch(["xs"], 0, 0, "x", false) == Search(false, 0)
  {
    assert Prefix("xs", 1) == "x";
    assert StrCmp("xs", "x") == 1 by {
      assert "xs"[1..] == "s" && "x"[1..] == "";
    }
  }

  /**
   * A search of a whole sorted context: with `strcmp` it finds the name
   * exactly when present; with `strncmp` it finds a key starting with the
   * name; and a search that finds nothing ends where the name belongs.
   */
  lemma SearchSorted(keys: seq<string>, name: string, prefix: bool)
    requires Text.StrictlySorted(keys)
    ensures var r := BinSearch(keys, 0, |keys| - 1, name, prefix);
      !prefix ==> (r.found <==> name in keys) && (r.found ==> keys[r.index] == name)
    ensures var r := BinSearch(keys, 0, |keys| - 1, name, prefix);
      prefix && r.found ==> IsPrefix(name, keys[r.index])
    ensures var r := BinSearch(keys, 0, |keys| - 1, name, prefix);
      !r.found ==> name !in keys && (forall j :: 0 <= j < r.index ==> Text.Less(keys[j], name))
    ensures var r := BinSearch(keys, 0, |keys| - 1, name, prefix);
      !r.found ==> forall j :: r.index <= j < |keys| ==> Text.Less(name, keys[j])
  {
    var r := BinSearch(keys, 0, |keys| - 1, name, prefix);
    BinSearchExact(keys, 0, |keys| - 1, name);
    assert name in keys <==> exists j :: 0 <= j <= |keys| - 1 && keys[j] == name;
    if prefix && !r.found {
      PrefixMissIsExact(keys, 0, |keys| - 1, name);
      assert r == BinSearch(keys, 0, |keys| - 1, name, false);
    } else if prefix {
      PrefixHitExtends(keys, 0, |keys| - 1, name);
    }
  }

  /** Whether the bisection over all the pairs of `es` reports `name` found. */
  ghost predicate Finds<V>(es: seq<Kvp<V>>, name: string, prefix: bool) {
    BinSearch(Keys(es), 0, |es| - 1, name, prefix).found
  }

  /** The value of the pair the bisection over `es` finds for `name`, if any. */
  ghost function Found<V>(es: seq<Kvp<V>>, name: string, prefix: bool): Option<V> {
    var r := BinSearch(Keys(es), 0, |es| - 1, name, prefix);
    if r.found then Some(es[r.index].1) else None
  }

  /** The pairs after inserting `(name, v)`: unchanged if the search finds the name, else placed at the search's index. */
  ghost function Inserted<V>(es: seq<Kvp<V>>, name: string, v: V, prefix: bool): seq<Kvp<V>> {
    var r := BinSearch(Keys(es), 0, |es| - 1, name, prefix);
    if r.found then es else es[..r.index] + [(name, v)] + es[r.index..]
  }

  /** `mt_forall_t` as a value: the type and its quantified variables. */
  datatype Scheme = Forall(ty: Ty, tyvars: seq<Ty>)

  /** A context pair: a name and what it is bound to. */
  type Kvp<V> = (string, V)

  function Keys<V>(s: seq<Kvp<V>>): (ks: seq<string>)
    ensures |ks| == |s| && forall i :: 0 <= i < |s| ==> ks[i] == s[i].0
  {
    seq(|s|, i requires 0 <= i < |s| => s[i].0)
  }

  /** Placing a key between its smaller and its larger neighbours keeps the keys strictly sorted. */
  lemma InsertKeepsSorted<V>(es: seq<Kvp<V>>, i: nat, e: Kvp<V>)
    requires i <= |es| && Text.StrictlySorted(Keys(es))
    requires forall j :: 0 <= j < i ==> Text.Less(es[j].0, e.0)
    requires forall j :: i <= j < |es| ==> Text.Less(e.0, es[j].0)
    ensures Text.StrictlySorted(Keys(es[..i] + [e] + es[i..]))
  {
    var r := es[..i] + [e] + es[i..];
    assert forall j :: 0 <= j < |r| ==> r[j] == if j < i then es[j] else if j == i then e else es[j - 1];
    forall a, b | 0 <= a < b < |r| ensures Text.Less(Keys(r)[a], Keys(r)[b]) {
      if a < i && b > i {
        Text.LessTrans(es[a].0, e.0, es[b - 1].0);
      } else if a < i && b < i {
        assert Text.Less(Keys(es)[a], Keys(es)[b]);
      } else if a > i {
        assert Text.Less(Keys(es)[a - 1], Keys(es)[b - 1]);
      }
    }
  }

  /**
   * What a lookup in sorted pairs finds: with `strcmp`, the pair of the
   * name exactly when the name is present; with `strncmp`, a pair whose key
   * begins with the name, and nothing only when the name is absent.
   */
  lemma FoundFacts<V>(es: seq<Kvp<V>>, name: string, prefix: bool)
    requires Text.StrictlySorted(Keys(es))
    ensures !prefix ==> (Found(es, name, prefix).Some? <==> name in Keys(es))
    ensures !prefix && Found(es, name, prefix).Some? ==> (name, Found(es, name, prefix).value) in es
    ensures prefix && Found(es, name, prefix).Some? ==>
      exists e :: e in es && IsPrefix(name, e.0) && e.1 == Found(es, name, prefix).value
    ensures prefix && Found(es, name, prefix).None? ==> name !in Keys(es)
  {
    var r := BinSearch(Keys(es), 0, |es| - 1, name, prefix);
    SearchSorted(Keys(es), name, prefix);
    if r.found {
      assert Keys(es)[r.index] == es[r.index].0;
      assert es[r.index] in es;
    }
  }

  /**
   * What an insertion into sorted pairs does: a name the search finds
   * leaves them as they were, any other goes in at one position and keeps
   * them sorted; with `strcmp` the search finds exactly the names present,
   * with `strncmp` it finds a key the name begins.
   */
  lemma InsertedFacts<V>(es: seq<Kvp<V>>, name: string, v: V, prefix: bool)
    requires Text.StrictlySorted(Keys(es))
    ensures Finds(es, name, prefix) ==> Inserted(es, name, v, prefix) == es
    ensures !Finds(es, name, prefix) ==>
      exists i :: 0 <= i <= |es| && Inserted(es, name, v, prefix) == es[..i] + [(name, v)] + es[i..]
    ensures !Finds(es, name, prefix) ==> name !in Keys(es) && Text.StrictlySorted(Keys(Inserted(es, name, v, prefix)))
    ensures !prefix ==> (Finds(es, name, prefix) <==> name in Keys(es))
    ensures prefix && Finds(es, name, prefix) ==> exists k :: k in Keys(es) && IsPrefix(name, k)
  {
    var r := BinSearch(Keys(es), 0, |es| - 1, name, prefix);
    SearchSorted(Keys(es), name, prefix);
    if r.found {
      assert Keys(es)[r.index] in Keys(es);
    } else {
      InsertKeepsSorted(es, r.index, (name, v));
    }
  }

  /**
   * `tyctx_t`: `size` pairs sorted by name at the front of the `kvps` buffer,
   * whose length is the capacity. The same context, bound to other values,
   * is `bty_ctx_t` and `ctx_t` of the signature checkers.
   */
  class TyCtx<V(0)> {
    var kvps: array<Kvp<V>>
    var size: nat
    const prefix: bool

    ghost predicate Valid()
      reads this, kvps
    {
      size <= kvps.Length && Text.StrictlySorted(Keys(kvps[..size]))
    }

    /** The pairs in use. */
    ghost function Entries(): seq<Kvp<V>>
      reads this, kvps
      requires size <= kvps.Length
    {
      kvps[..size]
    }

    /** `tyctx_create`: an empty context with a buffer of `capacity` pairs. */
    constructor Create(capacity: nat, prefix: bool)
      ensures Valid() && size == 0 && kvps.Length == capacity && this.prefix == prefix && fresh(kvps)
    {
      kvps := new Kvp<V>[capacity];
      size := 0;
      this.prefix := prefix;
    }

    /** `tyctx_clone`: a fresh buffer of the same capacity holding the same pairs. */
    constructor Clone(src: TyCtx<V>)
      requires src.Valid()
      ensures Valid() && fresh(kvps) && kvps.Length == src.kvps.Length && size == src.size
      ensures Entries() == src.Entries() && prefix == src.prefix
    {
      var a := new Kvp<V>[src.kvps.Length];
      var i := 0;
      while i < src.size
        invariant 0 <= i <= src.size
        invariant a[..i] == src.kvps[..i]
      {
        a[i] := src.kvps[i];
        i := i + 1;
      }
      kvps := a;
      size := src.size;
      prefix := src.prefix;
    }

    /**
     * `tyctx_ensure_capacity`: when `size + extra` reaches the capacity the
     * buffer is reallocated at twice that, keeping the pairs.
     */
    method EnsureCapacity(extra: nat)
      requires Valid()
      modifies this
      ensures Valid() && size == old(size) && Entries() == old(Entries())
      ensures old(size) + extra >= old(kvps.Length) ==> fresh(kvps) && kvps.Length == (old(size) + extra) * 2
      ensures old(size) + extra < old(kvps.Length) ==> kvps == old(kvps)
    {
      var required := size + extra;
      if required >= kvps.Length {
        var a := new Kvp<V>[required * 2];
        var i := 0;
        while i < size
          invariant 0 <= i <= size && kvps == old(kvps) && size == old(size)
          invariant a[..i] == kvps[..i]
        {
          a[i] := kvps[i];
          i := i + 1;
        }
        kvps := a;
      }
    }

    /** `tyctx_make_room_at`: the pairs from `index` on move up one slot and the size grows by one. */
    method MakeRoomAt(index: nat)
      requires size < kvps.Length && index <= size
      modifies this, kvps
      ensures kvps == old(kvps) && size == old(size) + 1
      ensures kvps[..size] == old(kvps[..index]) + [old(kvps[index])] + old(kvps[index..size])
    {
      ghost var before := kvps[..];
      var j := size;
      while j > index
        invariant index <= j <= size && size == old(size) && kvps == old(kvps)
        invariant forall k :: 0 <= k <= j ==> kvps[k] == before[k]
        invariant forall k :: j < k <= size ==> kvps[k] == before[k - 1]
      {
        kvps[j] := kvps[j - 1];
        j := j - 1;
      }
      ghost var moved := before[..index] + [before[index]] + before[index..size];
      assert forall k :: 0 <= k <= size ==> kvps[k] == moved[k];
      size := size + 1;
      assert kvps[..size] == moved;
    }

    /**
     * `tyctx_insert`: after making room for one more pair, a name the
     * search does not find is placed at its sorted position; a found name is
     * rejected and the pairs stay as they were.
     */
    method Insert(name: string, value: V) returns (ok: bool)
      requires Valid()
      modifies this, kvps
      ensures Valid() && (kvps == old(kvps) || fresh(kvps))
      ensures ok <==> !Finds(old(Entries()), name, prefix)
      ensures Entries() == Inserted(old(Entries()), name, value, prefix)
    {
      ghost var es := Entries();
      EnsureCapacity(1);
      assert Entries() == es;
      var r := BinSearch(Keys(kvps[..size]), 0, size as int - 1, name, prefix);
      assert r == BinSearch(Keys(es), 0, |es| - 1, name, prefix);
      if r.found {
        return false;
      }
      InsertedFacts(es, name, value, prefix);
      assert Inserted(es, name, value, prefix) == es[..r.index] + [(name, value)] + es[r.index..];
      PlaceAt(r.index, (name, value));
      ok := true;
    }

    /** The binary search over the pairs in use, with what it finds. */
    method Search(name: string) returns (r: Search)
      requires Valid()
      ensures r == BinSearch(Keys(Entries()), 0, |Entries()| - 1, name, prefix)
      ensures 0 <= r.index <= size && (r.found ==> r.index < size)
    {
      r := BinSearch(Keys(kvps[..size]), 0, size as int - 1, name, prefix);
    }

    /** Making room at `i` and writing `e` there. */
    method PlaceAt(i: nat, e: Kvp<V>)
      requires size < kvps.Length && i <= size
      requires Text.StrictlySorted(Keys(Entries()[..i] + [e] + Entries()[i..]))
      modifies this, kvps
      ensures kvps == old(kvps) && size == old(size) + 1 && Valid()
      ensures Entries() == old(Entries())[..i] + [e] + old(Entries())[i..]
    {
      ghost var es := Entries();
      MakeRoomAt(i);
      kvps[i] := e;
      assert kvps[..size] == es[..i] + [e] + es[i..];
    }

    /** `tyctx_lookup`: the value of the pair the search finds, if any. */
    method Lookup(name: string) returns (r: Option<V>)
      requires Valid()
      ensures !prefix ==> (r.Some? <==> name in Keys(Entries()))
      ensures !prefix && r.Some? ==> (name, r.value) in Entries()
      ensures prefix && r.Some? ==> exists e :: e in Entries() && IsPrefix(name, e.0) && e.1 == r.value
      ensures prefix && r.None? ==> name !in Keys(Entries())
      ensures r == Found(Entries(), name, prefix)
    {
      var s := Search(name);
      FoundFacts(Entries(), name, prefix);
      if s.found {
        assert Entries()[s.index] == kvps[s.index];
        return Some(kvps[s.index].1);
      }
      r := None;
    }
  }

  /** The store of `mt_t` nodes with the messages its operations report to the trace. */
  class MtStore {
    var cells: seq<Cell>
    ghost var rank: seq<nat>
    var messages: seq<string>

    ghost predicate Valid()
      reads this
    {
      Ranked(cells, rank)
    }

    constructor ()
      ensures Valid() && cells == [] && messages == []
    {
      cells := [];
      rank := [];
      messages := [];
    }

    /** `mt_var`: a new variable named `name` with a NULL link. */
    method NewVar(name: string) returns (v: Ty)
      requires Valid()
      modifies this
      ensures Valid() && v == TVar(|old(cells)|) && cells == old(cells) + [Cell(name, None)]
      ensures Extends(old(cells), cells) && messages == old(messages)
    {
      forall i | 0 <= i < |cells| && cells[i].link.Some?
        ensures WfTy(cells[i].link.value, |cells| + 1)
      {
        WfWiden(cells[i].link.value, |cells|, |cells| + 1);
      }
      v := TVar(|cells|);
      cells := cells + [Cell(name, None)];
      rank := rank + [0];
    }

    /** `find`: a constructor unchanged, a variable followed along its links to the end. */
    method Find(t: Ty) returns (r: Ty)
      requires Valid() && WfTy(t, |cells|)
      ensures r == Resolve(cells, rank, t)
    {
      if t.TCon? {
        return t;
      }
      r := t;
      while r.TVar?
        invariant WfTy(r, |cells|)
        invariant Resolve(cells, rank, r) == Resolve(cells, rank, t)
        decreases if r.TVar? then rank[r.id] + 1 else 0
      {
        match cells[r.id].link
        case None => return;
        case Some(next) => r := next;
      }
    }

    /**
     * `connect`: links the end of `v`'s chain to `other`; an end that is
     * already a constructor is reported and nothing is linked. `other` must
     * not resolve to that end, or the link would close a cycle.
     */
    method Connect(v: nat, other: Ty) returns (ok: bool)
      requires Valid() && v < |cells| && WfTy(other, |cells|)
      requires Resolve(cells, rank, TVar(v)).TVar? ==> Resolve(cells, rank, other) != Resolve(cells, rank, TVar(v))
      modifies this`cells, this`rank, this`messages
      ensures Valid()
      ensures var end := Resolve(old(cells), old(rank), TVar(v));
        end.TVar? ==> ok && cells == Bind(old(cells), end.id, other) && messages == old(messages)
      ensures var end := Resolve(old(cells), old(rank), TVar(v));
        end.TCon? ==>
          !ok && cells == old(cells) &&
          messages == old(messages) + ["type-check: variable already resolved (" + old(cells)[v].name + ")"]
    {
      var end := Find(TVar(v));
      if end.TCon? {
        messages := messages + ["type-check: variable already resolved (" + cells[v].name + ")"];
        return false;
      }
      BindKeepsRanked(cells, rank, end.id, other);
      rank := BindRank(cells, rank, end.id, other);
      cells := Bind(cells, end.id, other);
      ok := true;
    }

    /**
     * `unify`: connects whichever end is a variable, left first; two
     * constructors must agree on name, then on argument count, and then
     * their arguments are unified pairwise, stopping at the first failure.
     * A mismatch is reported once, as "unification failed". Two ends that
     * are the same variable are left alone; as written the C code links the
     * variable to itself (`TypeGraph.SelfUnifyAsWrittenCycles`). `fuel` bounds the recursion depth.
     */
    method Unify(t1: Ty, t2: Ty, fuel: nat) returns (res: Result<bool, Abort>)
      requires Valid() && WfTy(t1, |cells|) && WfTy(t2, |cells|)
      modifies this`cells, this`rank, this`messages
      ensures Valid() && Extends(old(cells), cells) && |cells| == |old(cells)|
      ensures res == Ok(true) ==> Unified(cells, rank, t1, t2, fuel)
      ensures res == Ok(false) ==> messages == old(messages) + ["type-check: unification failed."]
      ensures res != Ok(false) ==> messages == old(messages)
      ensures fuel == 0 ==> res == Err(StackExhausted) && cells == old(cells)
      ensures fuel > 0 ==> UnifyStep(old(cells), old(rank), t1, t2, res, cells)
      decreases fuel, 2
    {
      if fuel == 0 {
        return Err(StackExhausted);
      }
      var a := Find(t1);
      var b := Find(t2);
      if a.TVar? || b.TVar? {
        if a == b {
          return Ok(true);
        }
        ghost var c0, r0 := cells, rank;
        var v, other := if a.TVar? then a.id else b.id, if a.TVar? then b else a;
        var linked := Connect(v, other);
        ResolveAfterBind(c0, r0, v, other, rank, t1);
        ResolveAfterBind(c0, r0, v, other, rank, t2);
        return Ok(true);
      }
      if a.name != b.name || |a.args| != |b.args| {
        messages := messages + ["type-check: unification failed."];
        return Ok(false);
      }
      res := UnifyArgs(a, b, fuel);
      ResolveThroughEnd(old(cells), old(rank), cells, rank, t1);
      ResolveThroughEnd(old(cells), old(rank), cells, rank, t2);
    }

    /** The argument loop of `unify`. */
    method UnifyArgs(a: Ty, b: Ty, fuel: nat) returns (res: Result<bool, Abort>)
      requires Valid() && WfTy(a, |cells|) && WfTy(b, |cells|)
      requires fuel > 0 && a.TCon? && b.TCon? && |a.args| == |b.args|
      modifies this`cells, this`rank, this`messages
      ensures Valid() && Extends(old(cells), cells) && |cells| == |old(cells)|
      ensures res == Ok(true) ==> PairsUnified(cells, rank, a.args, b.args, |a.args|, fuel - 1)
      ensures res == Ok(false) ==> messages == old(messages) + ["type-check: unification failed."]
      ensures res != Ok(false) ==> messages == old(messages)
      decreases fuel, 1
    {
      assert forall k :: 0 <= k < |a.args| ==> a.args[k] in a.args && b.args[k] in b.args;
      var i := 0;
      assert PairsUnified(cells, rank, a.args, b.args, 0, fuel - 1);
      while i < |a.args|
        invariant 0 <= i <= |a.args|
        invariant Valid() && Extends(old(cells), cells) && |cells| == |old(cells)|
        invariant PairsUnified(cells, rank, a.args, b.args, i, fuel - 1)
        invariant messages == old(messages)
      {
        ghost var c0 := cells;
        res := UnifyPair(a.args, b.args, i, fuel - 1);
        if res != Ok(true) {
          return;
        }
        ExtendsTrans(old(cells), c0, cells);
        i := i + 1;
      }
      res := Ok(true);
    }

    /** One pair of the argument loop, keeping the earlier pairs unified. */
    method UnifyPair(xs: seq<Ty>, ys: seq<Ty>, i: nat, depth: nat) returns (res: Result<bool, Abort>)
      requires Valid() && i < |xs| && i < |ys|
      requires WfTy(xs[i], |cells|) && WfTy(ys[i], |cells|)
      requires PairsUnified(cells, rank, xs, ys, i, depth)
      modifies this`cells, this`rank, this`messages
      ensures Valid() && Extends(old(cells), cells) && |cells| == |old(cells)|
      ensures res == Ok(true) ==> PairsUnified(cells, rank, xs, ys, i + 1, depth)
      ensures res == Ok(false) ==> messages == old(messages) + ["type-check: unification failed."]
      ensures res != Ok(false) ==> messages == old(messages)
      decreases depth + 1, 0
    {
      ghost var c0, r0 := cells, rank;
      res := Unify(xs[i], ys[i], depth);
      if res == Ok(true) {
        PairsUnifiedExtend(c0, r0, cells, rank, xs, ys, i, depth);
        PairsUnifiedNext(cells, rank, xs, ys, i, depth);
      }
    }
  }

  /** An `mt_t` constructor node under construction by `mt_con` and `mt_con_add_arg`. */
  class MtCon {
    var name: string
    var args: seq<Ty>

    /** `mt_con`: a constructor with no arguments. */
    constructor (name: string)
      ensures this.name == name && args == []
    {
      this.name := name;
      args := [];
    }

    /** The node as a type. */
    function Value(): (t: Ty)
      reads this
      ensures t.TCon? && t.name == name && t.args == args
    {
      TCon(name, args)
    }

    /** `mt_con_add_arg`: one more argument at the end; the count grows by one. */
    method AddArg(arg: Ty)
      modifies this
      ensures name == old(name) && args == old(args) + [arg]
      ensures |args| == |old(args)| + 1 && Value() == TCon(name, old(args) + [arg])
    {
      args := args + [arg];
    }
  }

  /** An `mt_forall_t` under construction by `mt_forall` and `mt_forall_add_var`. */
  class MtForall {
    var ty: Ty
    var tyvars: seq<Ty>

    /** `mt_forall`: a scheme with no quantified variables. */
    constructor (ty: Ty)
      ensures this.ty == ty && tyvars == []
    {
      this.ty := ty;
      tyvars := [];
    }

    function Value(): (s: Scheme)
      reads this
      ensures s.ty == ty && s.tyvars == tyvars
    {
      Forall(ty, tyvars)
    }

    /** `mt_forall_add_var`: asserts that `v` is a variable, then appends it. */
    method AddVar(v: Ty) returns (res: Result<(), Abort>)
      modifies this
      ensures ty == old(ty)
      ensures v.TVar? ==> res.Ok? && tyvars == old(tyvars) + [v]
      ensures !v.TVar? ==> res == Err(AssertFailed("var->tag == MT_VAR")) && tyvars == old(tyvars)
    {
      if !v.TVar? {
        return Err(AssertFailed("var->tag == MT_VAR"));
      }
      tyvars := tyvars + [v];
      res := Ok(());
    }
  }
}
