/**
 * `gvm/gvm_compiler.c` as the program runs it: the source-to-index map
 * whose three blocks are written in place, and the compiler state whose
 * instruction list is appended to and back-patched. Each routine is a
 * method proved to do what the functions of `GvmCompiler` describe.
 */
module GvmCompilerImpl {
  import opened Wrappers
  import opened GvmCompiler
  import S = GvmSrcmap
  import A = GvmAsmUtils
  import ShUtils
  import CC = CoCompiler
  import U = GvmUtils
  import F = GvmCompilerFacts

  /** `realloc` of a block to `n` entries: a fresh block, the first entries copied, the rest `fill`. */
  method Realloc<T>(a: array<T>, n: nat, fill: T) returns (b: array<T>)
    ensures fresh(b) && b[..] == Resized(a[..], n, fill)
  {
    b := new T[n](_ => fill);
    var m := if n < a.Length then n else a.Length;
    var k := 0;
    while k < m
      invariant 0 <= k <= m
      invariant forall j :: 0 <= j < k ==> b[j] == a[j]
      invariant forall j :: k <= j < n ==> b[j] == fill
    {
      b[k] := a[k];
      k := k + 1;
    }
    assert forall j :: 0 <= j < n ==> b[j] == Resized(a[..], n, fill)[j];
  }

  /** `src2idxmap_t`: the in-use flags, the key and value blocks, the count and the tag. */
  class SrcIdxMap {
    var used: array<bool>
    var keys: array<S.Srcref>
    var values: array<IrIndex>
    var count: nat
    var tag: IrIndexTag

    /** The map as a value. */
    function Val(): S2im
      reads this, used, keys, values
    {
      S2im(tag, count, used[..], keys[..], values[..])
    }

    /** `s2sim_init` (allocation failure is not modelled). */
    constructor (tag: IrIndexTag, capacity: nat)
      ensures Val() == Init(tag, capacity) && fresh(used) && fresh(keys) && fresh(values)
    {
      used := new bool[capacity](_ => false);
      keys := new S.Srcref[capacity](_ => S.NoRef);
      values := new IrIndex[capacity](_ => NoIndex);
      count := 0;
      this.tag := tag;
      new;
      assert used[..] == seq(capacity, _ => false);
      assert keys[..] == seq(capacity, _ => S.NoRef);
      assert values[..] == seq(capacity, _ => NoIndex);
    }

    /**
     * The probe loop of `s2im_insert` on a map with slots: the key and the
     * value go to the first slot not in use, unless an equal key comes
     * first; a slot past its block is reported and nothing written.
     */
    method Place(key: S.Srcref, val: IrIndex) returns (p: Probed)
      requires used.Length > 0
      modifies this, used, keys, values
      ensures p == InsertProbe(old(Val()), key, Start(old(Val()), key), 0)
      ensures used == old(used) && keys == old(keys) && values == old(values) && tag == old(tag)
      ensures Val() == if p.Free? then Fill(old(Val()), p.slot, key, val) else old(Val())
    {
      ghost var m := Val();
      var hk := S.Hash(key);
      var capacity := used.Length;
      var start := hk % capacity;
      var i := 0;
      while i < capacity
        invariant 0 <= i <= capacity
        invariant InsertProbe(m, key, start, 0) == InsertProbe(m, key, start, i)
      {
        var t := S.SlotIndex(capacity, start, i);
        if !used[t] {
          if t >= keys.Length || t >= values.Length {
            return Outside;
          }
          FillSlot(t, key, val);
          return Free(t);
        } else if t >= keys.Length {
          return Outside;
        } else if S.SrcrefEquals(keys[t], key) {
          return Duplicate(t);
        }
        i := i + 1;
      }
      return Full;
    }

    /** Slot `t` taken by the key and the value, and the count raised. */
    method FillSlot(t: nat, key: S.Srcref, val: IrIndex)
      requires t < used.Length && t < keys.Length && t < values.Length
      modifies this, used, keys, values
      ensures used == old(used) && keys == old(keys) && values == old(values) && tag == old(tag)
      ensures Val() == Fill(old(Val()), t, key, val)
    {
      values[t] := val;
      used[t] := true;
      keys[t] := key;
      count := count + 1;
    }

    /**
     * `s2sim_ensure_capacity`: when the map must grow, every block is
     * reallocated to twice the required count of entries (as written, the
     * key and value blocks to that many bytes), and corrected the entries
     * are placed again from their hashes.
     */
    method EnsureCapacity(additional: nat, reading: Reading)
      modifies this
      ensures Val() == Grow(old(Val()), additional, reading)
      ensures (used == old(used) || fresh(used)) && (keys == old(keys) || fresh(keys)) && (values == old(values) || fresh(values))
    {
      var required := count + additional;
      if !MustGrow(used.Length, required) {
        return;
      }
      var n := required * 2;
      if reading == AsWritten || used.Length != keys.Length || used.Length != values.Length || n == 0 {
        var kn := if reading == AsWritten then n / KeyBytes else n;
        var vn := if reading == AsWritten then n / ValueBytes else n;
        Reallocate(n, kn, vn);
      } else {
        ghost var m := Val();
        var into := Rehashed(n);
        used, keys, values := into.used, into.keys, into.values;
        assert Val() == RehashFrom(m, Init(m.tag, n), 0).(count := m.count);
      }
    }

    /** The three blocks reallocated to `n`, `kn` and `vn` entries; the entries kept stay in their slots. */
    method Reallocate(n: nat, kn: nat, vn: nat)
      modifies this
      ensures Val() == old(Val()).(used := Resized(old(used[..]), n, false),
        keys := Resized(old(keys[..]), kn, S.NoRef), values := Resized(old(values[..]), vn, NoIndex))
      ensures fresh(used) && fresh(keys) && fresh(values)
    {
      used := Realloc(used, n, false);
      keys := Realloc(keys, kn, S.NoRef);
      values := Realloc(values, vn, NoIndex);
    }

    /** The corrected growth: a map of `n` slots holding the entries of this one, each placed from its hash in slot order. */
    method Rehashed(n: nat) returns (into: SrcIdxMap)
      requires n > 0 && WellSized(Val())
      ensures fresh(into) && fresh(into.used) && fresh(into.keys) && fresh(into.values)
      ensures into.Val() == RehashFrom(Val(), Init(tag, n), 0)
    {
      ghost var m := Val();
      into := new SrcIdxMap(tag, n);
      var i := 0;
      while i < used.Length
        invariant 0 <= i <= used.Length
        invariant fresh(into) && fresh(into.used) && fresh(into.keys) && fresh(into.values)
        invariant WellSized(into.Val()) && into.used.Length == n
        invariant RehashFrom(m, Init(tag, n), 0) == RehashFrom(m, into.Val(), i)
      {
        if used[i] {
          var _ := into.Place(keys[i], values[i]);
        }
        i := i + 1;
      }
    }

    /**
     * `s2im_insert`: the tag checked (asserted), room made, then the probe;
     * the answer is true when the key was added.
     */
    method Insert(key: S.Srcref, val: IrIndex, reading: Reading) returns (r: Result<bool, Abort>)
      modifies this, used, keys, values
      ensures match GvmCompiler.Insert(old(Val()), key, val, reading)
        case Ok((m, added)) => r == Ok(added) && Val() == m
        case Err(a) => r == Err(a)
    {
      if val.tag != tag {
        return Err(AssertFailed("table tag and value mismatch"));
      }
      EnsureCapacity(1, reading);
      var p := Place(key, val);
      match p
      case Free(_) => r := Ok(true);
      case Duplicate(_) => r := Ok(false);
      case Full => r := Ok(false);
      case Outside => r := Err(OutOfBounds);
    }

    /** `s2im_lookup`: the value of the first slot of the probe holding an equal key, none at a slot not in use. */
    method Lookup(key: S.Srcref) returns (r: Result<Option<IrIndex>, Abort>)
      ensures r == GvmCompiler.Lookup(Val(), key)
    {
      var hk := S.Hash(key);
      var capacity := used.Length;
      if capacity == 0 {
        return Err(DivisionByZero);
      }
      var start := hk % capacity;
      ghost var m := Val();
      var i := 0;
      while i < capacity
        invariant 0 <= i <= capacity
        invariant LookupProbe(m, key, start, 0) == LookupProbe(m, key, start, i)
      {
        var t := S.SlotIndex(capacity, start, i);
        if !used[t] {
          return Ok(None);
        }
        if t >= keys.Length {
          return Err(OutOfBounds);
        }
        if S.SrcrefEquals(keys[t], key) {
          if t >= values.Length {
            return Err(OutOfBounds);
          }
          return Ok(Some(values[t]));
        }
        i := i + 1;
      }
      return Ok(None);
    }

    /** `s2im_clear`: every flag cleared, the count zero, the tag kept. */
    method Clear()
      modifies this, used
      ensures Val() == GvmCompiler.Clear(old(Val()))
      ensures used == old(used) && keys == old(keys) && values == old(values)
    {
      var u := used;
      var i := 0;
      while i < u.Length
        invariant 0 <= i <= u.Length
        invariant forall k :: 0 <= k < i ==> !u[k]
        invariant used == u && keys == old(keys) && values == old(values) && tag == old(tag)
      {
        u[i] := false;
        i := i + 1;
      }
      count := 0;
      assert used[..] == seq(used.Length, _ => false);
    }
  }

  /**
   * `compiler_state_t`: the instruction list, appended to and back-patched;
   * the locals and functions maps, held here as the values `SrcIdxMap`
   * keeps; the constants.
   */
  class Compiler {
    var instrs: seq<IrInst>
    var locals: S2im
    var functions: S2im
    var consts: seq<GConst>

    /** The state as a value. */
    function St(): CState
      reads this
    {
      CState(instrs, locals, functions, consts)
    }

    /** A call that crashed with `crash`, or did not and left the state `r` gives. */
    predicate Follows(r: Outcome, crash: Option<Abort>)
      reads this
    {
      match r
      case Done(t) => crash.None? && St() == t
      case Crashed(a) => crash == Some(a)
    }

    /** The state `gvm_compile` sets up: both maps of 16 slots, nothing emitted. */
    constructor ()
      ensures St() == CState([], Init(IridVar, 16), Init(IridIns, 16), [])
    {
      instrs := [];
      functions := Init(IridIns, 16);
      locals := Init(IridVar, 16);
      consts := [];
    }

    /** `irl_add`: appends an instruction and answers its index. */
    method Add(i: IrInst) returns (idx: nat)
      modifies this
      ensures St() == Emit(old(St()), i) && idx == |old(instrs)|
    {
      idx := |instrs|;
      instrs := instrs + [i];
    }

    /** `irl_get(...)->args[0] = v`. */
    method SetTarget(at: nat, v: nat)
      requires at < |instrs|
      modifies this
      ensures St() == Patch(old(St()), at, v)
    {
      instrs := instrs[at := instrs[at].(a0 := v)];
    }

    /** A constant appended; answers its index. */
    method AddConstant(c: GConst) returns (k: nat)
      modifies this
      ensures (k, St()) == AddConst(old(St()), c)
    {
      k := |consts|;
      consts := consts + [c];
    }

    /** `codegen`. */
    method Codegen(n: Node, reading: Reading) returns (crash: Option<Abort>)
      requires Shaped(n)
      modifies this
      ensures Follows(Gen(n, old(St()), reading), crash)
      decreases n, 3
    {
      ghost var s0 := St();
      match n
      case BinopNode(_, _, _) =>
        crash := CodegenBinop(n, reading);
      case UnopNode(_, _) =>
        crash := CodegenUnop(n, reading);
      case Assign(_, _) =>
        crash := CodegenAssign(n, reading);
      case ArrayNode(_) =>
        crash := CodegenArray(n, reading);
      case Return(_) =>
        crash := CodegenReturn(n, reading);
      case Block(_) =>
        crash := CodegenItems(n, reading);
      case If(_, _) =>
        crash := CodegenIf(n, reading);
      case IfElse(_, _, _) =>
        crash := CodegenIfElse(n, reading);
      case Foreach(_, _, _) =>
        crash := CodegenForeach(n, reading);
      case FunDecl(_, _, _) =>
        crash := CodegenFunDecl(n, reading);
      case FunCall(_, _) =>
        crash := CodegenFunCall(n, reading);
      case VarRef(_) =>
        crash := CodegenVarRef(n);
      case Value(_) =>
        crash := CodegenValue(n);
      case VarDecl(_) =>
        crash := CodegenVarDecl(n, reading);
      case Break =>
        crash := Some(AssertFailed("break op is not implemented yet"));
    }

    /** `codegen_unop`: the operand, then `NEG` for a negation; any other operation only prints a message. */
    method CodegenUnop(n: Node, reading: Reading) returns (crash: Option<Abort>)
      requires n.UnopNode? && Shaped(n)
      modifies this
      ensures Follows(Gen(n, old(St()), reading), crash)
      decreases n, 2
    {
      crash := Codegen(n.inner, reading);
      if crash.None? && n.uop == Neg {
        var _ := Add(Plain(A.OpNeg));
      }
    }

    /** The `AST_RETURN` case of `codegen`: the value, then `RETURN`. */
    method CodegenReturn(n: Node, reading: Reading) returns (crash: Option<Abort>)
      requires n.Return? && Shaped(n)
      modifies this
      ensures Follows(Gen(n, old(St()), reading), crash)
      decreases n, 2
    {
      crash := Codegen(n.result, reading);
      if crash.None? {
        var _ := Add(Plain(A.OpReturn));
      }
    }

    /** The `AST_VAR_REF` case of `codegen`: `LOAD_LOCAL` of the variable's index, whose absence is asserted against. */
    method CodegenVarRef(n: Node) returns (crash: Option<Abort>)
      requires n.VarRef?
      modifies this
      ensures forall reading :: Follows(Gen(n, old(St()), reading), crash)
    {
      match Require(Lookup(locals, n.name), "variable not found") {
        case Err(a) =>
          crash := Some(a);
        case Ok(v) =>
          var _ := Add(IrInst(A.OpLoadLocal, v.idx, 0));
          crash := None;
      }
    }

    /** The `AST_VAR_DECL` case of `codegen`: the name added to the locals with the next variable index. */
    method CodegenVarDecl(n: Node, reading: Reading) returns (crash: Option<Abort>)
      requires n.VarDecl?
      modifies this
      ensures Follows(Gen(n, old(St()), reading), crash)
    {
      match Insert(locals, n.name, IrIndex(IridVar, locals.count), reading) {
        case Err(a) =>
          crash := Some(a);
        case Ok((m, _)) =>
          locals := m;
          crash := None;
      }
    }

    /** The loop over the children of a block or an array. */
    method CodegenItems(n: Node, reading: Reading) returns (crash: Option<Abort>)
      requires (n.Block? || n.ArrayNode?) && Shaped(n)
      modifies this
      ensures Follows(GenItems(n, 0, old(St()), reading), crash)
      decreases n, 1
    {
      ghost var s0 := St();
      var i := 0;
      while i < |Items(n)|
        invariant i <= |Items(n)|
        invariant GenItems(n, 0, s0, reading) == GenItems(n, i, St(), reading)
      {
        crash := Codegen(Items(n)[i], reading);
        if crash.Some? {
          return;
        }
        i := i + 1;
      }
      crash := None;
    }

    /** `codegen_binop`. */
    method CodegenBinop(n: Node, reading: Reading) returns (crash: Option<Abort>)
      requires n.BinopNode? && Shaped(n)
      modifies this
      ensures Follows(GenBinop(n, old(St()), reading), crash)
      decreases n, 2
    {
      crash := Codegen(n.right, reading);
      if crash.Some? {
        return;
      }
      crash := Codegen(n.left, reading);
      if crash.Some? {
        return;
      }
      match BinopCode(n.op)
      case Some(op) =>
        var _ := Add(Plain(op));
      case None =>
    }

    /** `codegen_value`. */
    method CodegenValue(n: Node) returns (crash: Option<Abort>)
      requires n.Value?
      modifies this
      ensures Follows(GenValue(n, old(St())), crash)
    {
      var k: nat;
      match n.value {
        case NoValue =>
          return Some(AssertFailed("unsupported constant value"));
        case BoolValue(b) =>
          k := AddConstant(BoolConst(b));
        case Number(x) =>
          k := AddConstant(NumberConst(x));
        case StringValue(ref) =>
          if ref.source.None? {
            return Some(NullDereference);
          }
          if ShUtils.At(ref.source.value, ref.start) != '"' {
            return Some(AssertFailed("current impl requres quoted strings."));
          }
          k := AddConstant(StringConst(S.Text(ref)));
      }
      var _ := Add(IrInst(A.OpPushValue, k, 0));
      crash := None;
    }

    /** The `AST_ARRAY` case of `codegen`. */
    method CodegenArray(n: Node, reading: Reading) returns (crash: Option<Abort>)
      requires n.ArrayNode? && Shaped(n)
      modifies this
      ensures Follows(GenArray(n, old(St()), reading), crash)
      decreases n, 2
    {
      crash := CodegenItems(n, reading);
      if crash.Some? {
        return;
      }
      var k := AddConstant(NumberConst(|n.items|));
      var _ := Add(IrInst(A.OpPushValue, k, 0));
      var _ := Add(Plain(A.OpMakeArray));
    }

    /** `codegen_assignment`. */
    method CodegenAssign(n: Node, reading: Reading) returns (crash: Option<Abort>)
      requires n.Assign? && Shaped(n)
      modifies this
      ensures Follows(GenAssign(n, old(St()), reading), crash)
      decreases n, 2
    {
      crash := Codegen(n.rightValue, reading);
      if crash.Some? {
        return;
      }
      if locals.count == 0 {
        return Some(AssertFailed("local vars was empty"));
      }
      if !(n.leftVar.VarDecl? || n.leftVar.VarRef?) {
        return Some(AssertFailed("expected variable node as LSH in assignment"));
      }
      if n.leftVar.VarDecl? {
        crash := Codegen(n.leftVar, reading);
        if crash.Some? {
          return;
        }
      }
      match Require(Lookup(locals, n.leftVar.name), "varname not found")
      case Err(a) =>
        crash := Some(a);
      case Ok(v) =>
        var _ := Add(IrInst(A.OpStoreLocal, v.idx, 0));
    }

    /** `codegen_foreach`, up to the declaration of the loop variable. */
    method CodegenForeach(n: Node, reading: Reading) returns (crash: Option<Abort>)
      requires n.Foreach? && Shaped(n)
      modifies this
      ensures Follows(GenForeach(n, old(St()), reading), crash)
      decreases n, 2
    {
      crash := Codegen(n.collection, reading);
      if crash.Some? {
        return;
      }
      var _ := Add(Plain(A.OpMakeIter));
      var start := Add(Plain(A.OpIterNext));
      crash := Codegen(n.decl, reading);
      if crash.Some? {
        return;
      }
      crash := CodegenForeachBody(n, start, reading);
    }

    /** The rest of `codegen_foreach`: the store, the body, the jump back, the patch of `ITER_NEXT`. */
    method CodegenForeachBody(n: Node, start: nat, reading: Reading) returns (crash: Option<Abort>)
      requires n.Foreach? && Shaped(n) && start < |instrs|
      modifies this
      ensures Follows(ForeachBody(n, old(St()), start, reading), crash)
      decreases n, 1
    {
      match Require(Lookup(locals, n.decl.name), "variable not found")
      case Err(a) =>
        crash := Some(a);
      case Ok(v) =>
        var _ := Add(IrInst(A.OpStoreLocal, v.idx, 0));
        crash := Codegen(n.during, reading);
        if crash.Some? {
          return;
        }
        var _ := Add(IrInst(A.OpJump, start, 0));
        SetTarget(start, |instrs|);
    }

    /** The `AST_IF` case of `codegen`. */
    method CodegenIf(n: Node, reading: Reading) returns (crash: Option<Abort>)
      requires n.If? && Shaped(n)
      modifies this
      ensures Follows(GenIf(n, old(St()), reading), crash)
      decreases n, 2
    {
      crash := Codegen(n.cond, reading);
      if crash.Some? {
        return;
      }
      var test := Add(Plain(A.OpJumpIfFalse));
      crash := Codegen(n.ifTrue, reading);
      if crash.Some? {
        return;
      }
      SetTarget(test, |instrs|);
    }

    /** The `AST_IF_ELSE` case of `codegen`. */
    method CodegenIfElse(n: Node, reading: Reading) returns (crash: Option<Abort>)
      requires n.IfElse? && Shaped(n)
      modifies this
      ensures Follows(GenIfElse(n, old(St()), reading), crash)
      decreases n, 2
    {
      crash := Codegen(n.cond, reading);
      if crash.Some? {
        return;
      }
      var test := Add(Plain(A.OpJumpIfFalse));
      crash := Codegen(n.ifTrue, reading);
      if crash.Some? {
        return;
      }
      var exit := Add(Plain(A.OpJump));
      SetTarget(test, |instrs|);
      crash := Codegen(n.ifFalse, reading);
      if crash.Some? {
        return;
      }
      SetTarget(exit, |instrs|);
    }

    /** `codegen_fundecl`, up to the frame opened. */
    method CodegenFunDecl(n: Node, reading: Reading) returns (crash: Option<Abort>)
      requires n.FunDecl? && Shaped(n)
      modifies this
      ensures Follows(GenFunDecl(n, old(St()), reading), crash)
      decreases n, 2
    {
      if !n.args.Block? {
        return Some(AssertFailed("node.args->type == AST_BLOCK"));
      }
      if locals.count != 0 {
        return Some(AssertFailed("Function declared inside function?"));
      }
      var frame := Add(Plain(A.OpMakeFrame));
      var r := Insert(functions, n.fname, IrIndex(IridIns, frame), reading);
      if r.Err? {
        return Some(r.error);
      }
      var (fm, ok) := r.value;
      functions := fm;
      if !ok {
        return Some(AssertFailed("ok == true"));
      }
      locals := Clear(locals);
      crash := CodegenFunBody(n, frame, reading);
    }

    /** The rest of `codegen_fundecl`: the parameters, the body, the frame filled in, the locals cleared. */
    method CodegenFunBody(n: Node, frame: nat, reading: Reading) returns (crash: Option<Abort>)
      requires n.FunDecl? && Shaped(n) && frame < |instrs|
      modifies this
      ensures Follows(FunBody(n, old(St()), frame, reading), crash)
      decreases n, 1
    {
      crash := Codegen(n.args, reading);
      if crash.Some? {
        return;
      }
      var argCount := locals.count;
      crash := Codegen(n.body, reading);
      if crash.Some? {
        return;
      }
      instrs := instrs[frame := IrInst(A.OpMakeFrame, argCount, CC.Sub32(locals.count, argCount))];
      locals := Clear(locals);
    }

    /** `codegen_funcall`. */
    method CodegenFunCall(n: Node, reading: Reading) returns (crash: Option<Abort>)
      requires n.FunCall? && Shaped(n)
      modifies this
      ensures Follows(GenFunCall(n, old(St()), reading), crash)
      decreases n, 2
    {
      crash := Codegen(n.callArgs, reading);
      if crash.Some? {
        return;
      }
      var found := Lookup(functions, n.cname);
      match reading
      case AsWritten =>
        crash := match found
          case Err(a) => Some(a)
          case Ok(Some(_)) => Some(AssertFailed("Function not found (not declared)"))
          case Ok(None) => Some(NullDereference);
      case Corrected =>
        match Require(found, "Function not found (not declared)") {
          case Err(a) =>
            crash := Some(a);
          case Ok(v) =>
            var _ := Add(IrInst(A.OpCall, v.idx, 0));
        }
    }

    /**
     * The end of `gvm_compile` once the tree is compiled: `main` looked up
     * (its absence asserted against), the entry point at index 0 patched to
     * its frame index, the program written.
     */
    method Complete(reading: Reading) returns (r: Result<Program, Abort>)
      requires 0 < |instrs|
      modifies this
      ensures r == Finish(Done(old(St())), reading)
    {
      match Require(Lookup(functions, MainRef), "main entrypoint not found") {
        case Err(a) =>
          r := Err(a);
        case Ok(v) =>
          ghost var t := St();
          SetTarget(0, v.idx);
          assert instrs == Patch(t, 0, v.idx).instrs && consts == t.consts;
          r := WriteProgram(reading);
      }
    }

    /**
     * `recalc_index_to_bytecode_adress`: every targeted operand rewritten
     * in place to the address the table gives for it; an index the table
     * does not have is read out of bounds.
     */
    method Recalc(reading: Reading) returns (err: Option<Abort>)
      modifies this
      ensures match RetargetFrom(old(instrs), 0, reading)
        case Ok(v) => err.None? && instrs == v
        case Err(a) => err == Some(a)
      ensures consts == old(consts)
    {
      var irs := instrs;
      var idx2addr := AddressTable(irs, reading);
      var count := |irs|;
      var i := 0;
      while i < count
        invariant i <= count && |irs| == count
        invariant forall j :: i <= j < count ==> irs[j] == instrs[j]
        invariant forall j :: 0 <= j < i ==> F.InRange(instrs, j, reading) && F.InRange(instrs, j, Corrected)
        invariant forall j :: 0 <= j < i ==> irs[j] == F.Retargeted(instrs, j)
      {
        if IsTargeted(irs[i].opcode) {
          var index := irs[i].a0;
          if index >= idx2addr.Length {
            F.RetargetFails(instrs, i, reading);
            return Some(OutOfBounds);
          }
          irs := irs[i := irs[i].(a0 := idx2addr[index])];
        }
        i := i + 1;
      }
      F.RetargetAll(instrs, irs, reading);
      instrs := irs;
      err := None;
    }

    /**
     * `write_program`: the operands retargeted, then each instruction's
     * bytes written to a buffer of one byte per instruction, which grows
     * as it fills; the program holds the bytes and the constants.
     */
    method WriteProgram(reading: Reading) returns (r: Result<Program, Abort>)
      modifies this
      ensures match RetargetFrom(old(instrs), 0, reading)
        case Ok(v) => r == Ok(Program(Bytes(v), old(consts)))
        case Err(a) => r == Err(a)
    {
      var err := Recalc(reading);
      if err.Some? {
        return Err(err.value);
      }
      var irs, cs := instrs, consts;
      var bytecode := new U.U8Buffer(|irs|);
      var i := 0;
      while i < |irs|
        invariant i <= |irs| && bytecode.Valid() && fresh(bytecode) && fresh(bytecode.data)
        invariant bytecode.capacity > 0 || |irs| == 0
        invariant bytecode.Contents() == CC.Flatten(Chunks(irs)[..i])
      {
        WriteInst(bytecode, irs[i]);
        assert Chunks(irs)[..i + 1][..i] == Chunks(irs)[..i];
        i := i + 1;
      }
      assert Chunks(irs)[..i] == Chunks(irs);
      r := Ok(Program(bytecode.data[..bytecode.size], cs));
    }
  }

  /** `u8buffer_write` on a buffer with room for at least one byte, which never fails. */
  method WriteByte(bytecode: U.U8Buffer, x: bv8)
    requires bytecode.Valid() && bytecode.capacity > 0
    modifies bytecode, bytecode.data
    ensures bytecode.Valid() && bytecode.capacity > 0
    ensures bytecode.Contents() == old(bytecode.Contents()) + [x]
    ensures bytecode.data == old(bytecode.data) || fresh(bytecode.data)
  {
    var r := bytecode.Write(x);
  }

  /** Four bytes of one operand, low byte first, as `write_program` writes them. */
  method WriteWord(bytecode: U.U8Buffer, value: bv32)
    requires bytecode.Valid() && bytecode.capacity > 0
    modifies bytecode, bytecode.data
    ensures bytecode.Valid() && bytecode.capacity > 0
    ensures bytecode.Contents() == old(bytecode.Contents()) + ShUtils.U32Bytes(value)
    ensures bytecode.data == old(bytecode.data) || fresh(bytecode.data)
  {
    var b := ShUtils.U32Bytes(value);
    WriteByte(bytecode, b[0]);
    WriteByte(bytecode, b[1]);
    WriteByte(bytecode, b[2]);
    WriteByte(bytecode, b[3]);
    AppendFour(old(bytecode.Contents()), b);
  }

  /** Four bytes appended one by one are the four appended at once. */
  lemma AppendFour(c: seq<bv8>, w: seq<bv8>)
    requires |w| == 4
    ensures c + [w[0]] + [w[1]] + [w[2]] + [w[3]] == c + w
  {
  }

  /** Concatenation is associative. */
  lemma AppendAssoc(a: seq<bv8>, b: seq<bv8>, c: seq<bv8>)
    ensures (a + b) + c == a + (b + c)
  {
  }

  /** The bytes of an instruction's first `j` operands. */
  ghost function Operands(ins: IrInst, j: nat): seq<bv8> {
    (if j >= 1 then ShUtils.U32Bytes(CC.U32(ins.a0)) else []) +
    (if j >= 2 then ShUtils.U32Bytes(CC.U32(ins.a1)) else [])
  }

  /** One operand more: its four bytes after the others. */
  lemma OperandsStep(ins: IrInst, j: nat)
    requires j < 2
    ensures Operands(ins, j + 1) == Operands(ins, j) + ShUtils.U32Bytes(if j == 0 then CC.U32(ins.a0) else CC.U32(ins.a1))
  {
  }

  /** An instruction's bytes: the opcode's byte, then its operands'. */
  lemma InstBytesSplit(ins: IrInst)
    ensures InstBytes(ins) == [OpByte(ins.opcode)] + Operands(ins, OpArgCount(ins.opcode))
  {
    var k := OpArgCount(ins.opcode);
    AppendAssoc([OpByte(ins.opcode)],
      if k >= 1 then ShUtils.U32Bytes(CC.U32(ins.a0)) else [],
      if k >= 2 then ShUtils.U32Bytes(CC.U32(ins.a1)) else []);
  }

  /** One turn of the loop of `write_program`: the opcode's low byte, then the operands. */
  method WriteInst(bytecode: U.U8Buffer, ins: IrInst)
    requires bytecode.Valid() && bytecode.capacity > 0
    modifies bytecode, bytecode.data
    ensures bytecode.Valid() && bytecode.capacity > 0
    ensures bytecode.Contents() == old(bytecode.Contents()) + InstBytes(ins)
    ensures bytecode.data == old(bytecode.data) || fresh(bytecode.data)
  {
    var op := OpByte(ins.opcode);
    WriteByte(bytecode, op);
    WriteOperands(bytecode, ins);
    InstBytesSplit(ins);
    AppendAssoc(old(bytecode.Contents()), [op], Operands(ins, OpArgCount(ins.opcode)));
  }

  /** The inner loop of `write_program`: each operand the opcode takes, four bytes low first. */
  method WriteOperands(bytecode: U.U8Buffer, ins: IrInst)
    requires bytecode.Valid() && bytecode.capacity > 0
    modifies bytecode, bytecode.data
    ensures bytecode.Valid() && bytecode.capacity > 0
    ensures bytecode.Contents() == old(bytecode.Contents()) + Operands(ins, OpArgCount(ins.opcode))
    ensures bytecode.data == old(bytecode.data) || fresh(bytecode.data)
  {
    ghost var before := bytecode.Contents();
    var argcount := OpArgCount(ins.opcode);
    var j := 0;
    assert before + Operands(ins, 0) == before;
    while j < argcount
      invariant j <= argcount && bytecode.Valid() && bytecode.capacity > 0
      invariant bytecode.data == old(bytecode.data) || fresh(bytecode.data)
      invariant bytecode.Contents() == before + Operands(ins, j)
    {
      var w := if j == 0 then CC.U32(ins.a0) else CC.U32(ins.a1);
      WriteWord(bytecode, w);
      OperandsStep(ins, j);
      AppendAssoc(before, Operands(ins, j), ShUtils.U32Bytes(w));
      j := j + 1;
    }
  }

  /**
   * The first loop of `recalc_index_to_bytecode_adress`: the address of
   * each instruction. As written the table has one entry per instruction;
   * corrected it has one more, the end of the code.
   */
  method AddressTable(instrs: seq<IrInst>, reading: Reading) returns (idx2addr: array<nat>)
    ensures fresh(idx2addr) && idx2addr.Length == |instrs| + (if reading == Corrected then 1 else 0)
    ensures forall j :: 0 <= j < idx2addr.Length ==> idx2addr[j] == Addr(instrs, j)
  {
    var count := |instrs|;
    idx2addr := new nat[if reading == Corrected then count + 1 else count];
    var addr := 0;
    var i := 0;
    while i < count
      invariant i <= count && addr == Addr(instrs, i)
      invariant idx2addr[..i] == seq(i, j requires 0 <= j < i => Addr(instrs, j))
    {
      idx2addr[i] := addr;
      assert idx2addr[..i + 1] == idx2addr[..i] + [Addr(instrs, i)];
      addr := addr + OpArgCount(instrs[i].opcode) * 4 + 1;
      i := i + 1;
    }
    if reading == Corrected {
      idx2addr[count] := addr;
    }
    assert forall j :: 0 <= j < count ==> idx2addr[j] == idx2addr[..count][j];
  }

  /** `gvm_compile`, run on a fresh compiler state (allocation failure is not modelled). */
  method GvmCompile(node: Node, reading: Reading) returns (r: Result<Program, Abort>)
    requires Shaped(node)
    ensures r == Compile(node, reading)
  {
    var c := new Compiler();
    var entrypoint := c.Add(Plain(OpEntryPoint));
    assert c.St() == StartState();
    var crash := c.Codegen(node, reading);
    if crash.Some? {
      return Err(crash.value);
    }
    r := c.Complete(reading);
  }
}
