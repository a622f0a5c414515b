# adder-lang core, modelled in Dafny

adder-lang is a small programming language with two generations of tooling:
the `adder` compiler and virtual machine (`adder/compiler`, `adder/vm`,
`adder/shared`) and the older grid virtual machine `gvm` with its own
tokenizer, parser, compiler and assembler (`gvm/`). A Python prototype of
Hindley-Milner type inference (`scripts/prototype_hindley_milner.py`) and its
C ports (`co_hm.c`, `co_infer.c` and the `refcode` variants) sit beside them.

This project models that core, one Dafny module per source file or shared
concept:

- type inference: the prototype's union-find store, `unify`, `generalize`,
  `instantiate` and `infer` (`HindleyMilner`, on the graph facts of
  `TypeGraph` and `Text`), the C ports (`HmEngine`, `CoHm`, `RefcodeHm`,
  `CoInfer`, `RefcodeInfer`) and the type checkers (`CoBty`, `CoTypecheck`,
  `CoTyping`, `RefcodeTyping`);
- the compiler front and back end: tokenizers (`AdderLexer`,
  `AdderTokenizer`, `GvmLexer`, `GvmTokenizer`, `GvmTokenizerHeader`), parsers
  (`CoParser`, `GvmParser`), code generators and byte-code writers
  (`CoCompiler`, `CoCompilerImpl`, `GvmCompiler`, `GvmCompilerImpl`,
  `GvmAsm`), result and trace buffers (`CoCres`, `CoTrace`, `CoUtils`);
- shared encodings: values and addresses (`ShValue`), interface types
  (`ShIft`), opcodes, programs, FFI tables, arenas and byte helpers;
- the machines: instruction semantics (`VmCore`), the fetch loops of both
  machines (`Vm`, `Gvm`), the garbage-collected heap (`GcHeap`), validators,
  environments, call set-up, grids, memories and message buffers.

State the source updates in place is a `class` whose methods are proved
against specification functions; pure code is functions and lemmas. Where a
source routine is defective the model carries both readings, selected by the
`Reading` value `AsWritten` or `Corrected` (see "## Findings"); the rest of the
model relies on the corrected one. C assertion failures, NULL dereferences and
out-of-bounds accesses are results (`Abort`), never preconditions, except
that a character read past the end of a C string gives a NUL character (see
`ShUtils.At` under "## Left out").

## Model

| member | source | states |
|---|---|---|
| HindleyMilner.ListType | scripts/prototype_hindley_milner.py:44-45 | `list_type(t)` is a constructor with the single argument `t` |
| HindleyMilner.FreshNameInjective | scripts/prototype_hindley_milner.py:57-61 | names `prefix + str(counter)` built from digit-free prefixes never collide: equal names mean equal prefixes and equal counters |
| HindleyMilner.FirstDigitOfFreshName | scripts/prototype_hindley_milner.py:57-61 | in a fresh name the counter starts right after the digit-free prefix |
| HindleyMilner.FreshCells | scripts/prototype_hindley_milner.py:57-61 | `count` successive `fresh_tyvar` calls create exactly `count` unbound variables |
| HindleyMilner.ApplyTy | scripts/prototype_hindley_milner.py:118-123 | `apply_ty` keeps a constructor's name and arity |
| HindleyMilner.ApplyWf | scripts/prototype_hindley_milner.py:118-123 | substituting variables of the store gives a type over the same store |
| HindleyMilner.ApplyKeepsNames | scripts/prototype_hindley_milner.py:118-123 | substitution looks variables up by name only, so growing the store does not change its result |
| HindleyMilner.ApplyEmpty | scripts/prototype_hindley_milner.py:118-123 | applying the empty mapping gives the type back |
| HindleyMilner.FtvCon | scripts/prototype_hindley_milner.py:131-136 | `ftv_ty` of a constructor is the union of `ftv_ty` of its arguments |
| HindleyMilner.FtvListAll | scripts/prototype_hindley_milner.py:134-135 | the free names of an argument list are exactly those of some argument |
| HindleyMilner.ApplyFtv | scripts/prototype_hindley_milner.py:118-136 | after substitution the free names are the unmapped names of the type plus the free names of what the mapped ones are replaced by (both directions) |
| HindleyMilner.Without | scripts/prototype_hindley_milner.py:148 | the set difference `ftv_ty(ty) - ftv_ctx(ctx)`: a name is kept iff it is listed and not dropped |
| HindleyMilner.GeneralizeAsWritten | scripts/prototype_hindley_milner.py:139-149 | `generalize` as written: the body is kept, the bound names are sorted without repeats, and a name is bound iff it is free in the type and not free in the raw context bodies |
| HindleyMilner.Freeze | scripts/prototype_hindley_milner.py:151-159 | `recursive_find` yields a type over the store all of whose variables are unbound |
| HindleyMilner.FreezeAll | scripts/prototype_hindley_milner.py:158 | the argument list is frozen element by element; it fails iff some argument's freeze fails |
| HindleyMilner.FreezeSound | scripts/prototype_hindley_milner.py:151-159 | a frozen type is unified with the original in the current store |
| HindleyMilner.FreezeIdempotent | scripts/prototype_hindley_milner.py:151-159 | freezing a type whose variables are all unbound returns it unchanged |
| HindleyMilner.FreezeTwice | scripts/prototype_hindley_milner.py:151-159 | freezing a frozen type changes nothing (idempotence) |
| HindleyMilner.FreezeCtx | scripts/prototype_hindley_milner.py:143-144 | the context with every scheme body frozen: same names, same bound variables, each body its freeze |
| HindleyMilner.Generalize | scripts/prototype_hindley_milner.py:139-149 | corrected `generalize`: the body is kept and the bound names are sorted and unique; running out of depth is `RecursionLimit` |
| HindleyMilner.GeneralizeBinds | scripts/prototype_hindley_milner.py:139-149 | the corrected `generalize` binds a name iff it is free in the type and free in no frozen context scheme (both directions) |
| HindleyMilner.TypedExtends | scripts/prototype_hindley_milner.py:161-194 | a derivation of `infer` still holds in any store that extends the one it was made in: later unifications only add links |
| HindleyMilner.GeneralizeAsWrittenQuantifiesContextVariable | scripts/prototype_hindley_milner.py:139-149 | with `a1` linked to `t3` and `x: a1` in the context, the as-written `generalize` binds `t3` while the corrected one binds nothing |
| HindleyMilner.BindEndsAsWritten | scripts/prototype_hindley_milner.py:99-106 | the variable branches of `unify`: a variable left end is linked to the right end (even when both are the same variable), otherwise the right end is linked to the left |
| HindleyMilner.FollowSelfLink | scripts/prototype_hindley_milner.py:11-19 | a variable linked to itself is its own successor at every step of the `find` loop |
| HindleyMilner.SelfLinkNeverResolves | scripts/prototype_hindley_milner.py:99-104 | unifying an unbound variable with itself links it to itself, after which `find` never reaches an unbound end and no rank orders the store |
| HindleyMilner.FreshSubst | scripts/prototype_hindley_milner.py:126-128 | the mapping of `instantiate` has exactly the scheme's bound names as keys |
| HindleyMilner.FreshSubstFresh | scripts/prototype_hindley_milner.py:127 | each bound name maps to the fresh variable created for its last occurrence |
| HindleyMilner.FreshSubstWf | scripts/prototype_hindley_milner.py:127 | the fresh variables are cells of the store that created them |
| HindleyMilner.FreshSubstInjective | scripts/prototype_hindley_milner.py:127 | distinct bound names get distinct fresh variables |
| HindleyMilner.TypeStore.constructor | scripts/prototype_hindley_milner.py:55 | the store starts empty with the counter at 0 |
| HindleyMilner.TypeStore.NewVar | scripts/prototype_hindley_milner.py:6-9 | `TyVar(name)` appends one unbound cell with that name and leaves the counter alone |
| HindleyMilner.TypeStore.FreshTyVar | scripts/prototype_hindley_milner.py:57-61 | `fresh_tyvar(prefix)` appends a cell named prefix plus counter and increments the counter |
| HindleyMilner.TypeStore.Find | scripts/prototype_hindley_milner.py:11-19 | the `find` loop returns the end of the chain (`Resolve`) |
| HindleyMilner.TypeStore.MakeEqualTo | scripts/prototype_hindley_milner.py:21-24 | links the end of the chain to `other` when it is a variable, otherwise fails the assertion and changes nothing |
| HindleyMilner.TypeStore.Unify | scripts/prototype_hindley_milner.py:99-115 | on success both types are unified; each outcome (bind, name mismatch, arity mismatch, argument failure, depth) follows the branches of `unify`; the store only grows by links |
| HindleyMilner.TypeStore.UnifyArgs | scripts/prototype_hindley_milner.py:112-113 | on success every argument pair is unified |
| HindleyMilner.TypeStore.UnifyPair | scripts/prototype_hindley_milner.py:112-113 | one loop step keeps the earlier pairs unified and adds the current one |
| HindleyMilner.TypeStore.Instantiate | scripts/prototype_hindley_milner.py:126-128 | appends one fresh `t` variable per bound name and returns the body with the bound names replaced by them |
| HindleyMilner.TypeStore.Infer | scripts/prototype_hindley_milner.py:161-194 | the result is the fresh variable created first; an unbound name and an `Assign` node are errors; on success the tree satisfies the typing rules of `infer` (`Typed`) node by node, each sub-term typed by the variable its own inference created first |
| HindleyMilner.TypeStore.InferVar | scripts/prototype_hindley_milner.py:163-168 | the result is unified with a fresh instance of the name's scheme |
| HindleyMilner.TypeStore.UnifyResult | scripts/prototype_hindley_milner.py:169-174 | the result is unified with `int` or `bool`, failing only on depth |
| HindleyMilner.TypeStore.InferFunction | scripts/prototype_hindley_milner.py:175-181 | the parameter gets a fresh `a` variable; the body is typed with the parameter bound to its monomorphic scheme, its type the variable after it, and the result is unified with `param -> body` |
| HindleyMilner.TypeStore.InferApply | scripts/prototype_hindley_milner.py:182-186 | the function and then the argument are typed in the same context, each by the variable its inference created first, and the function's type is unified with `argument -> result` |
| HindleyMilner.TypeStore.InferWhere | scripts/prototype_hindley_milner.py:187-193 | the value is typed in the context; its frozen type is generalized in the store its inference left; the body is typed with the name bound to that scheme, and the result is unified with the body's type |
| HindleyMilner.TypeStore.InferFunctionBody | scripts/prototype_hindley_milner.py:179-181 | with the parameter's variable created, the body is typed in the extended context and the `Function` rule holds |
| HindleyMilner.TypeStore.FinishFunction | scripts/prototype_hindley_milner.py:180 | `unify(result, param -> body)` only adds links; on success the body's derivation and the unification give the `Function` rule |
| HindleyMilner.TypeStore.FinishApply | scripts/prototype_hindley_milner.py:185 | `unify(func_ty, arg_ty -> result)` only adds links; on success the two sub-derivations and the unification give the `Apply` rule |
| HindleyMilner.TypeStore.InferWhereBody | scripts/prototype_hindley_milner.py:189-193 | once the value is typed, its frozen type is generalized, the body is typed under the new binding and the `Where` rule holds; a freeze that runs out of depth is `RecursionLimit` |
| HindleyMilner.TypeStore.FinishWhere | scripts/prototype_hindley_milner.py:192 | `unify(result, body_ty)` only adds links; on success the value's derivation, its generalization, the body's derivation and the unification give the `Where` rule |
| Text.DecimalInjective | scripts/prototype_hindley_milner.py:59 | distinct counters render to distinct decimal strings |
| Text.SortUnique | scripts/prototype_hindley_milner.py:149 | `sorted(set(xs))`: a strictly increasing list with exactly the names of `xs` |
| Text.InsertUnique | scripts/prototype_hindley_milner.py:149 | a name inserted into a sorted list keeps it sorted and adds just that name |
| Text.SortedUnique | scripts/prototype_hindley_milner.py:149 | a strictly sorted list is determined by its elements |
| TypeGraph.Follow | scripts/prototype_hindley_milner.py:11-19 | `n` iterations of the `find` loop |
| TypeGraph.FollowReachesEnd | scripts/prototype_hindley_milner.py:11-19 | in a ranked store the `find` loop reaches the chain's end within the start's rank |
| TypeGraph.Bind | scripts/prototype_hindley_milner.py:24 | `chain_end.forwarded = other`: only the end's link changes |
| TypeGraph.BindKeepsRanked | scripts/prototype_hindley_milner.py:21-24 | linking an end to a type that does not resolve back to it keeps every chain finite |
| TypeGraph.ResolveAfterBind | scripts/prototype_hindley_milner.py:21-24 | after the link a type resolves where it did, unless its chain ended at the bound end; then it resolves where `other` does |
| TypeGraph.ResolveThroughEnd | scripts/prototype_hindley_milner.py:11-19 | in a grown store a type resolves where the end of its old chain now resolves |
| TypeGraph.UnifiedDeeper | scripts/prototype_hindley_milner.py:99-115 | unification that holds at some depth holds at any larger depth |
| TypeGraph.UnifiedExtends | scripts/prototype_hindley_milner.py:99-115 | adding links never undoes a unification |
| TypeGraph.Resolve | scripts/prototype_hindley_milner.py:11-19 | `find` ends at an end of the chain: an end resolves to itself and a bound variable resolves where its link does |
| TypeGraph.SelfUnifyAsWrittenCycles | adder/compiler/co_hm.c:26-29 | as written, unifying an unbound variable with itself links it to itself, after which `find` never reaches the end of a chain and no rank orders the arena |
| Text.Decimal | scripts/prototype_hindley_milner.py:59 | the counter's decimal rendering is a non-empty string of digits |
| HmEngine.HmStore.constructor | adder/compiler/co_hm.c:52-56 | the arena of type cells starts empty with the counter at 0 |
| HmEngine.HmStore.FreshVar | adder/compiler/co_hm.c:58-68 | `hm_fresh_var` appends one unbound cell, named by the given name, or by the prefix and the counter, which then increases |
| HmEngine.HmStore.Find | adder/compiler/co_hm.c:5-15 | `hm_type_find` returns the end of the chain (`Resolve`) |
| HmEngine.HmStore.MakeEqualTo | adder/compiler/co_hm.c:17-21 | writes the link of the chain's end when it is a variable, otherwise fails the assertion and changes nothing |
| HmEngine.HmStore.Unify | adder/compiler/co_hm.c:23-50 | `true` means both types are unified; each answer follows the branches of `hm_unify` (bind, swap, name or count mismatch, argument loop) and the arena only gains links |
| HmEngine.HmStore.UnifyArgs | adder/compiler/co_hm.c:40-47 | a `true` answer leaves every argument pair unified |
| HmEngine.HmStore.UnifyPair | adder/compiler/co_hm.c:40-47 | one loop step keeps the earlier pairs unified and adds the current one |
| CoHm.Literal | adder/compiler/co_hm.c:77-107 | the static literal types are constructors without arguments |
| TypeGraph.FuncType | adder/compiler/co_hm.c:136-140 | the `->` constructor, with the argument and result types in that order; the Python prototype and the reference engine build the same type |
| CoHm.Inferrer.Infer | adder/compiler/co_hm.c:110-180 | a fresh `var` cell first; literals answer with their static constructor; an unbound name, a non-variable parameter and an unknown kind fail their asserts; each other kind leaves the result unified as its case says |
| CoHm.Inferrer.UnifyResult | adder/compiler/co_hm.c:123-126 | the result is unified with the scheme's type, or the `unify failed` assert fires |
| CoHm.Inferrer.InferFunction | adder/compiler/co_hm.c:128-145 | a non-variable parameter fails the assert; otherwise a fresh `a` cell is the parameter and the result is unified with `a -> body` |
| CoHm.Inferrer.FinishFunction | adder/compiler/co_hm.c:136-144 | the result is unified with `param -> body` |
| CoHm.Inferrer.InferApply | adder/compiler/co_hm.c:146-159 | the function's type is unified with `argument -> result` |
| CoHm.Inferrer.InferDefine | adder/compiler/co_hm.c:160-173 | the body is inferred with the name bound to the value's type and the result is unified with the body's type |
| RefcodeHm.MatchFound | adder/compiler/refcode/co_hm.c:17-23 | a key is found by the front-to-back scan iff some pair has it, and the back-to-front lookup finds exactly the same keys |
| RefcodeHm.LastMatchIsMap | adder/compiler/refcode/co_hm.c:25-40 | looking up the last pair with a key is dictionary semantics over the appended pairs |
| RefcodeHm.LastMatchAppend | adder/compiler/refcode/co_hm.c:25-40 | after appending a pair, the last-match lookup of its key finds it and other keys are unaffected |
| RefcodeHm.FirstMatchAppend | adder/compiler/refcode/co_hm.c:17-23 | appending a pair for a key that is already present changes nothing `hm_map_get` returns |
| RefcodeHm.FirstMatchMissesShadowing | adder/compiler/refcode/co_hm.c:17-23 | with `x` bound twice, `hm_map_get` returns the outer binding while dictionary semantics gives the inner one |
| RefcodeHm.HmMap.Empty | adder/compiler/refcode/co_hm.c:279-282 | the zero-initialised map holds no pairs, no capacity and no buffer |
| RefcodeHm.HmMap.Copy | adder/compiler/refcode/co_hm.c:6-15 | `hm_map_copy` gives a fresh buffer with the same pairs and capacity |
| RefcodeHm.HmMap.Get | adder/compiler/refcode/co_hm.c:17-23 | `hm_map_get` returns the value of the first pair with the key, or nothing |
| RefcodeHm.HmMap.Lookup | adder/compiler/refcode/co_hm.c:17-23 | the corrected lookup returns the last pair with the key, which is dictionary semantics |
| RefcodeHm.HmMap.Add | adder/compiler/refcode/co_hm.c:25-40 | `hm_map_add` appends the pair; an unallocated map gets 4 slots, a full one grows to `(count + 1) * 2`, otherwise the capacity stays |
| RefcodeHm.Inferrer.Infer | adder/compiler/refcode/co_hm.c:279-282 | `hm_infer` runs from an empty context, so a variable is always unbound and fails the assert |
| RefcodeHm.Inferrer.InferRec | adder/compiler/refcode/co_hm.c:200-277 | a fresh `$` cell is the result; literals, variables, functions, applications and `where` leave it unified as their cases say; a missing name, a non-variable parameter, a non-assignment binding and the other kinds fail their asserts |
| RefcodeHm.Inferrer.UnifyResult | adder/compiler/refcode/co_hm.c:203-225 | the result is unified with the given type, or the case's assert fires |
| RefcodeHm.Inferrer.Extend | adder/compiler/refcode/co_hm.c:229-230 | a fresh copy of the context with the new pair appended, the original untouched |
| RefcodeHm.Inferrer.InferUnder | adder/compiler/refcode/co_hm.c:263-265 | the body is inferred in a copy of the context that binds the name |
| RefcodeHm.Inferrer.InferFunction | adder/compiler/refcode/co_hm.c:226-243 | a non-variable parameter fails the assert; otherwise the result is unified with `a -> body` for a fresh `a` |
| RefcodeHm.Inferrer.FinishFunction | adder/compiler/refcode/co_hm.c:233-242 | the result is unified with `param -> body` |
| RefcodeHm.Inferrer.InferApply | adder/compiler/refcode/co_hm.c:244-256 | the function's type is unified with `argument -> result` |
| RefcodeHm.Inferrer.InferWhere | adder/compiler/refcode/co_hm.c:257-270 | a non-assignment binding fails the assert; otherwise the result is unified with the body's type inferred under the new binding |
| CoInfer.StrCmpOrder | adder/compiler/co_infer.c:36-38 | the sign of `strcmp` is zero iff the names are equal and negative or positive exactly as the names are ordered |
| CoInfer.PrefixCmpAgrees | adder/compiler/refcode/co_infer.c:36-38 | `strncmp` over the queried length and `strcmp` give the same sign except on a key that properly extends the name |
| CoInfer.PrefixCmpZero | adder/compiler/refcode/co_infer.c:36 | `strncmp` over the queried length is zero exactly on keys that start with the name |
| CoInfer.BinSearch | adder/compiler/co_infer.c:33-43 | `tyctx_binsearch` ends within `[low, high + 1]` and a found index lies within `[low, high]` |
| CoInfer.BinSearchExact | adder/compiler/co_infer.c:33-43 | on sorted keys the `strcmp` bisection finds the name iff it is present, at its index, and otherwise ends where the name belongs (smaller keys before, larger after) |
| CoInfer.PrefixMissIsExact | adder/compiler/refcode/co_infer.c:33-43 | a `strncmp` search that finds nothing takes the same path as the `strcmp` search |
| CoInfer.PrefixHitExtends | adder/compiler/refcode/co_infer.c:33-43 | a key the `strncmp` search finds starts with the queried name |
| CoInfer.PrefixSearchMatchesLongerName | adder/compiler/refcode/co_infer.c:33-43 | with the key `xs` stored, the `strncmp` search answers a query for `x` and the `strcmp` search does not |
| CoInfer.SearchSorted | adder/compiler/co_infer.c:33-43 | over a whole sorted context: the `strcmp` search finds exactly the present names; the `strncmp` search finds a key with the name as prefix; a miss ends at the name's sorted place |
| CoInfer.InsertKeepsSorted | adder/compiler/co_infer.c:74-80 | placing a key between its smaller and larger neighbours keeps the keys strictly sorted |
| CoInfer.FoundFacts | adder/compiler/co_infer.c:86-92 | the lookup finds the name's pair iff present (`strcmp`), or a pair whose key starts with the name and nothing only when the name is absent (`strncmp`) |
| CoInfer.InsertedFacts | adder/compiler/co_infer.c:68-84 | an insertion leaves the pairs alone when the search finds the name, otherwise inserts the pair at one position keeping the keys sorted |
| CoInfer.TyCtx.Create | adder/compiler/co_infer.c:9-16 | `tyctx_create`: an empty context with a fresh buffer of `capacity` pairs |
| CoInfer.TyCtx.Clone | adder/compiler/co_infer.c:18-26 | `tyctx_clone`: a fresh buffer of the same capacity holding the same pairs |
| CoInfer.TyCtx.EnsureCapacity | adder/compiler/co_infer.c:45-57 | the pairs are kept; when `size + extra` reaches the capacity the buffer becomes a fresh one of twice that size |
| CoInfer.TyCtx.MakeRoomAt | adder/compiler/co_infer.c:59-66 | the pairs from `index` move up one slot and the size grows by one |
| CoInfer.TyCtx.Insert | adder/compiler/co_infer.c:68-84 | the answer is true iff the search did not find the name, and the pairs become `Inserted(old pairs)` (sorted insertion, or unchanged) |
| CoInfer.TyCtx.Search | adder/compiler/co_infer.c:73 | the search over the pairs in use is `tyctx_binsearch(0, size - 1)` |
| CoInfer.TyCtx.PlaceAt | adder/compiler/co_infer.c:75-79 | making room at `i` and writing the pair there inserts it at `i` |
| CoInfer.TyCtx.Lookup | adder/compiler/co_infer.c:86-92 | `tyctx_lookup` returns the scheme of the pair the search finds: the name's own pair iff present (`strcmp`), or a pair whose key starts with it (`strncmp`) |
| CoInfer.MtStore.NewVar | adder/compiler/co_infer.c:169-175 | `mt_var` appends one unbound variable named `name` |
| CoInfer.MtStore.Find | adder/compiler/co_infer.c:104-114 | `find` returns the end of the chain |
| CoInfer.MtStore.Connect | adder/compiler/co_infer.c:116-128 | links the end of the chain when it is a variable; a constructor end is reported with the variable's name and nothing is linked |
| CoInfer.MtStore.Unify | adder/compiler/co_infer.c:137-167 | `true` means unified; `false` adds the unification-failed message; each outcome follows the branches of `unify` and the store only gains links |
| CoInfer.MtStore.UnifyArgs | adder/compiler/co_infer.c:153-161 | a `true` answer leaves every argument pair unified; `false` adds the failure message |
| CoInfer.MtStore.UnifyPair | adder/compiler/co_infer.c:154-159 | one step keeps the earlier pairs unified and adds the current one |
| CoInfer.MtCon.constructor | adder/compiler/co_infer.c:177-184 | `mt_con`: a named constructor with no arguments |
| CoInfer.MtCon.AddArg | adder/compiler/co_infer.c:186-201 | `mt_con_add_arg` appends one argument and keeps the name |
| CoInfer.MtForall.constructor | adder/compiler/co_infer.c:203-209 | `mt_forall`: a scheme over the type with no quantified variables |
| CoInfer.MtForall.AddVar | adder/compiler/co_infer.c:211-227 | `mt_forall_add_var` appends a variable, and fails the assert on a constructor without changing the scheme |
| RefcodeInfer.TiValue | adder/compiler/refcode/co_infer.c:233-243 | `ti_value` answers a constant type constructor without arguments from the value-type table |
| RefcodeInfer.ValueTableMatchesEnum | adder/compiler/refcode/co_infer.c:231-239 | the table's order matches the value-type enumeration: `none`, `int`, `bool`, `char`, `float`, and two value types share an entry only if they are the same |
| RefcodeInfer.TiInstantiate | adder/compiler/refcode/co_infer.c:255-260 | `ti_instantiate` fails with a NULL dereference exactly when it is given no scheme |
| RefcodeInfer.TiGeneralize | adder/compiler/refcode/co_infer.c:262-267 | `ti_generalize` builds a scheme that quantifies no variables |
| RefcodeInfer.InstantiateGeneralize | adder/compiler/refcode/co_infer.c:255-267 | instantiating a generalized type gives the same type back |
| RefcodeInfer.Checker.constructor | adder/compiler/refcode/co_infer.c:245 | the fresh-name counter starts at zero over the given store |
| RefcodeInfer.Checker.TiFreshVar | adder/compiler/refcode/co_infer.c:247-251 | `ti_freshvar` appends one unbound cell named `var-<counter>`, returns a variable for it, bumps the counter and leaves earlier cells and messages alone |
| RefcodeInfer.Checker.TiVarAsWritten | adder/compiler/refcode/co_infer.c:293-303 | as written, an unbound name is reported and then its NULL scheme is dereferenced; a successful run returns the fresh variable |
| RefcodeInfer.Checker.TiVar | adder/compiler/refcode/co_infer.c:293-303 | `ti_var` always allocates exactly one fresh `var-` cell and returns it; an unbound name adds the unbound-variable message and nothing else; a bound name's scheme is unified with the variable, and the outcome of that is only recorded in the trace |
| RefcodeInfer.Checker.BindScheme | adder/compiler/refcode/co_infer.c:301 | unifying the fresh variable with a scheme's type keeps the store well formed and the cell count, and answers the variable on success |
| RefcodeInfer.Checker.TiInfer | adder/compiler/refcode/co_infer.c:355-377 | `ti_infer`: a literal answers its table type with the store unchanged; a declaration or reference answers a fresh variable and reports an unbound name; a signature whose argument list is not a block fails its assert; a function declaration allocates one fresh variable and answers nothing; the unhandled kinds fail the `unhandled type` assert; every stub answers nothing and changes nothing |
| RefcodeTyping.Abandon | adder/compiler/refcode/co_typing.c:260-269 | a NULL signature that reaches formatting or comparison ends the run with an error, keeping the context and the trace |
| RefcodeTyping.RepeatsCopies | adder/compiler/refcode/co_typing.c:396-407 | the return-segment test holds exactly of strings made of whole copies of the annotation's signature |
| RefcodeTyping.RepeatsLength | adder/compiler/refcode/co_typing.c:398-400 | a string that passes the segment test is a multiple of the segment long |
| RefcodeTyping.ReturnMatches | adder/compiler/refcode/co_typing.c:396-407 | the return loop (length a multiple of the segment, then every segment compared with `strncmp`) answers exactly the segment test |
| RefcodeTyping.NonBoolMessages | adder/compiler/refcode/co_typing.c:481-489 | the condition loop yields at most one message per character, each the non-boolean message |
| RefcodeTyping.NonBoolSilent | adder/compiler/refcode/co_typing.c:481-489 | the condition loop yields no message exactly when every character is `b` |
| RefcodeTyping.ConditionAccepted | adder/compiler/refcode/co_typing.c:481-495 | an if condition draws no message exactly when its signature is one or more `b` |
| RefcodeTyping.AsWrittenNeverReports | adder/compiler/refcode/co_typing.c:260-269 | as written, `ctx_infer` of a key with no pair answers the key itself, so the callers' NULL checks never fire |
| RefcodeTyping.CorrectedReportsUnknown | adder/compiler/refcode/co_typing.c:260-269 | corrected, a key with no pair is reported with the caller's message and answers the empty signature; a key with a pair adds no message |
| RefcodeTyping.ClonesDiscarded | adder/compiler/refcode/co_typing.c:370-500 | a declaration's body and an if chain's branches run on clones, so the context afterwards is what the signature or condition left |
| RefcodeTyping.RunGrows | adder/compiler/refcode/co_typing.c:290-553 | `infer` keeps the context sorted, never drops a pair and only appends to the trace |
| RefcodeTyping.UseGrows | adder/compiler/refcode/co_typing.c:354-533 | a call, a unary operation and a return keep the context sorted and only append to the trace |
| RefcodeTyping.ArrayGrows | adder/compiler/refcode/co_typing.c:317-335 | the array loop keeps the context sorted, never drops a pair and only appends to the trace |
| RefcodeTyping.BlockGrows | adder/compiler/refcode/co_typing.c:336-353 | the block loop keeps the context sorted, never drops a pair and only appends to the trace |
| RefcodeTyping.SignGrows | adder/compiler/refcode/co_typing.c:423-442 | a function signature keeps the context sorted, never drops a pair and only appends to the trace |
| RefcodeTyping.PairGrows | adder/compiler/refcode/co_typing.c:443-514 | a binary operation and an assignment keep the context sorted, never drop a pair and only append to the trace |
| RefcodeTyping.ResolveKeeps | adder/compiler/refcode/co_typing.c:260-269 | a look-up keeps the context and only appends to the trace |
| RefcodeTyping.ForeachGrows | adder/compiler/refcode/co_typing.c:537-548 | a for-each keeps the context sorted, never drops a pair and only appends to the trace |
| RefcodeTyping.FunDeclGrows | adder/compiler/refcode/co_typing.c:370-422 | a function declaration keeps the context sorted, never drops a pair and only appends to the trace |
| RefcodeTyping.IfGrows | adder/compiler/refcode/co_typing.c:476-500 | an if chain keeps the context sorted, never drops a pair and only appends to the trace |
| RefcodeTyping.BranchesGrow | adder/compiler/refcode/co_typing.c:497-499 | the branches, run on clones, leave the context unchanged and only append to the trace |
| RefcodeTyping.IfConditionRule | adder/compiler/refcode/co_typing.c:480-495 | right after the condition's own messages come one non-boolean message per character other than `b` and one message if it is empty |
| RefcodeTyping.FunDeclReturnRule | adder/compiler/refcode/co_typing.c:370-422 | with a valid return annotation, the declaration answers the empty signature on the signature's context, and reports a mismatch exactly when the body's return signature (`n` when empty) is not a run of copies of the annotation's |
| RefcodeTyping.AssignRule | adder/compiler/refcode/co_typing.c:501-514 | an assignment answers the empty signature and is reported exactly when the two sides' signatures differ |
| RefcodeTyping.ForeachRule | adder/compiler/refcode/co_typing.c:537-548 | a for-each is reported exactly when the collection's signature is not `[` the variable's `]`, then answers the body's signature |
| RefcodeTyping.DeclarationBinds | adder/compiler/refcode/co_typing.c:300-316 | a declaration with a valid annotation answers its signature with no message, binds `$name` when it is new and keeps every earlier pair |
| RefcodeTyping.InsertedFacts | adder/compiler/refcode/co_typing.c:231-250 | `ctx_insert` keeps the keys sorted, keeps every pair, adds the pair under a new key and adds no other key |
| RefcodeTyping.PlacedFacts | adder/compiler/refcode/co_typing.c:212-250 | placing a pair at an index keeps every pair, adds it and adds no other key |
| RefcodeTyping.Checker.constructor | adder/compiler/refcode/co_typing.c:555-556 | the checker starts with the given trace and reading |
| RefcodeTyping.Checker.Infer | adder/compiler/refcode/co_typing.c:290-553 | `infer` on the context object answers and leaves exactly what the recursive rules `Run` give |
| RefcodeTyping.Checker.ResolveKey | adder/compiler/refcode/co_typing.c:260-269 | `ctx_infer` at a use, with its NULL check, agrees with `Resolve` |
| RefcodeTyping.Checker.FollowKey | adder/compiler/refcode/co_typing.c:260-269 | the `ctx_infer` loop agrees with `Follow` for every trace |
| RefcodeTyping.Checker.InferVarDecl | adder/compiler/refcode/co_typing.c:300-316 | the declaration case agrees with `Run` |
| RefcodeTyping.Checker.InferArray | adder/compiler/refcode/co_typing.c:317-335 | the array loop, stopping at the first element whose signature differs from the first one's, agrees with `Run` |
| RefcodeTyping.Checker.InferBlock | adder/compiler/refcode/co_typing.c:336-353 | the block loop, concatenating every item's signature in order, agrees with `Run` |
| RefcodeTyping.Checker.InferUse | adder/compiler/refcode/co_typing.c:354-475 | a call or unary operation, keyed by name and operand signature, agrees with `Run` |
| RefcodeTyping.Checker.InferPair | adder/compiler/refcode/co_typing.c:443-514 | a binary operation or assignment agrees with `Run` |
| RefcodeTyping.Checker.InferFunSign | adder/compiler/refcode/co_typing.c:423-442 | the signature case agrees with `Run` |
| RefcodeTyping.Checker.InferFunDecl | adder/compiler/refcode/co_typing.c:370-422 | the declaration case, with its return loop, agrees with `Run` |
| RefcodeTyping.Checker.CheckCondition | adder/compiler/refcode/co_typing.c:481-495 | the condition loop appends exactly `ConditionMessages` of the signature |
| RefcodeTyping.Checker.InferIf | adder/compiler/refcode/co_typing.c:476-500 | the if case agrees with `Run` |
| RefcodeTyping.Checker.InferBranches | adder/compiler/refcode/co_typing.c:497-499 | the branches run on clones agree with `RunBranches` and leave the context as it was |
| RefcodeTyping.Checker.InferReturn | adder/compiler/refcode/co_typing.c:531-533 | the return case agrees with `Run` |
| RefcodeTyping.Checker.InferForeach | adder/compiler/refcode/co_typing.c:537-548 | the for-each case agrees with `Run` |
| RefcodeTyping.Seeds | adder/compiler/refcode/co_typing.c:555-581 | `typing_check` inserts 26 operator signatures, the first 18 being the arithmetic and comparison ones in source order |
| RefcodeTyping.SeedKeys | adder/compiler/refcode/co_typing.c:557-582 | every seeded key is an operator key |
| RefcodeTyping.SeededFacts | adder/compiler/refcode/co_typing.c:557-582 | the seeded context is sorted and holds only keys of the seeds |
| RefcodeTyping.SeededHas | adder/compiler/refcode/co_typing.c:557-582 | a seed whose key no earlier seed has is in the seeded context |
| RefcodeTyping.SeedResolves | adder/compiler/refcode/co_typing.c:557-582 | such a seed, whose value is no key, resolves to its value |
| RefcodeTyping.SeededBinding | adder/compiler/refcode/co_typing.c:557-582 | such a seed is in the sorted seeded context and its value is neither its key nor any key |
| RefcodeTyping.BoundResolves | adder/compiler/refcode/co_typing.c:260-269 | a key bound to a value that is no key resolves to that value in both readings, adding no message |
| RefcodeTyping.SeededOperation | adder/compiler/refcode/co_typing.c:443-582 | an operator on two values of one base type checked in a seeded context answers the seed's value |
| RefcodeTyping.ValuesOperation | adder/compiler/refcode/co_typing.c:443-448 | an operator on two values is looked up under `#`, its name, `:` and both value signatures |
| RefcodeTyping.SeedsBeforeKeys | adder/compiler/refcode/co_typing.c:557-574 | the first 18 seed keys, in source order |
| RefcodeTyping.FloatEqualityKeysFresh | adder/compiler/refcode/co_typing.c:575-576 | `#==:ff` and `#!=:ff` are not among the earlier keys |
| RefcodeTyping.SeedsAround | adder/compiler/refcode/co_typing.c:575-576 | seeds 18 and 19 are float equality and inequality, with the reading's signature |
| RefcodeTyping.FloatEqualityAsWritten | adder/compiler/refcode/co_typing.c:575-576 | as written, float `==` and `!=` have the float signature |
| RefcodeTyping.FloatEqualityCorrected | adder/compiler/refcode/co_typing.c:575-576 | corrected, float `==` and `!=` are boolean |
| RefcodeTyping.FloatEquality | adder/compiler/refcode/co_typing.c:575-576 | float `==` and `!=` answer the reading's signature |
| RefcodeTyping.IntegerKeysFresh | adder/compiler/refcode/co_typing.c:561-569 | `#+:ii` and `#==:ii` are new keys when inserted |
| RefcodeTyping.IntegerSeeds | adder/compiler/refcode/co_typing.c:561-569 | integer addition is integer and integer equality boolean, in both readings |
| RefcodeTyping.Seed | adder/compiler/refcode/co_typing.c:556-582 | the seeding loop leaves exactly the seeded context |
| RefcodeTyping.TypingCheck | adder/compiler/refcode/co_typing.c:555-585 | `typing_check` answers a valid context holding what `Run` of the root gives from the seeded context |
| CoBty.Tag | adder/compiler/co_bty.h:10-19 | the tag of a type is one of the eight enumerators `BTY_UNKNOWN` … `BTY_FUNC` |
| CoBty.TagDecides | adder/compiler/co_bty.c:9-56 | apart from lists and functions the tag is the whole type: the base types are shared singletons |
| CoBty.NumericLattice | adder/compiler/co_bty.c:238-259 | among types that are neither lists nor functions, subtyping is exactly the order bool < char < int < float on the numeric types, and unknown and void are below nothing |
| CoBty.ListCovariant | adder/compiler/co_bty.c:230-235 | a list is below exactly the lists whose content its content is below, and only a list is below a list |
| CoBty.SubtypeTransitive | adder/compiler/co_bty.c:213-259 | subtyping is transitive, both as written and corrected |
| CoBty.CorrectedAntisymmetric | adder/compiler/co_bty.c:213-259 | with the parent's arguments compared, subtyping is antisymmetric |
| CoBty.AsWrittenIgnoresParentArgs | adder/compiler/co_bty.c:221-222 | as written, a function's subtype test ignores the parent's argument types: only their number and the return types count |
| CoBty.FuncArgsAsWritten | adder/compiler/co_bty.c:213-228 | `func(float)->int` and `func(bool)->int` are each below the other as written though they differ; corrected, the first is not below the second |
| CoBty.IsSubtypeOf | adder/compiler/co_bty.c:213-259 | the recursive C test with its argument loop agrees with the subtype relation of the reading |
| CoBty.IsEqual | adder/compiler/co_bty.c:261-278 | `bty_is_equal` holds exactly when the two types are equal |
| CoBty.FuncAddArg | adder/compiler/co_bty.c:94-118 | `bty_func_add_arg` succeeds exactly on a function and appends the argument; otherwise the `fun->tag == BTY_FUNC` assert fails |
| CoBty.AddArgsBuilds | adder/compiler/co_bty.c:94-118 | adding arguments in order to `bty_func(ret)` builds exactly the function of those arguments |
| CoBty.ValueBty | adder/compiler/co_bty.c:77-87 | a constant value has a base type exactly when it is not `none`, and that type is numeric |
| CoBty.FromConstExpr | adder/compiler/co_bty.c:77-92 | `bty_from_const_expr` agrees with `ConstType` |
| CoBty.FromConstArray | adder/compiler/co_bty.c:58-75 | the array loop agrees with `ConstType`; an empty array is a list of unknown; any result is a list |
| CoBty.FromAnnotation | adder/compiler/co_bty.c:390-421 | an annotation names no type exactly when it reports a message |
| CoBty.AnnotationRoundTrip | adder/compiler/co_bty.c:390-421 | reading back the annotation written for a type gives the type, without a message |
| CoBty.AnnotationNamesAnnotatable | adder/compiler/co_bty.c:390-421 | every type an annotation names is one an annotation can be written for |
| CoBty.SubtypeAt | adder/compiler/co_bty.c:238-259 | on pointers, a NULL child is a NULL dereference; two types answer the subtype relation of the reading |
| CoBty.CheckReport | adder/compiler/co_bty.c:609-616 | once both types are known, `bty_check` reports nothing exactly when the term's type is below the expected one in the subtype relation of the reading |
| CoBty.CheckFuncArgsAsWritten | adder/compiler/co_bty.c:609-616 | as written `func(float)->int` passes a check against `func(bool)->int` silently; corrected it is reported |
| CoBty.CheckAgainstNullAborts | adder/compiler/co_bty.c:609-616 | checking against a NULL expected type always reads through it |
| CoBty.BinopOutcome | adder/compiler/co_bty.c:497-551 | a successful binary operation's type is shaped by the operator and is never unknown |
| CoBty.OperandType | adder/compiler/co_bty.c:503-510 | the operand type chosen is one of the two operands and both are below it |
| CoBty.SubtypeReflexive | adder/compiler/co_bty.c:238-259 | a type below some type is below itself |
| CoBty.BinopNumeric | adder/compiler/co_bty.c:477-551 | on numeric operands a binary operation succeeds exactly when the operator admits the wider operand; arithmetic then yields that type, every other operator bool |
| CoBty.OperandNumeric | adder/compiler/co_bty.c:503-510 | on numeric operands the operand type is the wider one |
| CoBty.BinopWidens | adder/compiler/co_bty.c:497-551 | an arithmetic result is one of the operands, a supertype of both, and int or float |
| CoBty.BinopRejectsNonNumeric | adder/compiler/co_bty.c:477-551 | a list, function, unknown or void operand always yields an error |
| CoBty.BinopExamples | adder/compiler/co_bty.c:477-551 | `true + 1` is int, `'a' < 1.0` is bool and `true and 1` is an error |
| CoBty.ProgressTrans | adder/compiler/co_bty.c:343-360 | never losing a pair and only appending messages composes |
| CoBty.InsertKeeps | adder/compiler/co_bty.c:334-360 | inserting a pair at an index keeps every pair |
| CoBty.Checker.constructor | adder/compiler/co_bty.c:282-290 | the checker starts over the given prefix-searched context with no messages, under the given reading of the subtype relation |
| CoBty.Checker.SynthVarRef | adder/compiler/co_bty.c:423-431 | a reference answers its bound type, adding the undefined-variable message exactly when that is NULL, and keeps the context |
| CoBty.Checker.Synthesize | adder/compiler/co_bty.c:553-595 | `bty_synthesize`: values, references, break and untyped terms as in the source with the context kept; arrays are lists (empty: list of unknown) or unknown; annotations answer the annotated type; operators answer types of their shape; an unknown result of an array or operator comes with a message |
| CoBty.Checker.SynthArray | adder/compiler/co_bty.c:560-568 | the array case answers a list of the common type, or unknown with a message |
| CoBty.Checker.SynthAllSame | adder/compiler/co_bty.c:433-444 | an empty array answers unknown with no message |
| CoBty.Checker.SynthAnnot | adder/compiler/co_bty.c:569-573 | the annotation case answers the annotation's type after checking the term against it |
| CoBty.Checker.SynthUnop | adder/compiler/co_bty.c:448-475 | a unary operation answers a type of its operator's shape; an unknown answer comes with a message |
| CoBty.Checker.SynthBinop | adder/compiler/co_bty.c:497-551 | a binary operation answers a type of its operator's shape; an unknown answer comes with a message |
| CoBty.Checker.BinopOn | adder/compiler/co_bty.c:503-550 | after both operands: a NULL operand is a NULL dereference; otherwise unknown with exactly the decision's message when it fails, and no message otherwise |
| CoBty.Checker.SynthAssign | adder/compiler/co_bty.c:580-584 | an assignment answers the target's type |
| CoBty.Checker.BindUnbound | adder/compiler/co_bty.c:603-607 | an unbound variable is inserted with the expected type at one position, and `assert(res)` fails when the name is found already |
| CoBty.Checker.Check | adder/compiler/co_bty.c:599-617 | `bty_check`: an unbound variable is bound to the expected type without a message; one bound to NULL fails `assert(res)`; a bound variable or a value is reported exactly as `CheckReport` says |
| CoCompiler.ArgCount | adder/shared/sh_asminfo.c:5-52 | `get_op_arg_count`: at most two operands; two exactly for `MAKE_FRAME`; none exactly for the opcodes that take no constant, local, count or address |
| CoCompiler.ConstIndex | adder/compiler/co_utils.c:114-122 | `valbuffer_linear_search` answers the first position holding the constant, or the size when none does |
| CoCompiler.InsertConst | adder/compiler/co_utils.c:124-142 | `valbuffer_insert` answers the index of the first equal constant and keeps the buffer, or appends the constant and answers its index |
| CoCompiler.IndexFrom | adder/compiler/co_compiler.c:114-126 | the local search finds a key equal to the name |
| CoCompiler.LocalIndex | adder/compiler/co_compiler.c:114-126 | `state_get_localvar` answers an index among the locals |
| CoCompiler.FunctionFrom | adder/compiler/co_compiler.c:136-148 | the function search finds an entry whose name equals the name |
| CoCompiler.Gen | adder/compiler/co_compiler.c:513-595 | `codegen` never removes instructions |
| CoCompiler.GenItems | adder/compiler/co_compiler.c:527-559 | the block and array loops never remove instructions |
| CoCompiler.GenBinop | adder/compiler/co_compiler.c:153-248 | `codegen_binop` never removes instructions |
| CoCompiler.GenUnop | adder/compiler/co_compiler.c:250-278 | `codegen_unop` never removes instructions |
| CoCompiler.GenValue | adder/compiler/co_compiler.c:280-327 | a number pushes a constant equal to the literal's value and a boolean one equal to its truth, an equal constant already held being reused and a new one appended; a string starting with a quote appends its denoted characters and an array reference to them and pushes that reference; an unquoted string records a compilation error and pushes nothing; a missing source aborts |
| CoCompiler.AppendArrayHolds | adder/compiler/co_utils.c:160-180 | `valbuffer_append_array` appends the characters in order followed by an array reference spanning them, and returns the reference's index |
| CoCompiler.AppendStringAsWritten | adder/compiler/co_compiler.c:304-308 | as written, the array takes the reported body length, so the slots after the written characters, never written, belong to it |
| CoCompiler.StringArrayAsWrittenSpansUnwritten | adder/compiler/co_compiler.c:304-308 | for `"a\nb"` the array as written spans four constants, the last an unwritten slot, while the corrected one holds the three characters denoted |
| CoCompiler.CountSharesLiteral | adder/compiler/co_compiler.c:532 | a number literal and an element count of equal value share one constant |
| CoCompiler.GenArray | adder/compiler/co_compiler.c:527-546 | the array rule ends with a push of a constant equal to the element count followed by `MAKE_ARRAY` |
| CoCompiler.GenAssign | adder/compiler/co_compiler.c:373-398 | `codegen_assignment` never removes instructions |
| CoCompiler.GenForeach | adder/compiler/co_compiler.c:400-427 | `codegen_foreach` never removes instructions |
| CoCompiler.GenFunDecl | adder/compiler/co_compiler.c:330-357 | `codegen_fundecl` never removes instructions |
| CoCompiler.GenArms | adder/compiler/co_compiler.c:449-511 | the arm loop of `codegen_if_chain` never removes instructions |
| CoCompiler.PatchAll | adder/compiler/co_compiler.c:505-510 | the closing patch loop keeps the instruction count |
| CoCompiler.GenIf | adder/compiler/co_compiler.c:449-511 | `codegen_if_chain` never removes instructions |
| CoCompiler.RetargetFrom | adder/compiler/co_compiler.c:597-623 | retargeting yields one instruction per instruction |
| CoCompiler.InstBytes | adder/compiler/co_compiler.c:631-641 | one instruction's bytes are as many as its width: one opcode byte and four per operand |
| CoCompiler.Chunks | adder/compiler/co_compiler.c:631-641 | one byte string per instruction |
| CoCompilerFacts.GoodTrans | adder/compiler/co_compiler.c:513-595 | "only adds to the state" composes |
| CoCompilerFacts.EmitGood | adder/compiler/co_compiler.c:60-70 | appending an instruction whose target is at most one past the end only adds to the state |
| CoCompilerFacts.PatchFromGood | adder/compiler/co_compiler.c:449-511 | patching an instruction added after `s` keeps "only adds to `s`" |
| CoCompilerFacts.PatchKeeps | adder/compiler/co_compiler.c:72-75 | a patch changes the first operand of one instruction and nothing else |
| CoCompilerFacts.FuncAddrFrame | adder/compiler/co_compiler.c:136-148 | with the invariant, a registered function's address is the index of a `MAKE_FRAME` |
| CoCompilerFacts.PatchAllGood | adder/compiler/co_compiler.c:505-510 | patching exits at or after `n` keeps the first `n` instructions, the rest of the state and the invariant |
| CoCompilerFacts.PatchAllMeaning | adder/compiler/co_compiler.c:505-510 | after the closing loop every exit jump has operand `v` and every other instruction is unchanged |
| CoCompilerFacts.GenGood | adder/compiler/co_compiler.c:513-595 | generating code only adds to the state: earlier instructions are never patched and every function stays registered at its frame |
| CoCompilerFacts.UnopGood | adder/compiler/co_compiler.c:250-278 | a unary operation only adds to the state |
| CoCompilerFacts.ReturnGood | adder/compiler/co_compiler.c:547-553 | a return only adds to the state |
| CoCompilerFacts.CallGood | adder/compiler/co_compiler.c:359-371 | a call only adds to the state |
| CoCompilerFacts.ItemsGood | adder/compiler/co_compiler.c:527-559 | the item loops only add to the state |
| CoCompilerFacts.BinopGood | adder/compiler/co_compiler.c:153-248 | a binary operation only adds to the state |
| CoCompilerFacts.ValueGood | adder/compiler/co_compiler.c:280-327 | a value only adds to the state |
| CoCompilerFacts.ArrayGood | adder/compiler/co_compiler.c:527-546 | an array only adds to the state |
| CoCompilerFacts.AssignGood | adder/compiler/co_compiler.c:373-398 | an assignment only adds to the state |
| CoCompilerFacts.ForeachGood | adder/compiler/co_compiler.c:400-427 | a loop only adds to the state |
| CoCompilerFacts.FrameOpenedGood | adder/compiler/co_compiler.c:330-357 | opening a frame only adds to the state and appends `MAKE_FRAME` |
| CoCompilerFacts.FramePatchGood | adder/compiler/co_compiler.c:330-357 | filling in the frame a declaration opened keeps "only adds" |
| CoCompilerFacts.FunDeclGood | adder/compiler/co_compiler.c:330-357 | a function declaration only adds to the state |
| CoCompilerFacts.ArmHeadGood | adder/compiler/co_compiler.c:449-511 | one arm before the following arms only adds to the state |
| CoCompilerFacts.ArmsGood | adder/compiler/co_compiler.c:449-511 | the arms only add to the state and their exit jumps lie among the instructions they added, after the earlier exits |
| CoCompilerFacts.ArmExitsAreJumps | adder/compiler/co_compiler.c:449-511 | the exits the arms record are unpatched `JUMP` instructions |
| CoCompilerFacts.IfGood | adder/compiler/co_compiler.c:449-511 | an if chain only adds to the state |
| CoCompilerFacts.BinopLayout | adder/compiler/co_compiler.c:153-248 | a binary operation is the right operand's code, the left's, then the operator's opcode; `^` has none and records a compilation error |
| CoCompilerFacts.ForeachLayout | adder/compiler/co_compiler.c:400-427 | a loop is the collection's code, `MAKE_ITER`, `ITER_NEXT` exiting past the loop, the variable stored, the body and a jump back to `ITER_NEXT` |
| CoCompilerFacts.ForeachUnfold | adder/compiler/co_compiler.c:400-427 | the steps `codegen_foreach` takes when it compiles |
| CoCompilerFacts.ForeachIsGen | adder/compiler/co_compiler.c:563-565 | `codegen` of a loop is `codegen_foreach` |
| CoCompilerFacts.DeclGen | adder/compiler/co_compiler.c:583-586 | a variable declaration compiles to no code |
| CoCompilerFacts.ForeachSteps | adder/compiler/co_compiler.c:400-427 | the steps of `codegen_foreach` read off its definition |
| CoCompilerFacts.LoopClose | adder/compiler/co_compiler.c:420-426 | closing a loop appends the jump back and sets the head's exit to the end, keeping everything before |
| CoCompilerFacts.FunctionFromNone | adder/compiler/co_compiler.c:136-148 | a failed search from `i` means no later entry has the name |
| CoCompilerFacts.FunctionFromFirst | adder/compiler/co_compiler.c:136-148 | the search answers the first entry with the name |
| CoCompilerFacts.FunDeclLayout | adder/compiler/co_compiler.c:330-357 | a declaration compiles only outside any function and for a new name; its `MAKE_FRAME` holds the parameter count and the body's locals (32-bit), it is registered at that frame, and the locals are cleared |
| CoCompilerFacts.ArmLayout | adder/compiler/co_compiler.c:449-511 | an arm's `JUMP_IF_FALSE` jumps past its body and its exit jump, which exists exactly when another arm or a non-empty else follows |
| CoCompilerFacts.IfLayout | adder/compiler/co_compiler.c:449-511 | every exit jump of a chain jumps to the end of its code; every other instruction is as the arms left it |
| CoCompilerFacts.LoneIfJumpsToEnd | adder/compiler/co_compiler.c:449-511 | a lone `if` jumps to the index just past the chain |
| CoCompilerFacts.AddrPrefix | adder/compiler/co_compiler.c:601-605 | an address depends only on the instructions before it |
| CoCompilerFacts.AddrSameOps | adder/compiler/co_compiler.c:601-605 | addresses depend only on the opcodes |
| CoCompilerFacts.FlattenPrefix | adder/compiler/co_compiler.c:631-641 | the bytes of the first `j` instructions begin the program |
| CoCompilerFacts.FlattenAt | adder/compiler/co_compiler.c:631-641 | instruction `i`'s bytes stand right after those before it |
| CoCompilerFacts.AddrIsOffset | adder/compiler/co_compiler.c:597-641 | the address computed for instruction `i` is the number of bytes written before it |
| CoCompilerFacts.BytesLength | adder/compiler/co_compiler.c:597-641 | the program is as long as the address past its last instruction |
| CoCompilerFacts.BytesAt | adder/compiler/co_compiler.c:631-641 | each instruction is written at its address |
| CoCompilerFacts.ReadWord | adder/compiler/co_compiler.c:635-639 | four bytes written little-endian read back as the word |
| CoCompilerFacts.InstBytesParts | adder/compiler/co_compiler.c:631-641 | an instruction's bytes are its opcode then its operands, each as a little-endian word |
| CoCompilerFacts.DecodeAt | adder/compiler/co_compiler.c:631-641 | an instruction's bytes read back as the instruction |
| CoCompilerFacts.Decode | adder/compiler/co_compiler.c:625-659 | at the address of instruction `i` the written program holds its opcode followed by its operands |
| CoCompilerFacts.Retargeted | adder/compiler/co_compiler.c:608-621 | a retargeted instruction keeps its opcode and second operand |
| CoCompilerFacts.RetargetOk | adder/compiler/co_compiler.c:608-621 | retargeting succeeds exactly when every targeted operand indexes in range; otherwise it fails out of bounds |
| CoCompilerFacts.RetargetValues | adder/compiler/co_compiler.c:608-621 | a successful retargeting replaces each targeted operand by the address of the instruction it indexes and leaves everything else alone |
| CoCompilerFacts.RetargetFails | adder/compiler/co_compiler.c:608-621 | one operand out of range makes the whole retargeting fail |
| CoCompilerFacts.RetargetAll | adder/compiler/co_compiler.c:608-621 | instructions each of which is the retargeted original are the result |
| CoCompilerFacts.PatchedShape | adder/compiler/co_compiler.c:662-722 | the generated instructions start with `ENTRY_POINT` indexing a `MAKE_FRAME`, and every targeted operand is at most the instruction count |
| CoCompilerFacts.CorrectedNeverOutOfBounds | adder/compiler/co_compiler.c:597-722 | corrected, compiling fails only in the generator, never while retargeting |
| CoCompilerFacts.EndJumpAsWritten | adder/compiler/co_compiler.c:614-618 | as written, a jump indexing one past the last instruction (a lone `if` or a loop at the end) reads outside `idx2addr`; corrected it compiles |
| CoCompilerFacts.CompiledProgram | adder/compiler/co_compiler.c:662-722 | the written program starts with `ENTRY_POINT` whose operand is the address of `main`'s `MAKE_FRAME`, and the status stays OK |
| CoCompilerFacts.CompileViaPatched | adder/compiler/co_compiler.c:625-712 | `gvm_compile` succeeds exactly when retargeting does and writes the retargeted instructions |
| CoCompilerFacts.EntryAddress | adder/compiler/co_compiler.c:625-659 | the written entry point's operand is the address of the frame it indexed |
| CoCompilerFacts.RetargetOps | adder/compiler/co_compiler.c:608-621 | retargeting keeps the opcodes and retargets the entry point |
| CoCompilerFacts.EntryBytes | adder/compiler/co_compiler.c:631-641 | an entry point and a frame as written bytes |
| CoCompilerFacts.LoneIfMainRetarget | adder/compiler/co_compiler.c:614-618 | a `main` holding a lone `if` is refused as written and jumps to byte 24 corrected |
| CoCompilerImpl.Compiler.constructor | adder/compiler/co_compiler.c:662-698 | `gvm_compile` starts from empty maps, instructions and constants and the caller's result code |
| CoCompilerImpl.Compiler.Add | adder/compiler/co_compiler.c:60-70 | `irl_add` appends the instruction and answers its index |
| CoCompilerImpl.Compiler.SetTarget | adder/compiler/co_compiler.c:72-75 | writing through `irl_get` sets one instruction's first operand |
| CoCompilerImpl.Compiler.Codegen | adder/compiler/co_compiler.c:513-595 | `codegen` on the compiler object leaves exactly the state `Gen` gives, or crashes where it does |
| CoCompilerImpl.Compiler.CodegenItems | adder/compiler/co_compiler.c:527-559 | the item loops agree with `GenItems` |
| CoCompilerImpl.Compiler.CodegenBinop | adder/compiler/co_compiler.c:153-248 | `codegen_binop` agrees with `GenBinop` |
| CoCompilerImpl.Compiler.CodegenUnop | adder/compiler/co_compiler.c:250-278 | `codegen_unop` agrees with `GenUnop` |
| CoCompilerImpl.Compiler.CodegenValue | adder/compiler/co_compiler.c:280-327 | `codegen_value` agrees with `GenValue` |
| CoCompilerImpl.Compiler.CodegenArray | adder/compiler/co_compiler.c:527-546 | the array case agrees with `GenArray` |
| CoCompilerImpl.Compiler.CodegenAssign | adder/compiler/co_compiler.c:373-398 | `codegen_assignment` agrees with `GenAssign` |
| CoCompilerImpl.Compiler.CodegenForeach | adder/compiler/co_compiler.c:400-427 | `codegen_foreach` agrees with `GenForeach` |
| CoCompilerImpl.Compiler.CodegenFunDecl | adder/compiler/co_compiler.c:330-357 | `codegen_fundecl` agrees with `GenFunDecl` |
| CoCompilerImpl.Compiler.CodegenIfChain | adder/compiler/co_compiler.c:449-511 | `codegen_if_chain`, with its arm loop and closing patch loop, agrees with `GenIf` |
| CoCompilerImpl.Compiler.CodegenArm | adder/compiler/co_compiler.c:460-501 | one round of the arm loop: a crash in the condition or the arm is the crash `GenArms` gives; otherwise what remains of `GenArms` is the same from the next arm, or the optional else block, with the exits gathered so far |
| CoCompilerImpl.Compiler.PatchExits | adder/compiler/co_compiler.c:508-510 | the closing loop sets every recorded exit jump to the end of the chain, exactly as `PatchAll` does |
| CoCompilerImpl.Compiler.Recalc | adder/compiler/co_compiler.c:597-623 | the in-place rewrite leaves exactly `RetargetFrom`'s instructions, or reports its out-of-bounds read, and changes nothing else |
| CoCompilerImpl.Compiler.WriteWord | adder/compiler/co_compiler.c:635-639 | one operand is appended as its four little-endian bytes |
| CoCompilerImpl.Compiler.WriteInst | adder/compiler/co_compiler.c:631-641 | one turn of the write loop appends exactly the instruction's bytes |
| CoCompilerImpl.Compiler.WriteProgram | adder/compiler/co_compiler.c:625-659 | `write_program` answers the bytes of the instructions with the constants |
| CoCompilerImpl.AddressTable | adder/compiler/co_compiler.c:599-606 | the address table holds the address of each instruction (as written one entry each; corrected one more, the end of the code) |
| CoCompilerImpl.GvmCompile | adder/compiler/co_compiler.c:662-722 | `gvm_compile` on a fresh state answers `Compile` |
| CoCres.TakeConcat | adder/compiler/co_cres.h:11-19 | a prefix of a concatenation: a long enough first part ignores what follows, a short one takes the rest from it |
| CoCres.Cres.constructor | adder/compiler/co_cres.h:152-159 | a zero-initialised result: no error, empty message, no location |
| CoCres.Cres.MsgAdd | adder/compiler/co_cres.h:11-19 | `cres_msg_add` copies as many of the first `slen` characters as there is room for, answers how many, appends exactly those to the message and leaves the code and location |
| CoCres.Cres.MsgAddTokenTypeName | adder/compiler/co_cres.h:23-65 | `cres_msg_add_token_type_name` appends the token kind's name |
| CoCres.Cres.MsgAddSrcRef | adder/compiler/co_cres.h:76-80 | `cres_msg_add_srcref` appends the referenced characters; a reference without a source is a NULL dereference exactly when there are characters and room |
| CoCres.Cres.MsgAddToken | adder/compiler/co_cres.h:67-74 | `cres_msg_add_token` appends the type name, then the referenced text between ` ('` and `')` |
| CoCres.Cres.SetError | adder/compiler/co_cres.h:161-171 | `cres_set_error` accepts exactly when no error is set, and then sets the code; otherwise nothing changes |
| CoCres.Cres.SetSrcLocation | adder/compiler/co_cres.h:173-175 | `cres_set_src_location` sets the location and nothing else |
| CoCres.OkAndErrorComplement | adder/compiler/co_cres.h:152-159 | exactly one of `cres_is_ok` and `cres_has_error` holds |
| CoCres.TokenTypeName | adder/compiler/co_cres.h:23-65 | every token kind has a non-empty name |
| CoCres.Before | adder/compiler/co_cres.h:97 | the characters read before index `k` are `k` characters |
| CoCres.NewlineCountMeaning | adder/compiler/co_cres.h:97-104 | the line count is the number of newlines before the start |
| CoCres.ColumnMeaning | adder/compiler/co_cres.h:97-104 | without a newline the column is the length; otherwise it counts from just after the last newline |
| CoCres.LineColumn | adder/compiler/co_cres.h:94-107 | the reported line and column are at least 1 |
| CoCres.LineColumnStep | adder/compiler/co_cres.h:97-104 | a newline moves to the next line and column 1; any other character to the next column |
| CoCres.FprintLocation | adder/compiler/co_cres.h:82-119 | `cres_fprint_location` prints `path:line:column: ` (or `<unknown file>`) after swapping a reversed reference, answers its length, and prints nothing exactly when the reference has no source |
| CoParser.Raise | adder/compiler/co_parser.c:108-124 | recording an error keeps the cursor; with no error yet it records the code and location, otherwise nothing changes: only the first error is kept |
| CoParser.Peek | adder/compiler/co_parser.c:99-105 | `pa_peek_token` answers the token `lookahead` after the cursor when there is one; near the end, as written, it reads one past the last token, and corrected it answers the last token |
| CoParser.ConsumeAt | adder/compiler/co_parser.c:126-142 | `pa_consume` steps over the token exactly when no error is recorded and the current token has the expected type; at the end it answers out of tokens; a token of another type records `R_ERR_TOKEN` at it without moving |
| CoParser.ValueTypeOf | adder/compiler/co_parser.c:425-434 | `pa_value_type`: `num` exactly gives number, `bol` bool and `str` string, and every other name exactly none |
| CoParser.NumberAt | adder/compiler/co_parser.c:147-159 | `pa_parse_number` yields a number node over the token and steps one token exactly when no error is recorded and the token is a number; it never answers nothing |
| CoParser.BooleanAt | adder/compiler/co_parser.c:161-173 | `pa_parse_boolean` yields the truth of a boolean token whose text is `true` or `false`, and only then; it never answers nothing |
| CoParser.StringAt | adder/compiler/co_parser.c:175-182 | `pa_parse_string` yields a string node over the token exactly when it is a string token |
| CoParser.ValueAt | adder/compiler/co_parser.c:184-194 | `pa_try_parse_value` answers nothing exactly when the token is no boolean, number or string |
| CoParser.VarNameAt | adder/compiler/co_parser.c:196-202 | `pa_try_parse_var_name`: a symbol becomes a variable reference one token on; any other token gives nothing and stays |
| CoParser.GroupAt | adder/compiler/co_parser.c:204-220 | `pa_try_parse_group` answers nothing exactly when the token is not `(` |
| CoParser.FuncCallAt | adder/compiler/co_parser.c:222-261 | a parsed call is a call node whose arguments are a block |
| CoParser.ClosedListAt | adder/compiler/co_parser.c:222-296 | the shared tail after an opening bracket yields a block |
| CoParser.ExpressionListAt | adder/compiler/co_parser.c:222-296 | the comma-separated expression loop yields a block longer than the items before it, or a build error or abort |
| CoParser.ArrayAt | adder/compiler/co_parser.c:263-296 | `pa_try_parse_array_def` answers nothing exactly when the token is not `[`, and a parsed result is an array node |
| CoParser.UnaryAt | adder/compiler/co_parser.c:298-307 | `pa_try_parse_unary_operation` answers nothing exactly when the token is not the operator |
| CoParser.BinaryAt | adder/compiler/co_parser.c:310-321 | `pa_try_parse_binary_operation` answers nothing exactly when the token is not the operator; at the end it aborts; a parsed result is that operator with `lhs` on the left |
| CoParser.OperatorAt | adder/compiler/co_parser.c:366-417 | the operator tries never answer out of tokens, and at the end of the tokens they abort |
| CoParser.BinaryOrderPairs | adder/compiler/co_parser.c:368-406 | each of the thirteen tries pairs an operator token with the operator `BinopOf` gives it |
| CoParser.BinaryOrderDistinct | adder/compiler/co_parser.c:368-406 | the thirteen tries use pairwise different token types |
| CoParser.BinaryOrderCovers | adder/compiler/co_parser.c:368-406 | every operator token is tried |
| CoParser.OperatorFinds | adder/compiler/co_parser.c:366-417 | the tries from `i` on give nothing when none has the token's type, and otherwise the first that has it |
| CoParser.OperatorDispatch | adder/compiler/co_parser.c:366-417 | the operator half parses the one operator the current token stands for, or gives nothing |
| CoParser.PrimaryAt | adder/compiler/co_parser.c:324-365 | the primary half of `pa_parse_expression` never consumes on nothing and keeps a recorded error |
| CoParser.ExpressionAt | adder/compiler/co_parser.c:324-419 | `pa_parse_expression` yields a node, a build error or an abort, never nothing or out of tokens |
| CoParser.VardeclAt | adder/compiler/co_parser.c:436-452 | `pa_parse_vardecl` yields a declaration two tokens on, or a build error or abort |
| CoParser.AssignmentAt | adder/compiler/co_parser.c:454-488 | a parsed assignment is an assignment node; out of tokens only at the end |
| CoParser.BreakAt | adder/compiler/co_parser.c:607-611 | `pa_try_parse_body_break`: `break` becomes a break node one token on; any other token gives nothing |
| CoParser.ReturnAt | adder/compiler/co_parser.c:613-624 | `pa_try_parse_body_return` answers nothing exactly when the token is not `return`, and a parsed result is a return node |
| CoParser.IfChainAt | adder/compiler/co_parser.c:520-562 | `pa_try_parse_if_chain` answers nothing exactly when the token is not `if`; a parsed chain has a block body and a block or chain after it |
| CoParser.IfBodyAt | adder/compiler/co_parser.c:520-562 | after the condition, a parsed chain keeps that condition, has a block body and a block or chain after it |
| CoParser.ElseAt | adder/compiler/co_parser.c:540-560 | after the first body, no `else` gives the chain with an empty block and stays; otherwise a chain with the same condition and body |
| CoParser.ForAt | adder/compiler/co_parser.c:564-605 | `pa_try_parse_for_stmt` answers nothing exactly when the token is not `for`; a parsed loop has a declaration and a block body |
| CoParser.ForTailAt | adder/compiler/co_parser.c:564-605 | after the declaration, a parsed loop keeps it and has a block body |
| CoParser.ForBodyAt | adder/compiler/co_parser.c:564-605 | after the collection, a parsed loop keeps the declaration and has a block body |
| CoParser.StatementAt | adder/compiler/co_parser.c:626-664 | `pa_parse_statement` yields a node, a build error or an abort, never nothing |
| CoParser.StatementsAt | adder/compiler/co_parser.c:490-518 | the statement loop keeps the cursor moving forward and yields a block; started at the end it aborts |
| CoParser.BodyAt | adder/compiler/co_parser.c:490-518 | `pa_parse_body` yields a block, a build error or an abort |
| CoParser.FunsignAt | adder/compiler/co_parser.c:666-679 | `pa_parse_funsign` yields the signature of the second token's name and the first token's type, two tokens on |
| CoParser.ParametersAt | adder/compiler/co_parser.c:681-725 | the parameter loop yields a block, a build error or an abort |
| CoParser.FundeclAt | adder/compiler/co_parser.c:681-725 | a parsed declaration is a function declaration node |
| CoParser.DeclarationsAt | adder/compiler/co_parser.c:727-758 | the declaration loop moves forward, keeps an earlier error, collects only function declarations and, when it ends on a node, ends at the last token |
| CoParser.ProgramAt | adder/compiler/co_parser.c:727-758 | `pa_parse_program` yields a block of function declarations, a build error or an abort |
| CoParser.ExpressionAtLastAsWritten | adder/compiler/co_parser.c:222-261 | as written, an expression starting on the last token that is not a group aborts on the call look-ahead |
| CoParser.ExpressionAtLastCorrected | adder/compiler/co_parser.c:99-105 | corrected, the same expression on `TT_FINAL` records `R_ERR_EXPR` at that token |
| CoParser.StatementAtLastAsWritten | adder/compiler/co_parser.c:454-488 | as written, any statement starting on the last token aborts on the assignment look-ahead |
| CoParser.StatementAtLastCorrected | adder/compiler/co_parser.c:626-664 | corrected, a statement expected on `TT_FINAL` records `R_ERR_STATEMENT` at that token |
| CoParser.UnclosedBody | adder/compiler/co_parser.c:490-518 | a body missing its `}` aborts as written and records `R_ERR_STATEMENT` at the final token corrected |
| CoParser.PrimaryOfSymbol | adder/compiler/co_parser.c:324-365 | a symbol not followed by `(` is a variable reference one token on |
| CoParser.PrimaryOfCall | adder/compiler/co_parser.c:324-365 | a symbol followed by `(` is always read as a call |
| CoParser.ExpressionError | adder/compiler/co_parser.c:357-362 | a token that starts no primary expression records `R_ERR_EXPR` at itself |
| CoParser.BinaryNestsRight | adder/compiler/co_parser.c:366-417 | operators have no precedence and nest to the right: the operator takes the primary and the whole expression after it |
| CoParser.ExpressionEndsAtNonOperator | adder/compiler/co_parser.c:414-417 | a primary with no operator after it is the whole expression |
| CoParser.SymbolThenOperator | adder/compiler/co_parser.c:324-419 | a variable and an operator: the operator applied to the variable and the expression after it |
| CoParser.SymbolThenFinal | adder/compiler/co_parser.c:324-419 | a variable followed by `TT_FINAL` is the whole expression |
| CoParser.ChainNestsRight | adder/compiler/co_parser.c:324-419 | three symbols joined by two operators nest to the right |
| CoParser.MulPlusNestsRight | adder/compiler/co_parser.c:368-406 | `a*b+c` is read as `a*(b+c)` |
| CoParser.MinusMinusNestsRight | adder/compiler/co_parser.c:368-406 | `a-b-c` is read as `a-(b-c)` |
| CoParser.EmptyProgram | adder/compiler/co_parser.c:727-758 | `TT_INITIAL TT_FINAL` is the empty block |
| CoParser.Parser.constructor | adder/compiler/co_parser.c:16-47 | `pa_init` leaves the cursor on the first token and the result record as it was |
| CoParser.Parser.IsAtEnd | adder/compiler/co_parser.c:56-58 | `pa_is_at_end` holds exactly when the cursor is past the last token |
| CoParser.Parser.Advance | adder/compiler/co_parser.c:60-79 | `pa_advance` moves one token on exactly when not at the end |
| CoParser.Parser.CurrentToken | adder/compiler/co_parser.c:95-97 | `pa_current_token` answers the token at the cursor; past the last one the read is out of bounds |
| CoParser.Parser.AdvanceIf | adder/compiler/co_parser.c:81-86 | `pa_advance_if` moves one token on exactly when the current token has the type, and answers whether it did; at the end the read is out of bounds |
| CoParser.Parser.AdvanceIfNot | adder/compiler/co_parser.c:88-93 | `pa_advance_if_not` moves one token on exactly when the current token lacks the type; at the end the read is out of bounds |
| CoParser.Parser.PeekToken | adder/compiler/co_parser.c:99-105 | `pa_peek_token` answers what `Peek` gives |
| CoParser.Parser.SetErrorAt | adder/compiler/co_parser.c:108-124 | recording an error leaves the state `Raise` gives |
| CoParser.Parser.SetErrorUnexpectedTokenType | adder/compiler/co_parser.c:108-116 | records `R_ERR_TOKEN` at the token found, as `Raise` gives |
| CoParser.Parser.SetErrorInvalidTokenFormat | adder/compiler/co_parser.c:118-124 | records `R_ERR_TOKEN` at the token, as `Raise` gives |
| CoParser.Parser.Consume | adder/compiler/co_parser.c:126-142 | the method on the token list and result record answers and leaves exactly what `ConsumeAt` gives |
| CoParser.Parser.ParseNumber | adder/compiler/co_parser.c:147-159 | the method on the token list and result record answers and leaves exactly what `NumberAt` gives |
| CoParser.Parser.ParseBoolean | adder/compiler/co_parser.c:161-173 | the method on the token list and result record answers and leaves exactly what `BooleanAt` gives |
| CoParser.Parser.ParseString | adder/compiler/co_parser.c:175-182 | the method on the token list and result record answers and leaves exactly what `StringAt` gives |
| CoParser.Parser.TryParseValue | adder/compiler/co_parser.c:184-194 | the method on the token list and result record answers and leaves exactly what `ValueAt` gives |
| CoParser.Parser.TryParseVarName | adder/compiler/co_parser.c:196-202 | the method on the token list and result record answers and leaves exactly what `VarNameAt` gives |
| CoParser.Parser.TryParseGroup | adder/compiler/co_parser.c:204-220 | the method on the token list and result record answers and leaves exactly what `GroupAt` gives |
| CoParser.Parser.TryParseFuncCall | adder/compiler/co_parser.c:222-261 | the method on the token list and result record answers and leaves exactly what `FuncCallAt` gives |
| CoParser.Parser.ParseClosedList | adder/compiler/co_parser.c:222-296 | the method on the token list and result record answers and leaves exactly what `ClosedListAt` gives |
| CoParser.Parser.ParseExpressionList | adder/compiler/co_parser.c:222-296 | the method on the token list and result record answers and leaves exactly what `ExpressionListAt` gives |
| CoParser.Parser.TryParseArrayDef | adder/compiler/co_parser.c:263-296 | the method on the token list and result record answers and leaves exactly what `ArrayAt` gives |
| CoParser.Parser.TryParseUnaryOperation | adder/compiler/co_parser.c:298-307 | the method on the token list and result record answers and leaves exactly what `UnaryAt` gives |
| CoParser.Parser.TryParseBinaryOperation | adder/compiler/co_parser.c:310-321 | the method on the token list and result record answers and leaves exactly what `BinaryAt` gives |
| CoParser.Parser.ParsePrimary | adder/compiler/co_parser.c:324-365 | the method on the token list and result record answers and leaves exactly what `PrimaryAt` gives |
| CoParser.Parser.ParseBinaryOperators | adder/compiler/co_parser.c:366-417 | the method on the token list and result record answers and leaves exactly what `OperatorAt` gives |
| CoParser.Parser.ParseExpression | adder/compiler/co_parser.c:324-419 | the method on the token list and result record answers and leaves exactly what `ExpressionAt` gives |
| CoParser.Parser.ParseVardecl | adder/compiler/co_parser.c:436-452 | the method on the token list and result record answers and leaves exactly what `VardeclAt` gives |
| CoParser.Parser.TryParseAssignment | adder/compiler/co_parser.c:454-488 | the method on the token list and result record answers and leaves exactly what `AssignmentAt` gives |
| CoParser.Parser.TryParseIfChain | adder/compiler/co_parser.c:520-562 | the method on the token list and result record answers and leaves exactly what `IfChainAt` gives |
| CoParser.Parser.ParseIfBody | adder/compiler/co_parser.c:520-562 | the method on the token list and result record answers and leaves exactly what `IfBodyAt` gives |
| CoParser.Parser.ParseElse | adder/compiler/co_parser.c:540-560 | the method on the token list and result record answers and leaves exactly what `ElseAt` gives |
| CoParser.Parser.TryParseForStmt | adder/compiler/co_parser.c:564-605 | the method on the token list and result record answers and leaves exactly what `ForAt` gives |
| CoParser.Parser.ParseForTail | adder/compiler/co_parser.c:564-605 | the method on the token list and result record answers and leaves exactly what `ForTailAt` gives |
| CoParser.Parser.ParseForBody | adder/compiler/co_parser.c:564-605 | the method on the token list and result record answers and leaves exactly what `ForBodyAt` gives |
| CoParser.Parser.TryParseBodyBreak | adder/compiler/co_parser.c:607-611 | the method on the token list and result record answers and leaves exactly what `BreakAt` gives |
| CoParser.Parser.TryParseBodyReturn | adder/compiler/co_parser.c:613-624 | the method on the token list and result record answers and leaves exactly what `ReturnAt` gives |
| CoParser.Parser.ParseStatement | adder/compiler/co_parser.c:626-664 | the method on the token list and result record answers and leaves exactly what `StatementAt` gives |
| CoParser.Parser.ParseBody | adder/compiler/co_parser.c:490-518 | the method on the token list and result record answers and leaves exactly what `BodyAt` gives |
| CoParser.Parser.ParseStatements | adder/compiler/co_parser.c:490-518 | the method on the token list and result record answers and leaves exactly what `StatementsAt` gives |
| CoParser.Parser.ParseFunsign | adder/compiler/co_parser.c:666-679 | the method on the token list and result record answers and leaves exactly what `FunsignAt` gives |
| CoParser.Parser.TryParseFundecl | adder/compiler/co_parser.c:681-725 | the method on the token list and result record answers and leaves exactly what `FundeclAt` gives |
| CoParser.Parser.ParseParameters | adder/compiler/co_parser.c:681-725 | the method on the token list and result record answers and leaves exactly what `ParametersAt` gives |
| CoParser.Parser.ParseProgram | adder/compiler/co_parser.c:727-758 | the method on the token list and result record answers and leaves exactly what `ProgramAt` gives |
| CoParser.Init | adder/compiler/co_parser.c:16-47 | `pa_init` answers the tokenizer's abort, or whether the result is still OK with a valid parser on the first token |
| CoTrace.MsgAppend | adder/compiler/co_trace.h:74-84 | `trace_msg_append` does nothing for a NULL message; otherwise it appends as many of the first `slen` characters as there is room for and answers how many |
| CoTrace.MsgAppendSrcRef | adder/compiler/co_trace.h:154-158 | `trace_msg_append_srcref` appends the referenced characters; a reference without a source is a NULL dereference exactly when there are characters and room |
| CoTrace.TokenTypeName | adder/compiler/co_trace.h:102-146 | every token kind has a non-empty name |
| CoTrace.TokenTypeNamesAgree | adder/compiler/co_trace.h:102-146 | the trace's names agree with the compilation result's except on the import and export keywords, which the result calls `unknown` |
| CoTrace.MsgAppendTokenTypeName | adder/compiler/co_trace.h:102-146 | `trace_msg_append_token_type_name` appends the kind's name to a non-NULL message |
| CoTrace.ErrorsIn | adder/compiler/co_trace.h:273-275 | the number of error messages is at most the number of messages |
| CoTrace.Trace.constructor | adder/compiler/co_trace.h:15-25 | `trace_init`: no messages, no errors, the given capacity and no source path |
| CoTrace.Trace.Destroy | adder/compiler/co_trace.h:27-32 | `trace_destroy` zeroes the trace |
| CoTrace.Trace.SetCurrentSourcePath | adder/compiler/co_trace.h:34-36 | `trace_set_current_source_path` sets the path and nothing else |
| CoTrace.Trace.CreateMessage | adder/compiler/co_trace.h:42-59 | `trace_create_message` appends a fresh empty message of the kind, the current path and the location, counting it when it is an error; it fails exactly when there is no message yet and the capacity is at most one, where the doubled block is empty |
| CoTrace.Trace.Resize | adder/compiler/co_trace.h:46-51 | the `realloc` keeps the messages in a block of the new capacity |
| CoTrace.Trace.Push | adder/compiler/co_trace.h:52-57 | the message goes into the next slot and is counted when it is an error |
| CoTrace.Trace.OutOfMemoryError | adder/compiler/co_trace.h:61-70 | with room for one more, an out-of-memory message is appended; otherwise the slot after the last message is retyped as out-of-memory and counted as an error though it is not listed; with no slot left the write is out of bounds |
| CoTrace.Trace.NotImplemented | adder/compiler/co_trace.h:148-152 | `trace_not_implemented` appends an internal error whose text is at most 227 characters of the location followed by ` --- NOT IMPLEMENTED (YET).` |
| CoTrace.Trace.Clear | adder/compiler/co_trace.h:281-285 | `trace_clear` leaves no messages and no errors and keeps the block |
| CoTrace.AppendNotImplemented | adder/compiler/co_trace.h:148-152 | the text `trace_not_implemented` appends: at most 227 characters of the location and the suffix |
| CoTrace.ErrorCountCountsErrors | adder/compiler/co_trace.h:273-275 | while no report went unlisted, `trace_get_error_count` is the number of error messages, at most the message count |
| CoTrace.FprintLocation | adder/compiler/co_trace.h:198-235 | `trace_fprint_location` prints the same text as `cres_fprint_location`, and nothing exactly when the reference has no source |
| CoTypecheck.KindCheckMeaning | adder/compiler/co_typecheck.h:67-121 | `kind_check` holds exactly when the two kinds have the same shape once their references are dropped |
| CoTypecheck.KindCheckTags | adder/compiler/co_typecheck.h:67-78 | different tags never check, and two scalars with the same tag always do |
| CoTypecheck.KindCheckEquivalence | adder/compiler/co_typecheck.h:67-121 | `kind_check` is reflexive, symmetric and transitive |
| CoTypecheck.AllCheckPairwise | adder/compiler/co_typecheck.h:79-121 | a tuple or function checks against another of the same count exactly when the parts check pairwise |
| CoTypes.TraceOrdinal | adder/compiler/co_types.h:144-151 | a message kind's enumerator is below six |
| CoTypes.ErrorKinds | adder/compiler/co_trace.h:53-54 | exactly errors, out-of-memory reports and internal errors are counted as errors (`type >= TM_ERROR`) |
| CoAst.Ordinal | adder/compiler/co_types.h:86-92 | a value type's enumerator is below five |
| CoTyping.UnopName | adder/compiler/co_typing.c:7-16 | `unop_name`: every unary operator has a non-empty name without a colon |
| CoTyping.BinopName | adder/compiler/co_typing.c:18-39 | `binop_name`: every binary operator has a non-empty name without a colon |
| CoTyping.BinopNameInjective | adder/compiler/co_typing.c:18-39 | distinct binary operators have distinct names, so the signatures built from them never collide |
| CoTyping.ValueSignature | adder/compiler/co_typing.c:41-53 | `value_signature`: one letter per value kind, which maps to itself in a context |
| CoTyping.ValueSignatureInjective | adder/compiler/co_typing.c:41-53 | distinct value kinds sign with distinct letters |
| CoTyping.AnnotationSignature | adder/compiler/co_typing.c:55-80 | `annotation_signature`: every signature it gives stands for itself, so `ctx_insert` never binds one as a key |
| CoTyping.SignatureRoundTrip | adder/compiler/co_typing.c:55-80 | reading a signature back as an annotation and signing that gives the signature again |
| CoTyping.AnnotationSignaturesRead | adder/compiler/co_typing.c:55-80 | every signature an annotation has can be read back as an annotation |
| CoTyping.SignatureNamingAgrees | adder/compiler/co_typing.c:93-159 | on a tree without declarations, `make_signature` and `infer` give the same signature |
| CoTyping.ArraySignatureUniform | adder/compiler/co_typing.c:104-118 | an array whose elements all have signature `s` has signature `[s]` |
| CoTyping.ArraySignatureMixed | adder/compiler/co_typing.c:104-118 | an empty array, or one with two elements of different signatures, has signature `[*]` |
| CoTyping.MakeSignature | adder/compiler/co_typing.c:93-159 | `make_signature` gives the signature of the tree, declarations written with their names |
| CoTyping.MakeArraySignature | adder/compiler/co_typing.c:104-118 | the array loop of `make_signature` gives the array's signature though it stops at the first element that differs |
| CoTyping.MakeBlockSignature | adder/compiler/co_typing.c:119-126 | the block loop of `make_signature` gives the statements' signatures one after the other |
| CoTyping.CtxInsert | adder/compiler/co_typing.c:230-249 | `ctx_insert`: an assertion failure for a key that stands for itself; otherwise success exactly when the key is new, and then the pair is inserted in key order with every old pair kept; a bound key leaves the context unchanged |
| CoTyping.FoundExact | adder/compiler/co_typing.c:251-257 | `ctx_lookup` on a sorted context finds a value exactly when the key is bound, and that value is the key's pair |
| CoTyping.ChainEndAnswers | adder/compiler/co_typing.c:259-268 | where `ctx_infer` stops is a key with no entry or a key mapped to itself |
| CoTyping.ChainEndStable | adder/compiler/co_typing.c:259-268 | once the chain has ended, more rounds do not change where |
| CoTyping.ChainEndWalk | adder/compiler/co_typing.c:259-268 | the chain has not ended after `fuel` rounds exactly when every key walked through has an entry |
| CoTyping.WalkShift | adder/compiler/co_typing.c:259-268 | walking `i` and then `m` rounds is walking `i + m` rounds |
| CoTyping.WalkOfStop | adder/compiler/co_typing.c:259-268 | from a key with no entry the walk stays where it is |
| CoTyping.CycleContinues | adder/compiler/co_typing.c:259-268 | a walk that comes back to a key it visited goes on for ever |
| CoTyping.Divergence | adder/compiler/co_typing.c:259-268 | with no end after one round more than there are pairs, the walk never ends, so the C loop does not terminate |
| CoTyping.CtxInfer | adder/compiler/co_typing.c:259-268 | `ctx_infer` answers exactly when the chain ends within one round more than there are pairs, and then with its end; otherwise the C loop runs for ever |
| CoTyping.ChainShortCases | adder/compiler/co_typing.c:259-268 | a key with no entry resolves to itself, and one bound to a different unbound key resolves to that key |
| CoTyping.RefStack.constructor | adder/compiler/co_typing.c:437-445 | the initial state of `check`: top 0 and every slot the empty reference |
| CoTyping.RefStack.GetRef | adder/compiler/co_typing.c:297-304 | `state_get_ref`: no reference below the bottom, the top slot inside the array, the last slot above it |
| CoTyping.RefStack.PushRef | adder/compiler/co_typing.c:306-311 | `state_push_ref` raises the top; the slot is written only inside the array, and a top still negative is an out-of-bounds write |
| CoTyping.RefStack.PopRef | adder/compiler/co_typing.c:313-315 | `state_pop_ref` lowers the top by one |
| CoTyping.Typing.Infer | adder/compiler/co_typing.c:318-435 | `infer` gives the signature of the term, declarations contributing nothing and binding their names instead; the context only grows; its one failure is a declaration without an annotation; a tree without declarations leaves the context as it was |
| CoTyping.Typing.InferUnder | adder/compiler/co_typing.c:375-425 | the single-sub-term cases prefix the sub-term's signature and keep every `infer` guarantee |
| CoTyping.Typing.InferBinop | adder/compiler/co_typing.c:398-404 | the binary operator case: the operator name, then the left and right signatures, with every `infer` guarantee |
| CoTyping.Typing.InferVarDecl | adder/compiler/co_typing.c:328-342 | a declaration answers the empty signature; a missing annotation is a NULL dereference; an invalid one reports a message; a valid one binds `$name` to the annotation's signature unless it is bound already |
| CoTyping.Typing.InferArray | adder/compiler/co_typing.c:343-361 | the array loop gives the array's signature and reports an empty array as mixed |
| CoTyping.Typing.InferBlock | adder/compiler/co_typing.c:362-374 | the block loop gives the statements' signatures one after the other |
| CoTyping.Check | adder/compiler/co_typing.c:437-445 | `check` fails only on a declaration without an annotation |
| CoUtils.LowByteValue | adder/compiler/co_utils.c:47-58 | the `(uint8_t)` cast of an argument is its remainder by 256 |
| CoUtils.U8Buffer.constructor | adder/compiler/co_utils.c:12-20 | `u8buffer_create`: an empty buffer with the given capacity |
| CoUtils.U8Buffer.Clear | adder/compiler/co_utils.c:22-24 | `u8buffer_clear` forgets the bytes and keeps the block and its capacity |
| CoUtils.U8Buffer.EnsureCapacity | adder/compiler/co_utils.c:26-37 | `u8buffer_ensure_capacity` keeps the bytes; when size plus `additional` reaches the capacity, the block grows to twice that sum, else it is untouched; afterwards there is room for `additional` more |
| CoUtils.U8Buffer.Write | adder/compiler/co_utils.c:39-45 | `u8buffer_write` appends the byte and keeps the size below the capacity |
| CoUtils.U8Buffer.WriteMultiple | adder/compiler/co_utils.c:47-58 | `u8buffer_write_multiple` appends the low byte of each argument, in order |
| CoUtils.U8Buffer.Destroy | adder/compiler/co_utils.c:60-70 | `u8buffer_destroy` leaves an empty buffer of capacity zero |
| CoUtils.ValBuffer.constructor | adder/compiler/co_utils.c:72-81 | `valbuffer_create`: an empty buffer with the given capacity |
| CoUtils.ValBuffer.Clear | adder/compiler/co_utils.c:83-85 | `valbuffer_clear` forgets the values and keeps the block and its capacity |
| CoUtils.ValBuffer.Append | adder/compiler/co_utils.c:87-100 | `valbuffer_append` appends the value, doubling a full block; it fails exactly when the buffer is empty with capacity zero, where doubling gives no room and the write lands outside the block |
| CoUtils.ValBuffer.Destroy | adder/compiler/co_utils.c:102-112 | `valbuffer_destroy` leaves an empty buffer of capacity zero |
| CoUtils.ValBuffer.LinearSearch | adder/compiler/co_utils.c:114-122 | `valbuffer_linear_search` finds the value exactly when it is held, and then at its first index |
| CoUtils.ValBuffer.Insert | adder/compiler/co_utils.c:124-142 | `valbuffer_insert`: an equal value already held gives its first index and changes nothing; otherwise the value is appended at the old size; a buffer without duplicates keeps none |
| CoUtils.ValBuffer.InsertChar | adder/compiler/co_utils.c:152-154 | `valbuffer_insert_char` answers an index holding the character value, adding it at most once |
| CoUtils.ValBuffer.InsertBool | adder/compiler/co_utils.c:156-158 | `valbuffer_insert_bool` answers an index holding the boolean value, adding it at most once |
| CoUtils.ValBuffer.AppendArray | adder/compiler/co_utils.c:160-187 | `valbuffer_append_array` appends the values, then an array value addressing them from the old size on, and answers the index of that array value |
| CoUtils.CountUntil | adder/compiler/co_utils.c:189-197 | the count of characters before the first stop character: none of them is it, and the character after them is |
| CoUtils.StringCountUntil | adder/compiler/co_utils.c:189-197 | `string_count_until` counts the characters of the C string up to the stop character |
| CoUtils.UnescapeLength | adder/compiler/co_utils.c:199-246 | un-escaping never lengthens a text, and shortens it exactly when the text holds an escape |
| CoUtils.UnescapeLoop | adder/compiler/co_utils.c:214-243 | the un-escape loop over the first `len` characters gives the un-escaped text |
| CoUtils.UnescapeAt | adder/compiler/co_utils.c:214-243 | one step of the loop: a backslash before an escape letter becomes the escaped character, anything else is copied |
| CoUtils.SequenceFromQuotedStringAsWritten | adder/compiler/co_utils.c:199-246 | `valbuffer_sequence_from_qouted_string` as written writes the un-escaped body as character values but answers the length of the body before un-escaping |
| CoUtils.SequenceFromQuotedString | adder/compiler/co_utils.c:199-246 | the corrected routine answers the number of values it wrote, at most the body's length and the capacity |
| CoUtils.QuotedLengthExceedsWritten | adder/compiler/co_utils.c:199-246 | as written, a body holding an escape reports more values than were written; `"a\nb"` writes three and reports four |
| CoUtils.MkSrcRef | adder/compiler/co_utils.c:254-260 | `srcref`: a reference into the text from `start` of length `len` |
| CoUtils.SrcRefConst | adder/compiler/co_utils.c:262-268 | `srcref_const` refers to the whole C string |
| CoUtils.Chars | adder/compiler/co_utils.c:285-290 | a reference spans as many characters as `srcref_len` says |
| CoUtils.CharsSlice | adder/compiler/co_utils.c:254-260 | a reference inside its text is exactly the slice between its bounds |
| CoUtils.Ptr | adder/compiler/co_utils.c:292-296 | `srcref_ptr` is non-NULL exactly for a valid reference, and then points at its first character |
| CoUtils.CombineCovers | adder/compiler/co_utils.c:270-283 | `srcref_combine` of references into different sources is the empty reference; for one source it covers both, starts at one start and ends at one end, and does not depend on the order |
| CoUtils.EqualsMeaning | adder/compiler/co_utils.c:310-330 | `srcref_equals` and `srcref_equals_string` hold exactly when both references are valid and their characters are equal |
| CoUtils.ContainsChar | adder/compiler/co_utils.c:332-342 | `srcref_contains_char` holds exactly when the reference is valid and holds the character |
| CoUtils.NumberValue | adder/compiler/co_utils.c:344-355 | `srcref_as_float` reads a number literal as a non-negative decimal value |
| CoUtils.NumberValueOfDigits | adder/compiler/co_utils.c:344-355 | a run of digits reads as its decimal value |
| CoUtils.NumberValueZeroFraction | adder/compiler/co_utils.c:344-355 | zeros after the dot do not change the value: `2` and `2.00` are the same number |
| CoUtils.AsBool | adder/compiler/co_utils.c:357-368 | `srcref_as_bool` reads `true` as true and `false` as false and nothing else |
| CoUtils.AsBoolMeaning | adder/compiler/co_utils.c:357-368 | a reference reads as a boolean exactly when it is valid and its characters spell one |
| CoUtils.StartsWithAsWrittenMeaning | adder/compiler/co_utils.c:393-397 | `srcref_starts_with_string` as written compares only as many characters as the reference has, so `ab` starts with `abc` |
| CoUtils.StartsWithMeaning | adder/compiler/co_utils.c:393-397 | the corrected test holds exactly when the whole C string begins the reference |
| CoUtils.PrefixCompare | adder/compiler/co_utils.c:393-397 | `strncmp` of `n` characters within a terminator-free text is equality of the first `n` characters |
| CoUtils.EndsWithMeaning | adder/compiler/co_utils.c:399-406 | the corrected `srcref_ends_with_string` holds exactly when the reference ends with the whole C string |
| CoUtils.EndsWithAsWrittenReadsPast | adder/compiler/co_utils.c:399-406 | as written, `a.adr` inside `a.adr;` does not end with `.adr`, since the comparison reads on past the reference |
| CoUtils.TrimMeaning | adder/compiler/co_utils.c:408-422 | `srcref_trim_left` and `srcref_trim_right` shorten by `len`, down to zero, keeping the last or the first characters of the same source |
| GcHeap.ChunkMaskBits | adder/vm/vm_heap.h:11 | `MK_CHUNK_MASK(n)` for `n` below 64 holds exactly the bits below `n` |
| GcHeap.ShiftedChunkBits | adder/vm/vm_heap.c:99 | `MK_CHUNK_MASK(n) << c` holds bit `j` exactly when `c <= j < c + n` |
| GcHeap.WindowBits | adder/vm/vm_heap.c:99 | the shifted window mask holds the bit of heap index `h` exactly when the bit index of `h` lies in `[bit, bit + n)` |
| GcHeap.WindowUnmarked | adder/vm/vm_heap.c:99-100 | where the window test passes at page `q` and bit `c`, every heap index from `64*q + c` to below `64*q + c + n` is unmarked |
| GcHeap.LowWindows | adder/vm/vm_heap.h:11 | the trailing and window masks for the worked allocations: six low bits for 70 values, two bits for 2, one bit for 65, none for 0 |
| GcHeap.BitOf | adder/vm/vm_heap.h:10 | `HEAP_TO_BIT_INDEX` is a bit position within a 64-bit word |
| GcHeap.WithMark | adder/vm/vm_heap.c:15-19 | the words after `put_mark` keep their number |
| GcHeap.BitOfDistinct | adder/vm/vm_heap.h:9-10 | two heap indices of one page have different bits |
| GcHeap.WordMark | adder/vm/vm_heap.c:15-19 | within one word, or-ing in the bit of `h` sets the bit of `k` exactly when it was set or `k` is `h` |
| GcHeap.WithMarkMarksExactly | adder/vm/vm_heap.c:15-19 | `put_mark(h)` marks `h` and leaves every other heap index as it was |
| GcHeap.ZeroWordsMarkNothing | adder/vm/vm_heap.c:21-25 | a bitmap cleared by `heap_clear` marks no heap index |
| GcHeap.MeetClear | adder/vm/vm_heap.c:99 | a page that does not meet the window mask has none of the mask's bits set |
| GcHeap.FreeAtUnmarked | adder/vm/vm_heap.c:96-104 | where the window test of `heap_find_small_chunk` passes, every index of the page whose bit the window mask holds is unmarked |
| GcHeap.SmallFromNone | adder/vm/vm_heap.c:91-105 | `heap_find_small_chunk` answers -1 exactly when no window it tries is free |
| GcHeap.SmallFromFirst | adder/vm/vm_heap.c:91-105 | a window `heap_find_small_chunk` finds is free, is one it tries, no free window comes before it in page-then-bit order, and every one of the `n` indices from the returned index on is unmarked |
| GcHeap.SmallFromOrder | adder/vm/vm_heap.c:96-103 | the page-then-bit scan from any page and bit returns a free window it tries and no free window before it in scan order, or -1 when no later window is free |
| GcHeap.EmptyRun | adder/vm/vm_heap.c:107-120 | the run of empty pages from `p` stays inside the bitmap, and the page after it, if any, is not empty |
| GcHeap.EmptyRunZero | adder/vm/vm_heap.c:107-120 | every page of the run is empty |
| GcHeap.LargeFromMeaning | adder/vm/vm_heap.c:122-158 | a chunk `heap_find_large_chunk` finds starts on a page boundary at a page below the last it checks, where the chunk fits as the probe reads it; any other answer is -1 |
| GcHeap.LargeFromInBounds | adder/vm/vm_heap.c:122-158 | probing the page right after the run never reads past the bitmap, so the corrected search cannot fail |
| GcHeap.LargeFromStep | adder/vm/vm_heap.c:135-155 | one round of the loop: a longer run answers the page, a run of exactly the whole pages answers it when the probed page's trailing bits are free, a probe past the bitmap reads out of bounds, and otherwise the search goes on past the run |
| GcHeap.LargeFromFailsOutOfBounds | adder/vm/vm_heap.c:122-158 | the only way the large search fails is by reading past the bitmap |
| GcHeap.FreeChunkFailsOutOfBounds | adder/vm/vm_heap.c:160-167 | the only way `heap_find_free_chunk` fails is by reading past the bitmap |
| GcHeap.FillPages | adder/vm/vm_heap.c:191-194 | the whole-page loop of `heap_array_alloc` keeps the number of pages when its asserts hold |
| GcHeap.MarkTrail | adder/vm/vm_heap.c:196-204 | the trailing mark of `heap_array_alloc` keeps the number of pages when its assert holds |
| GcHeap.Placed | adder/vm/vm_heap.c:186-204 | the whole marking of `heap_array_alloc` keeps the number of pages when its asserts hold |
| GcHeap.FillPagesMeaning | adder/vm/vm_heap.c:191-194 | a filled range had only empty pages and now has full ones, and every other page is as before |
| GcHeap.FillPagesOfEmpty | adder/vm/vm_heap.c:191-194 | filling a range of empty pages passes the assert |
| GcHeap.SlotBits | adder/vm/vm_heap.h:9-10 | index `64 q + c` has page `q` and bit `c` |
| GcHeap.SmallTrailMask | adder/vm/vm_heap.c:196-201 | below one page, the trailing mask the allocation sets is the window mask at the chunk's bit |
| GcHeap.SmallPlacementSucceeds | adder/vm/vm_heap.c:186-204 | a small chunk the search finds passes the trailing assert |
| GcHeap.LargeRunEmpty | adder/vm/vm_heap.c:122-158 | the corrected search answers a page boundary whose whole pages are empty and whose trailing page is empty or has the trailing bits clear |
| GcHeap.LargePlacementSucceeds | adder/vm/vm_heap.c:186-204 | a large chunk the corrected search finds passes both asserts |
| GcHeap.OrBit | adder/vm/vm_heap.c:204 | or-ing a mask into a page sets exactly the mask's bits besides the page's own |
| GcHeap.MarkedAfterOr | adder/vm/vm_heap.c:204 | or-ing a mask into a page marks the indices of that page whose bits the mask holds and changes nothing else |
| GcHeap.MarkedAfterFill | adder/vm/vm_heap.c:191-194 | after the whole-page loop, exactly the old marks and the indices of the filled pages are marked |
| GcHeap.PlacedMarks | adder/vm/vm_heap.c:186-204 | after the marking of `heap_array_alloc`, exactly the old marks, the indices of the filled pages and, in the trailing page, the bits of the trailing mask are marked |
| GcHeap.TrailFree | adder/vm/vm_heap.c:196-203 | an empty trailing page, or one whose bottom bits are free, passes the trailing assert |
| GcHeap.CorrectedPlacementSucceeds | adder/vm/vm_heap.c:169-215 | with the corrected search and fill, every chunk found passes both asserts of `heap_array_alloc`, and afterwards an index is marked exactly when it was marked before or lies in the `n` indices from the chunk's start |
| GcHeap.SmallPlacedMarks | adder/vm/vm_heap.c:186-204 | for a small chunk found by the search, the marking succeeds and marks one index exactly when it was marked before or lies in the chunk |
| GcHeap.LargePlacedMarks | adder/vm/vm_heap.c:186-204 | for a large chunk found by the corrected search, the corrected marking succeeds and marks one index exactly when it was marked before or lies in the chunk |
| GcHeap.Target | adder/vm/vm_heap.c:31-42 | the array `heap_gc_mark_used` follows in a value starts inside the heap |
| GcHeap.MarkSpan | adder/vm/vm_heap.c:43-45 | the `put_mark` loop over an array fails only by writing past the bitmap |
| GcHeap.MarkSpanMeaning | adder/vm/vm_heap.c:43-45 | the loop fits exactly when the span is empty or its last index has a page, and then marks exactly the old marks and the span |
| GcHeap.MarkItems | adder/vm/vm_heap.c:27-51 | `heap_gc_mark_used` keeps the number of pages, and fails only by reading or writing out of bounds or by exhausting the host stack |
| GcHeap.MarkItem | adder/vm/vm_heap.c:31-49 | one pass of the loop, with the same guarantees |
| GcHeap.ReachesViaItem | adder/vm/vm_heap.c:27-51 | a scanned value that reaches an index makes the scan reach it |
| GcHeap.WholeArrayScansEveryValue | adder/vm/vm_heap.c:46-49 | scanning whole arrays, a value stored anywhere in a reached array is followed one level deeper |
| GcHeap.MarkItemsMarksReached | adder/vm/vm_heap.c:27-51 | a marking that completes marks exactly the old marks and what the scanned values reach |
| GcHeap.MarkItemMarksReached | adder/vm/vm_heap.c:31-49 | one value's marking marks exactly the old marks and what the value reaches |
| GcHeap.AdderScanSkipsFirstValue | adder/vm/vm_heap.c:46-49 | the adder machine's recursion starts one value into the array and so misses an array stored as its first value, which a whole-array scan reaches |
| GcHeap.GridScanReadsPastArray | gvm/gvm_heap.c:40-43 | the grid machine's recursion starts one value in but scans `length` values, so it follows the value after a live array, which a whole-array scan does not |
| GcHeap.CollectMarksReached | adder/vm/vm_heap.c:53-58 | a completed `heap_gc_collect` marks exactly what the stack values reach |
| GcHeap.Zeroed | adder/vm/vm_heap.c:207-209 | zeroing values keeps the memory size |
| GcHeap.Copied | adder/vm/vm_heap.c:224-226 | copying values keeps the memory size |
| GcHeap.CopiedReadsBack | adder/vm/vm_heap.c:217-228 | the copied range reads back as the source's values, and the memory outside it is untouched |
| GcHeap.Heap.constructor | adder/vm/vm_heap.c:21-25 | a machine memory of zero values with a cleared bitmap of the size `CALC_GC_MARK_U64_COUNT` gives |
| GcHeap.Heap.PutMark | adder/vm/vm_heap.c:15-19 | `put_mark` leaves the bitmap `WithMark` describes, which marks exactly the old marks and `h` |
| GcHeap.Heap.Clear | adder/vm/vm_heap.c:21-25 | `heap_clear` leaves every page empty |
| GcHeap.Heap.MarkArray | adder/vm/vm_heap.c:43-45 | the `put_mark` loop leaves the bitmap `MarkSpan` gives, or reports its out-of-bounds write |
| GcHeap.Heap.MarkUsed | adder/vm/vm_heap.c:27-51 | `heap_gc_mark_used` leaves the bitmap `MarkItems` gives, or reports its failure |
| GcHeap.Heap.MarkValue | adder/vm/vm_heap.c:31-49 | one pass of the loop leaves the bitmap `MarkItem` gives, or reports its failure |
| GcHeap.Heap.TargetAt | adder/vm/vm_heap.c:31-42 | the array the value at a memory index points to, as the collection reads it |
| GcHeap.Heap.GcCollect | adder/vm/vm_heap.c:53-58 | `heap_gc_collect` clears every mark, then marks what the stack values up to the top reach |
| GcHeap.Heap.FindSmallChunk | adder/vm/vm_heap.c:91-105 | the nested loops of `heap_find_small_chunk` answer the first free window, as `SmallChunk` gives |
| GcHeap.Heap.CountEmptyPages | adder/vm/vm_heap.c:107-120 | `heap_count_empty_pages` answers -1 past the bitmap and otherwise the run of empty pages |
| GcHeap.Heap.LargeStep | adder/vm/vm_heap.c:135-155 | one round of the loop either answers what the whole search answers or moves forward to a page from which the search answers the same |
| GcHeap.Heap.FindLargeChunk | adder/vm/vm_heap.c:122-158 | `heap_find_large_chunk` answers `LargeChunk` under the probe the reading says |
| GcHeap.Heap.FindFreeChunk | adder/vm/vm_heap.c:160-167 | `heap_find_free_chunk` answers the small search below 64 values and the large one otherwise |
| GcHeap.Heap.FillWholePages | adder/vm/vm_heap.c:191-194 | the whole-page loop leaves the bitmap `FillPages` gives, or reports the failed assert |
| GcHeap.Heap.MarkTrailing | adder/vm/vm_heap.c:196-204 | the trailing mark leaves the bitmap `MarkTrail` gives, or reports the failed assert and changes nothing |
| GcHeap.Heap.ZeroValues | adder/vm/vm_heap.c:207-209 | the zeroing loop zeroes the `n` values, or reports an out-of-bounds write |
| GcHeap.Heap.AllocAt | adder/vm/vm_heap.c:186-215 | placing a chunk marks its pages and trailing bits under both asserts, zeroes its values and returns the array at its address |
| GcHeap.Heap.LocateChunk | adder/vm/vm_heap.c:171-180 | the search, then the collection and a second search when the first gives up; a found chunk is what the search answers on the final bitmap, and failures are only out-of-bounds reads or host stack exhaustion |
| GcHeap.Heap.ArrayAlloc | adder/vm/vm_heap.c:169-215 | `heap_array_alloc` gives the null array with nothing changed when even the collection leaves no room, and otherwise places the chunk; with the corrected reading no assert can fail |
| GcHeap.Heap.CopyValues | adder/vm/vm_heap.c:224-226 | the copying loop copies the `n` values, or reports an out-of-bounds write |
| GcHeap.Heap.CopyTo | adder/vm/vm_heap.c:217-228 | `heap_array_copy_to` copies the smaller of the destination length and `length` and answers that count, or reports an out-of-bounds write |
| GcHeap.FirstLargeSearch | adder/vm/vm_heap.c:122-158 | on a fresh five-page heap a 70-value array goes to index 0 under either reading |
| GcHeap.FirstLargeAllocation | adder/vm/vm_heap.c:186-204 | it takes the first page and six bits of the second, under either reading |
| GcHeap.FirstSmallAllocation | adder/vm/vm_heap.c:91-105 | on a fresh heap a 2-value array takes the two lowest bits of page 0 |
| GcHeap.SecondLargeSearch | adder/vm/vm_heap.c:122-158 | a second 70-value array goes to index 128, the first page of the run of three empty pages |
| GcHeap.SecondLargePlacedAsWritten | adder/vm/vm_heap.c:191-194 | as written, that placement fills no page and sets the trailing bits in page 3 |
| GcHeap.ThirdLargeSearchAsWritten | adder/vm/vm_heap.c:122-158 | a following 64-value array is then placed over page 2, which the second array holds |
| GcHeap.SecondLargePlacedCorrected | adder/vm/vm_heap.c:191-194 | the corrected placement of the second array fills page 2 |
| GcHeap.FillFromPageZeroLosesPages | adder/vm/vm_heap.c:191-194 | the as-written loop bound `num_pages` leaves page 2 of the second array free, and the next 64-value array lands on it; the corrected loop fills it |
| GcHeap.ProbePastTrailingPage | adder/vm/vm_heap.c:145 | the probe one page too far accepts page 0 for a 65-value array whose trailing bit lands on the mark in page 1, so the assert fails; the corrected probe goes on to page 2 |
| GcHeap.OneMarkRuns | adder/vm/vm_heap.c:122-158 | the as-written probe finds page 0, the corrected one page 2 |
| GcHeap.OneMarkPlacedAsWritten | adder/vm/vm_heap.c:196-204 | the as-written placement at page 0 meets the mark in page 1 |
| Gvm.Create | gvm/gvm.c:69-116 | `gvm_create` adds the stack and heap sizes in a C `int`, refuses a total above the addressable maximum, and lays the heap out after the stack |
| Gvm.CreateCorrectedFits | gvm/gvm.c:69-116 | corrected, a created machine's block holds all its values and the heap ends where the block does |
| Gvm.CreateAsWrittenUndersized | gvm/gvm.c:71-81 | as written, a stack and a heap of `0x1000_0000` values each get a block of zero bytes, the byte count wrapping in 32 bits |
| Gvm.Operand | gvm/gvm_asmutils.h:17-20 | a 32-bit operand exists exactly when four bytes are there; corrected it is the little-endian word, as written it is what the faulty `READ_U32` gives |
| Gvm.CycleDispatches | gvm/gvm.c:160-170 | inside the code, a cycle dispatches the opcode at the code position with the position advanced past it |
| Gvm.DispatchesOperands | gvm/gvm.c:170-465 | an opcode with operands is dispatched to its operand case |
| Gvm.CallReturnPosition | gvm/gvm.c:281-287 | `OP_CALL` pushes one return position and jumps to its operand; the position is `pc + 3` as written, inside the call's own operand, and `pc + 5` corrected |
| Gvm.AsWrittenReturnLandsInOperand | gvm/gvm.c:281-287 | as written the return position lies strictly between the call and the next instruction |
| Gvm.EntryPointCalls | gvm/gvm.c:288-294 | `OP_ENTRY_POINT` is a call with return position -1 to its operand |
| Gvm.JumpOperandMisread | gvm/gvm.c:259-262 | a jump whose operand was written as 256 goes to 256 corrected, but to `0x0101_0100` as written |
| Gvm.ReturnExitKeepsStack | gvm/gvm.c:337-352 | outside any frame `OP_RETURN` ends the run with the top value and leaves the stack as it was |
| Gvm.ZeroLimitRunsNothing | gvm/gvm.c:148-166 | with a cycle limit of 0 nothing runs and the result is -1004 on the started state: the arguments pushed, position 0, no frame |
| Gvm.Cycle | gvm/gvm.c:160-170 | one cycle leaves exactly the outcome `Step` gives |
| Gvm.DispatchOp | gvm/gvm.c:170-465 | the `switch` leaves exactly the outcome `Dispatch` gives |
| Gvm.PlainOp | gvm/gvm.c:170-465 | the cases without operands leave exactly the outcome `PlainStep` gives |
| Gvm.OperandOp | gvm/gvm.c:170-465 | the cases with operands leave exactly the outcome `OperandStep` gives |
| Gvm.LocalOp | gvm/gvm.c:380-440 | the frame, local and iterator cases leave exactly the outcome `LocalStep` gives |
| Gvm.FrameOp | gvm/gvm.c:295-336 | `OP_MAKE_FRAME` reads its second operand and builds the frame as `LocalStep` gives |
| Gvm.Loop | gvm/gvm.c:160-465 | the fetch loop spends the budget one cycle at a time and leaves the outcome `Run` gives |
| Gvm.Execute | gvm/gvm.c:132-467 | `gvm_execute` clears the stack, pushes the arguments and runs the loop under the cycle limit, leaving the outcome `ExecuteSpec` gives |
| Gvm.Prepend | gvm/gvm.c:501-532 | a listing fails exactly when its rest fails, and prepending nothing changes nothing |
| Gvm.PrependTwice | gvm/gvm.c:501-532 | prepending twice is prepending both at once |
| Gvm.Args | gvm/gvm.c:518-528 | the operands of a listed instruction: one per operand still to read, all inside the code |
| Gvm.LineAt | gvm/gvm.c:508-530 | one listed line stands at its offset, has an opcode inside the table and all its operands, and the next line follows its last operand inside the code |
| Gvm.ListingTiles | gvm/gvm.c:501-532 | a listing that succeeds tiles the code, one line after another |
| Gvm.Disassemble | gvm/gvm.c:501-532 | `gvm_program_disassemble` builds the listing `Listing` gives |
| Gvm.ReadLine | gvm/gvm.c:508-530 | one round of the loop reads the line `LineAt` gives |
| Gvm.ReadArgs | gvm/gvm.c:518-528 | the operand loop reads the operands `Args` gives |
| Gvm.OperandsRead | gvm/gvm.c:518-521 | an instruction's operands read back, corrected, as the words written |
| Gvm.WordOperand | gvm/gvm_asmutils.h:17-20 | a word the corrected `READ_U32` reads is the operand |
| Gvm.ArgsRead | gvm/gvm.c:518-528 | the operands of an instruction written at an address are listed as they were written |
| Gvm.ArgsStep | gvm/gvm.c:518-528 | an operand read and accepted heads the rest of the operands |
| Gvm.WrittenAtAddr | gvm/gvm.c:501-532 | every instruction the compiler wrote stands at its address in the bytes |
| Gvm.ListingRoundTrip | gvm/gvm.c:501-532 | listing bytes that hold instructions from `k` on at their addresses gives those instructions back with their operands |
| Gvm.ListingHead | gvm/gvm.c:501-532 | an instruction written at an address, followed by listed lines, is listed in front of them |
| Gvm.DisassembleCompiled | gvm/gvm.c:501-532 | listing the bytes of a compiled program gives back one line per instruction, with the operands written |
| GvmAsm.TypeCode | gvm/gvm_tokenizer.h:9-21 | a token type's value in `token_type_t` fits one nibble of a typespec |
| GvmAsm.NibbleCountBounds | gvm/gvm_asm.c:75-82 | a typespec lies between `16^(n-1)` and `16^n` for its operand count `n` |
| GvmAsm.SchemeGetArgCount | gvm/gvm_asm.c:75-82 | `scheme_get_arg_count` counts the nibbles up to the highest non-zero one, so the typespec lies between `16^(n-1)` and `16^n` |
| GvmAsm.Skip | gvm/gvm_asm.c:241-243 | the separator and comment loop stops at the end or at a token that is neither |
| GvmAsm.FirstFit | gvm/gvm_asm.c:88-128 | `scheme_match` over the table from an index answers -1 or an index of the table |
| GvmAsm.FirstFitFirst | gvm/gvm_asm.c:88-128 | `scheme_match` answers -1 exactly when no scheme fits, and otherwise the first scheme that fits |
| GvmAsm.AddLabel | gvm/gvm_asm.c:186-217 | `label_add` refuses a reserved or defined name or a full set, and otherwise appends the label below the capacity; as written a full set is written past exactly when the name is neither reserved nor defined |
| GvmAsm.AddressOfFirst | gvm/gvm_asm.c:219-226 | `label_get_address` answers -1 exactly when no label has the name, and otherwise the address of the first that does |
| GvmAsm.LabelSet.constructor | gvm/gvm_asm.c:313-346 | the zeroed label set of `asm_assemble_code_object` holds no label |
| GvmAsm.LabelSet.Add | gvm/gvm_asm.c:186-217 | `label_add` on the set leaves the labels `AddLabel` gives and answers whether it added |
| GvmAsm.LabelSet.GetAddress | gvm/gvm_asm.c:219-226 | `label_get_address` answers the first matching label's address, or -1 |
| GvmAsm.SchemeMatch | gvm/gvm_asm.c:88-128 | `scheme_match` on the current token answers the first scheme that fits |
| GvmAsm.ArgsFollow | gvm/gvm_asm.c:107-125 | the inner loop of `scheme_match` checks a separator and a token of each nibble's type ahead |
| GvmAsm.SkipFill | gvm/gvm_asm.c:241-243 | the separator and comment loop on the parser moves the cursor where `Skip` says |
| GvmAsm.LabelTail | gvm/gvm_asm.c:258-260 | the three consumes after a label definition stay inside the tokens and move forward when all succeed |
| GvmAsm.SkipArgs | gvm/gvm_asm.c:273-277 | the first pass's operand loop stays inside the tokens |
| GvmAsm.Hop | gvm/gvm_asm.c:274-275 | a separator consumed and a token passed stay inside the tokens |
| GvmAsm.OpTail | gvm/gvm_asm.c:269-280 | the first pass over an operation counts one byte for the opcode and two per operand, moving forward when all consumes succeed |
| GvmAsm.ScanTurn | gvm/gvm_asm.c:238-292 | one turn of `asm_scan_labels` stays inside the tokens and moves forward when it goes on |
| GvmAsm.ScanNext | gvm/gvm_asm.c:238-292 | the first pass is one turn, then the rest while the turn goes on |
| GvmAsm.ScanLabels | gvm/gvm_asm.c:233-295 | `asm_scan_labels` answers and leaves the labels `Scan` gives |
| GvmAsm.ScanOne | gvm/gvm_asm.c:238-292 | one turn of the loop on the parser and the set moves as `ScanTurn` says |
| GvmAsm.ConsumeLabelTail | gvm/gvm_asm.c:258-260 | the three consumes leave the cursor `LabelTail` gives |
| GvmAsm.SkipArgsNext | gvm/gvm_asm.c:273-277 | one operand of the first pass is a separator consumed and a token passed, then the rest |
| GvmAsm.ScanOp | gvm/gvm_asm.c:269-280 | the first pass over one operation leaves the cursor and the address `OpTail` gives |
| GvmAsm.SkipOperands | gvm/gvm_asm.c:273-277 | the operand loop leaves the cursor `SkipArgs` gives and counts two bytes per operand |
| GvmAsm.IndexOf | gvm/gvm_asmutils.c:119-130 | a value's first index in the store, or -1 exactly when it is not there |
| GvmAsm.FindOrAppend | gvm/gvm_asmutils.c:119-156 | adding a value answers its first index, appending it only when it was not there |
| GvmAsm.FoundOrAppended | gvm/gvm_asmutils.c:119-156 | the postconditions of the value adders determine `FindOrAppend` |
| GvmAsm.AddStringValue | gvm/gvm_asmutils.c:158-216 | adding a string only grows the store and answers the index of a list that the string search finds for those characters |
| GvmAsm.ConstAdd | gvm/gvm_asm.c:135-177 | `consts_add_current` only grows the store; a constant token answers an index in it, any other token the last index with nothing added |
| GvmAsm.SymbolConstAdd | gvm/gvm_asm.c:155-170 | a symbol operand adds a boolean or its text as a string and answers an index in the grown store |
| GvmAsm.Operand | gvm/gvm_asm.c:380-405 | one operand of the second pass only grows the store; a constant's index and a label's address are below 256; it stops only on a missing label or a crash |
| GvmAsm.ConstPiece | gvm/gvm_asm.c:380-386 | a constant operand answers an index below 256 in the grown store, or crashes |
| GvmAsm.LabelPiece | gvm/gvm_asm.c:387-398 | a label operand answers an address below 256, or fails on a missing label, or crashes |
| GvmAsm.ArgStep | gvm/gvm_asm.c:379-407 | one step of the operand loop writes two bytes, only grows the store, and moves the cursor as the first pass's `Hop` does |
| GvmAsm.EmitArgsGrows | gvm/gvm_asm.c:378-408 | the operand loop only moves forward, and the code and the store only grow |
| GvmAsm.EmitArgsStops | gvm/gvm_asm.c:378-408 | the operand loop stops only on a missing label or a crash |
| GvmAsm.EmitArgsLength | gvm/gvm_asm.c:378-408 | when every operand went through, the loop wrote two bytes per operand |
| GvmAsm.EmitArgs | gvm/gvm_asm.c:378-408 | when every operand went through, the second pass's operand loop passed exactly the tokens the first pass's operand loop passes |
| GvmAsm.OpStep | gvm/gvm_asm.c:369-410 | the second pass over one operation only grows the code and the store; corrected it moves the cursor as the first pass does |
| GvmAsm.Turn | gvm/gvm_asm.c:347-412 | one turn of the second pass moves forward when it goes on and ends with the code and store as they were |
| GvmAsm.Emit | gvm/gvm_asm.c:347-412 | a finished second pass only grew the code and the store |
| GvmAsm.EmitNext | gvm/gvm_asm.c:347-412 | the second pass is one turn, then the rest while the turn goes on |
| GvmAsm.ConstsAddCurrent | gvm/gvm_asm.c:135-177 | `consts_add_current` on the store answers and leaves the values `ConstAdd` gives |
| GvmAsm.ConstsAddString | gvm/gvm_asm.c:145-147 | the string branch leaves the values `AddStringValue` gives |
| GvmAsm.ConstsAddNumber | gvm/gvm_asm.c:148-151 | the number branch answers the index of the value, found or appended, and leaves the store `FindOrAppend` gives |
| GvmAsm.ConstsAddVec2 | gvm/gvm_asm.c:152-154 | the `ivec2` branch answers the index of the vector, found or appended, and leaves the store `FindOrAppend` gives |
| GvmAsm.ConstsAddSymbol | gvm/gvm_asm.c:155-170 | the symbol branch leaves the values `SymbolConstAdd` gives |
| GvmAsm.EmitConst | gvm/gvm_asm.c:380-386 | a constant operand writes what `ConstPiece` gives |
| GvmAsm.EmitLabel | gvm/gvm_asm.c:387-398 | a label operand writes what `LabelPiece` gives |
| GvmAsm.EmitOperand | gvm/gvm_asm.c:380-405 | one operand writes what `Operand` gives |
| GvmAsm.EmitArg | gvm/gvm_asm.c:379-407 | one step of the operand loop on the parser moves as `ArgStep` says |
| GvmAsm.EmitArgsNext | gvm/gvm_asm.c:378-408 | the operand loop is one step, then the rest while the step goes on |
| GvmAsm.EmitOperands | gvm/gvm_asm.c:378-408 | the operand loop on the parser moves as `EmitArgs` says |
| GvmAsm.OperandsFrom | gvm/gvm_asm.c:378-408 | the operand loop from operand `j` on moves as `EmitArgs` says |
| GvmAsm.EmitOp | gvm/gvm_asm.c:369-410 | the second pass over one operation moves as `OpStep` says |
| GvmAsm.EmitTurn | gvm/gvm_asm.c:347-412 | one turn of the second pass on the parser moves as `Turn` says |
| GvmAsm.EmitCode | gvm/gvm_asm.c:347-412 | the second pass's loop answers what `Emit` gives, `Hang` where the C loop would spin on a token that starts no operation |
| GvmAsm.Assemble | gvm/gvm_asm.c:313-446 | `asm_assemble_code_object` answers what `AssembleSpec` gives |
| GvmAsm.CorrectedSecondPassEnds | gvm/gvm_asm.c:347-412 | with the passes moving alike, a text the first pass accepts never sends the second pass round for ever |
| GvmAsm.TurnFollowsScanTurn | gvm/gvm_asm.c:238-412 | corrected, a turn of the second pass never spins, and when it goes on the first pass went on to the same token |
| GvmAsm.SchemeNamesLong | gvm/gvm_asm.c:23-57 | every scheme name has at least two characters |
| GvmAsm.NoFitShorter | gvm/gvm_asm.c:88-128 | no scheme fits a token whose length matches no name from the index on |
| GvmAsm.StrayPushMatches | gvm/gvm_asm.c:25 | the first token of `push "x"y` names `push` of a string, with one constant operand |
| GvmAsm.StraySymbolNoScheme | gvm/gvm_asm.c:88-128 | the symbol `y` after `push "x"` names no scheme, and no separator precedes it |
| GvmAsm.StrayScanPush | gvm/gvm_asm.c:269-280 | the first pass over `push "x"` stops after the symbol as written and at it corrected |
| GvmAsm.AsWrittenScanSkipsStraySymbol | gvm/gvm_asm.c:280 | as written, the extra advance steps over `y` and the first pass accepts `push "x"y`; corrected it refuses it |
| GvmAsm.StrayStringChars | gvm/gvm_asm.c:145-147 | the string operand of `push "x"y` is `x` |
| GvmAsm.StrayOperandPut | gvm/gvm_asm.c:380-386 | into an empty store, that operand is put as constant 1 after its one character |
| GvmAsm.StrayPushOperands | gvm/gvm_asm.c:378-408 | the operand loop of `push "x"` puts the string and stops at the symbol, going on |
| GvmAsm.SpinsAtStraySymbol | gvm/gvm_asm.c:347-412 | at `y` the second pass finds no operation and loops without moving |
| GvmAsm.SecondPassSpinsOnStraySymbol | gvm/gvm_asm.c:347-412 | the second pass writes `push "x"` and then never ends |
| GvmAsm.StrayColumns | gvm/gvm_parser.c:255-310 | `push "x"y` has no newline, so each character is on line 1 |
| GvmAsm.StrayLexPush | gvm/gvm_parser.c:255-310 | the tokenizer gives `push` and the space after it |
| GvmAsm.StrayLexRest | gvm/gvm_parser.c:255-310 | the tokenizer then gives the string, the symbol and the end of the text |
| GvmAsm.StraySymbolTokenized | gvm/gvm_parser.c:255-310 | the tokens of `push "x"y` |
| GvmAsm.StraySymbolAssembled | gvm/gvm_asm.c:313-446 | the assembler on `push "x"y`: as written the second pass never ends; corrected the first pass refuses the text and the answer is the empty program |
| GvmAsmUtils.InstrArgCount | gvm/gvm_asmutils.c:45-86 | `au_get_op_instr_arg_count`: two operands exactly for `OP_MAKE_FRAME`, one exactly for the one-operand opcodes, none for every other opcode, and -1 exactly for a number that is no opcode |
| GvmAsmUtils.Le16 | gvm/gvm_asm.c:297-300 | an operand is written as two bytes |
| GvmAsmUtils.ArgBytes | gvm/gvm_asmutils.c:88-117 | a list of operands is written as two bytes each |
| GvmAsmUtils.ReadI16 | gvm/gvm_asm.h:9 | `READ_I16` gives a signed 16-bit number |
| GvmAsmUtils.I16 | gvm/gvm_asm.h:9 | a low and a high byte read as a signed 16-bit number |
| GvmAsmUtils.Le16RoundTrip | gvm/gvm_asm.h:9 | an operand in the signed 16-bit range is read back by `READ_I16` from the two bytes written for it, wherever they sit |
| GvmAsmUtils.SplitWord | gvm/gvm_asm.h:9 | splitting a signed 16-bit operand into bytes and joining them again gives it back |
| GvmAsmUtils.ReadU32AsWrittenMisreads | gvm/gvm_asmutils.h:17-20 | the `READ_U32` as written reads byte 1 three times: the four bytes of 256 come out as `0x0101_0100`, where the intended read gives 256 |
| GvmAsmUtils.ReadU32AsWrittenSmall | gvm/gvm_asmutils.h:17-20 | below 256 the as-written `READ_U32` agrees with the intended one |
| GvmAsmUtils.WriteOperand | gvm/gvm_asmutils.c:104-113 | one operand's two bytes are appended after the opcode |
| GvmAsmUtils.WriteInstruction | gvm/gvm_asmutils.c:88-117 | `au_write_instruction` succeeds exactly when the opcode is in range, the buffer can take the opcode byte and the operand count is right, and then appends the opcode byte and each operand's two bytes |
| GvmAsmUtils.WrittenOperandsReadBack | gvm/gvm_asmutils.c:88-117 | each 16-bit operand of a written instruction reads back at `1 + 2k` past the opcode |
| GvmAsmUtils.LastOperandReadsBack | gvm/gvm_asmutils.c:88-117 | the last operand of a written instruction reads back from its last two bytes |
| GvmAsmUtils.ReadI16Prefix | gvm/gvm_asm.h:9 | bytes appended after a read do not change it |
| GvmAsmUtils.AddNumber | gvm/gvm_asmutils.c:119-130 | `au_consts_add_number` answers the first equal number's index and adds nothing, or appends the number at the old size; a stuck buffer adds nothing |
| GvmAsmUtils.Vec2Of | gvm/gvm_asmutils.c:218-247 | an `ivec2` literal denotes a vector |
| GvmAsmUtils.AddIvec2 | gvm/gvm_asmutils.c:218-247 | `au_consts_add_ivec2` answers the first equal vector's index and adds nothing, or appends the vector at the old size |
| GvmAsmUtils.AddBool | gvm/gvm_asmutils.c:132-142 | `au_consts_add_bool` answers the first equal boolean's index and adds nothing, or appends it at the old size |
| GvmAsmUtils.AddChar | gvm/gvm_asmutils.c:144-156 | `au_consts_add_char` answers the first equal character's index unless contiguity is forced, and otherwise appends it at the old size |
| GvmAsmUtils.CharVals | gvm/gvm_asmutils.c:203-206 | one character value per character of the text |
| GvmAsmUtils.AppendChars | gvm/gvm_asmutils.c:203-206 | the characters are appended one by one, nothing on a stuck buffer |
| GvmAsmUtils.AppendString | gvm/gvm_asmutils.c:203-215 | the characters are appended, then a list value over them, and the list's index is answered |
| GvmAsmUtils.AddString | gvm/gvm_asmutils.c:158-216 | `au_consts_add_string` answers the index of an equal string already held and adds nothing, or appends the string; a search reading out of bounds is reported |
| GvmAsmUtils.AddSymbolAsString | gvm/gvm_asmutils.c:249-267 | `au_consts_add_symbol_as_string` does the same for `length` characters of a symbol |
| GvmAsmUtils.ListMatchesExtend | gvm/gvm_utils.c:110-135 | a comparison whose reads stay inside the values answers the same once more values follow |
| GvmAsmUtils.FindStringExtend | gvm/gvm_utils.c:110-135 | a search that found nothing goes on past the old values unchanged once more follow |
| GvmAsmUtils.FindStringSkipsChars | gvm/gvm_utils.c:110-135 | the search passes over values that are not lists |
| GvmAsmUtils.AppendedCharsMatch | gvm/gvm_asmutils.c:203-215 | the list appended after its characters holds exactly those characters |
| GvmAsmUtils.AppendedStringIsFound | gvm/gvm_asmutils.c:158-216 | a string appended because none was found is found afterwards, so adding it again answers the same index and adds nothing |
| GvmCompiler.OpArgCount | gvm/gvm_asminfo.h:60-62 | `get_op_arg_count` gives at most two operands |
| GvmCompiler.Init | gvm/gvm_compiler.c:116-137 | `s2sim_init`: `capacity` slots with blocks of that size, none in use, the given tag |
| GvmCompiler.SlotAt | gvm/gvm_compiler.c:178-198 | a probe step visits a slot of the map |
| GvmCompiler.InsertProbe | gvm/gvm_compiler.c:183-197 | the probe of `s2im_insert` answers a free slot inside every block that is not in use, or a slot inside the blocks holding an equal key |
| GvmCompiler.RehashFrom | gvm/gvm_compiler.c:139-164 | placing the entries again keeps the blocks whole, the slot count and the tag |
| GvmCompiler.Grow | gvm/gvm_compiler.c:139-164 | `s2sim_ensure_capacity` keeps the tag and the count; it changes nothing unless there is less than a quarter of headroom, and then gives twice `count + additional` slots; corrected it keeps the blocks whole |
| GvmCompiler.Insert | gvm/gvm_compiler.c:178-198 | `s2im_insert` fails its assert exactly when the value's tag is not the map's; otherwise it grows the map, counts one more when it adds, changes nothing else when it refuses, and fails only by writing out of bounds |
| GvmCompiler.LookupProbe | gvm/gvm_compiler.c:220-233 | the lookup probe fails only by reading out of bounds |
| GvmCompiler.Lookup | gvm/gvm_compiler.c:220-233 | `s2im_lookup` divides by zero exactly when the map has no slots |
| GvmCompiler.Clear | gvm/gvm_compiler.c:200-205 | `s2im_clear` leaves no slot in use and the count zero, keeping the tag, the keys and the values |
| GvmCompiler.Require | gvm/gvm_compiler.c:370-379 | a looked-up value is answered exactly when the lookup found one |
| GvmCompiler.Gen | gvm/gvm_compiler.c:430-525 | `codegen` only adds instructions |
| GvmCompiler.GenItems | gvm/gvm_compiler.c:463-468 | the block loop only adds instructions |
| GvmCompiler.GenBinop | gvm/gvm_compiler.c:244-301 | `codegen_binop` only adds instructions |
| GvmCompiler.GenValue | gvm/gvm_compiler.c:319-349 | `codegen_value` adds exactly one instruction |
| GvmCompiler.GenArray | gvm/gvm_compiler.c:441-455 | the `AST_ARRAY` case only adds instructions |
| GvmCompiler.GenAssign | gvm/gvm_compiler.c:381-402 | `codegen_assignment` only adds instructions |
| GvmCompiler.GenForeach | gvm/gvm_compiler.c:404-428 | `codegen_foreach` only adds instructions |
| GvmCompiler.ForeachBody | gvm/gvm_compiler.c:404-428 | the rest of `codegen_foreach` only adds instructions |
| GvmCompiler.GenIf | gvm/gvm_compiler.c:469-477 | the `AST_IF` case only adds instructions |
| GvmCompiler.GenIfElse | gvm/gvm_compiler.c:478-493 | the `AST_IF_ELSE` case only adds instructions |
| GvmCompiler.GenFunDecl | gvm/gvm_compiler.c:351-368 | `codegen_fundecl` only adds instructions |
| GvmCompiler.FunBody | gvm/gvm_compiler.c:351-368 | the rest of `codegen_fundecl` only adds instructions |
| GvmCompiler.GenFunCall | gvm/gvm_compiler.c:370-379 | as written every call aborts; corrected, once the arguments compile, a declared function gives exactly a `CALL` of the frame index the functions map holds for its name, and an undeclared one fails the assertion |
| GvmCompiler.FunCallAsWrittenNeverCompiles | gvm/gvm_compiler.c:372-377 | as written a declared function fails the inverted `ir_index == NULL` assertion and an undeclared one is read through NULL |
| GvmCompiler.Retarget | gvm/gvm_compiler.c:540-550 | retargeting one instruction keeps its opcode and its second operand |
| GvmCompiler.RetargetFrom | gvm/gvm_compiler.c:527-552 | retargeting keeps the number of instructions |
| GvmCompiler.InstBytes | gvm/gvm_compiler.c:554-588 | one instruction is written as one byte plus four per operand |
| GvmCompiler.Chunks | gvm/gvm_compiler.c:554-588 | one byte string per instruction |
| GvmCompilerFacts.ProbeThenLookup | gvm/gvm_compiler.c:178-233 | a key placed in the first free slot of its probe is found by the lookup along the same probe |
| GvmCompilerFacts.InsertThenLookup | gvm/gvm_compiler.c:178-233 | a key `s2im_insert` accepts is then found by `s2im_lookup` with its value |
| GvmCompilerFacts.ProbesAgree | gvm/gvm_compiler.c:178-233 | on a map with whole blocks the probes agree: the insertion meets an equal key exactly where the lookup finds it, never a slot outside the blocks, and where it finds room or none the lookup finds nothing |
| GvmCompilerFacts.CorrectedInsertInBounds | gvm/gvm_compiler.c:178-198 | corrected, a map with whole blocks takes every insertion of a value of its tag and keeps its blocks whole |
| GvmCompilerFacts.InsertRejectsPresent | gvm/gvm_compiler.c:178-198 | `s2im_insert` of a key already held answers false and only grows the map |
| GvmCompilerFacts.ClearThenLookup | gvm/gvm_compiler.c:200-233 | after `s2im_clear` no key is found |
| GvmCompilerFacts.GrowAsWrittenOverflows | gvm/gvm_compiler.c:139-164 | as written, growing a 16-slot map holding 12 keys gives 26 slots over a key block of one entry, and inserting `a` writes past it; corrected the same insertion succeeds |
| GvmCompilerFacts.LookupBound | gvm/gvm_compiler.c:220-233 | the values a lookup finds are values stored |
| GvmCompilerFacts.RehashFrames | gvm/gvm_compiler.c:139-164 | placing the entries again keeps every stored value below `n` |
| GvmCompilerFacts.InsertFrames | gvm/gvm_compiler.c:178-198 | corrected, inserting a value below `n` keeps the blocks whole and every value below `n` |
| GvmCompilerFacts.GenGood | gvm/gvm_compiler.c:430-525 | `codegen` only adds instructions, every back-patch lands on an instruction of the construct itself, and every targeted operand stays in range |
| GvmCompilerFacts.GenKeepsAt | gvm/gvm_compiler.c:430-525 | an instruction emitted before a construct is still there after it |
| GvmCompilerFacts.IfLayout | gvm/gvm_compiler.c:469-477 | `AST_IF`: the conditional jump after the condition targets the instruction just past the branch |
| GvmCompilerFacts.IfElseLayout | gvm/gvm_compiler.c:478-493 | `AST_IF_ELSE`: the conditional jump targets the instruction after the then-branch's `JUMP`, and that `JUMP` targets the instruction just past the else-branch |
| GvmCompilerFacts.ForeachLayout | gvm/gvm_compiler.c:404-428 | `codegen_foreach`: `ITER_NEXT` stands right after `MAKE_ITER` and targets the instruction just past the loop, whose last instruction jumps back to it |
| GvmCompilerFacts.ForeachBodyLayout | gvm/gvm_compiler.c:404-428 | the rest of the loop patches `ITER_NEXT` to the end, ends with the jump back and keeps `MAKE_ITER` |
| GvmCompilerFacts.AddrSameOps | gvm/gvm_compiler.c:533-537 | addresses depend only on the opcodes |
| GvmCompilerFacts.AddrIsOffset | gvm/gvm_compiler.c:533-537 | the address of instruction `i` is the length of the bytes written before it |
| GvmCompilerFacts.BytesLength | gvm/gvm_compiler.c:554-588 | the program is as long as the address just past its last instruction |
| GvmCompilerFacts.InstBytesParts | gvm/gvm_compiler.c:554-588 | one instruction is its opcode byte followed by its operands as little-endian 32-bit words |
| GvmCompilerFacts.DecodeAt | gvm/gvm_compiler.c:554-588 | an instruction's bytes inside a byte string read back as the instruction |
| GvmCompilerFacts.BytesAt | gvm/gvm_compiler.c:554-588 | instruction `i` is written at its address |
| GvmCompilerFacts.Decode | gvm/gvm_compiler.c:554-588 | at the address of instruction `i` stand its opcode byte and its operands |
| GvmCompilerFacts.Retargeted | gvm/gvm_compiler.c:540-550 | a targeted operand becomes the address of the instruction it indexes, and nothing else changes |
| GvmCompilerFacts.RetargetOk | gvm/gvm_compiler.c:527-552 | retargeting succeeds exactly when every targeted operand is inside the address table, and fails only out of bounds |
| GvmCompilerFacts.RetargetValues | gvm/gvm_compiler.c:527-552 | a successful retargeting replaces each targeted operand by the address of the instruction it indexes |
| GvmCompilerFacts.FinishViaPatched | gvm/gvm_compiler.c:591-633 | `gvm_compile` fails before retargeting when code generation fails, and otherwise writes the retargeted instructions |
| GvmCompilerFacts.GenStarts | gvm/gvm_compiler.c:591-633 | the compiled tree keeps the entry point as its first instruction |
| GvmCompilerFacts.PatchedShape | gvm/gvm_compiler.c:591-633 | corrected, the instructions start with the entry point, which indexes an instruction, and every targeted operand is in range |
| GvmCompilerFacts.CorrectedNeverOutOfBounds | gvm/gvm_compiler.c:527-552 | corrected, compiling fails only in the generator or on a missing `main`, never while retargeting |
| GvmCompilerFacts.EndJumpAsWritten | gvm/gvm_compiler.c:529-537 | as written the address table has one entry per instruction, so a jump to the instruction just past the last one reads out of bounds; the corrected table, one entry longer, takes it |
| GvmCompilerFacts.CompileEntry | gvm/gvm_compiler.c:591-633 | corrected, the written program starts with the `ENTRY_POINT` byte followed by the address of the frame of `main` |
| GvmCompilerFacts.EntryRetargeted | gvm/gvm_compiler.c:527-588 | retargeted instructions that start with the entry point are written with its byte and the address it indexes |
| GvmCompilerFacts.RetargetFails | gvm/gvm_compiler.c:527-552 | one targeted operand out of range makes the whole retargeting fail |
| GvmCompilerFacts.RetargetAll | gvm/gvm_compiler.c:527-552 | instructions that are each the retargeted form of the original are the result of retargeting |
| GvmCompilerImpl.Realloc | gvm/gvm_compiler.c:139-164 | `realloc` inside `s2sim_ensure_capacity`: a fresh block of `n` entries, the first entries copied and the rest filled |
| GvmCompilerImpl.SrcIdxMap.constructor | gvm/gvm_compiler.c:116-137 | `s2sim_init` (allocation failure is not modelled) |
| GvmCompilerImpl.SrcIdxMap.Place | gvm/gvm_compiler.c:178-198 | the probe loop of `s2im_insert` on a map with slots: the key and the value go to the first slot not in use, unless an equal key comes first; a slot past its block is reported and nothing written |
| GvmCompilerImpl.SrcIdxMap.FillSlot | gvm/gvm_compiler.c:178-198 | the write at the end of the probe of `s2im_insert`: the map is `Fill` of the old one (slot `t` taken by the key and value and the count raised); the blocks are not reallocated |
| GvmCompilerImpl.SrcIdxMap.EnsureCapacity | gvm/gvm_compiler.c:139-164 | `s2sim_ensure_capacity`: the map is `Grow` of the old one (when it must grow, every block is reallocated to twice the required count; as written the key and value blocks get that many bytes, corrected the entries are placed again from their hashes) |
| GvmCompilerImpl.SrcIdxMap.Reallocate | gvm/gvm_compiler.c:139-164 | the three blocks reallocated to `n`, `kn` and `vn` entries; the entries kept stay in their slots |
| GvmCompilerImpl.SrcIdxMap.Rehashed | gvm/gvm_compiler.c:139-164 | the corrected growth: a map of `n` slots holding the entries of this one, each placed from its hash in slot order |
| GvmCompilerImpl.SrcIdxMap.Insert | gvm/gvm_compiler.c:178-198 | `s2im_insert`: when `Insert` succeeds the map is its new map and the answer whether the key was added; when `Insert` reports a failure (the tag assertion, a slot past its block) the method reports the same |
| GvmCompilerImpl.SrcIdxMap.Lookup | gvm/gvm_compiler.c:220-233 | `s2im_lookup`: the value of the first slot of the probe holding an equal key, none at a slot not in use |
| GvmCompilerImpl.SrcIdxMap.Clear | gvm/gvm_compiler.c:200-205 | `s2im_clear`: every flag cleared, the count zero, the tag kept |
| GvmCompilerImpl.Compiler.constructor | gvm/gvm_compiler.c:591-633 | the state `gvm_compile` sets up: both maps of 16 slots, nothing emitted |
| GvmCompilerImpl.Compiler.Add | gvm/gvm_compiler.c:58-68 | `irl_add`: the state is `Emit` of the old one (the instruction appended and nothing else changed) and the answer is the index it was appended at |
| GvmCompilerImpl.Compiler.SetTarget | gvm/gvm_compiler.c:70-73 | `irl_get(...)->args[0] = v`: the state is `Patch` of the old one (only the first operand of that instruction changed) |
| GvmCompilerImpl.Compiler.AddConstant | gvm/gvm_compiler.c:319-349 | a constant appended to the pool: the state and the index are those `AddConst` gives, the index being the old pool length |
| GvmCompilerImpl.Compiler.Codegen | gvm/gvm_compiler.c:430-525 | `codegen` on the compiler state: the instructions, constants and maps it leaves are those the specification `Gen` computes from the old state, or it stops exactly where `Gen` reports a failed assertion |
| GvmCompilerImpl.Compiler.CodegenUnop | gvm/gvm_compiler.c:303-317 | `codegen_unop`: the operand, then `NEG` for a negation; any other operation only prints a message |
| GvmCompilerImpl.Compiler.CodegenReturn | gvm/gvm_compiler.c:430-525 | the `AST_RETURN` case of `codegen`: the value, then `RETURN` |
| GvmCompilerImpl.Compiler.CodegenVarRef | gvm/gvm_compiler.c:430-525 | the `AST_VAR_REF` case of `codegen`: `LOAD_LOCAL` of the variable's index, whose absence is asserted against |
| GvmCompilerImpl.Compiler.CodegenVarDecl | gvm/gvm_compiler.c:430-525 | the `AST_VAR_DECL` case of `codegen`: the name added to the locals with the next variable index |
| GvmCompilerImpl.Compiler.CodegenItems | gvm/gvm_compiler.c:441-468 | the loop over the children of a block or an array: the state it leaves is the one `GenItems` computes, child after child, or the failure `GenItems` reports |
| GvmCompilerImpl.Compiler.CodegenBinop | gvm/gvm_compiler.c:244-301 | `codegen_binop`: the state it leaves is the one `GenBinop` computes (the left operand, the right, then the opcode of the operation; an assignment delegated), or the failure it reports |
| GvmCompilerImpl.Compiler.CodegenValue | gvm/gvm_compiler.c:319-349 | `codegen_value`: the state it leaves is the one `GenValue` computes (the constant appended and a `LOAD_CONST` of its index emitted), or the failure it reports |
| GvmCompilerImpl.Compiler.CodegenArray | gvm/gvm_compiler.c:430-525 | the `AST_ARRAY` case of `codegen` |
| GvmCompilerImpl.Compiler.CodegenAssign | gvm/gvm_compiler.c:381-402 | `codegen_assignment`: the state it leaves is the one `GenAssign` computes (the value, then `STORE_LOCAL` of the variable declared or looked up), or the failure it reports |
| GvmCompilerImpl.Compiler.CodegenForeach | gvm/gvm_compiler.c:404-428 | `codegen_foreach`, up to the declaration of the loop variable |
| GvmCompilerImpl.Compiler.CodegenForeachBody | gvm/gvm_compiler.c:404-428 | the rest of `codegen_foreach`: the store, the body, the jump back, the patch of `ITER_NEXT` |
| GvmCompilerImpl.Compiler.CodegenIf | gvm/gvm_compiler.c:430-525 | the `AST_IF` case of `codegen` |
| GvmCompilerImpl.Compiler.CodegenIfElse | gvm/gvm_compiler.c:430-525 | the `AST_IF_ELSE` case of `codegen` |
| GvmCompilerImpl.Compiler.CodegenFunDecl | gvm/gvm_compiler.c:351-368 | `codegen_fundecl`, up to the frame opened |
| GvmCompilerImpl.Compiler.CodegenFunBody | gvm/gvm_compiler.c:351-368 | the rest of `codegen_fundecl`: the parameters, the body, the frame filled in, the locals cleared |
| GvmCompilerImpl.Compiler.CodegenFunCall | gvm/gvm_compiler.c:370-379 | `codegen_funcall`: the state it leaves is the one `GenFunCall` computes (the arguments, then `CALL` of the function looked up), or the failure it reports |
| GvmCompilerImpl.Compiler.Complete | gvm/gvm_compiler.c:591-633 | the end of `gvm_compile`: the answer is exactly `Finish` of the finished state (`main` looked up, its absence a failed assertion, the entry point patched to its frame, the program written) |
| GvmCompilerImpl.Compiler.Recalc | gvm/gvm_compiler.c:527-552 | `recalc_index_to_bytecode_adress`: every targeted operand rewritten in place to the address `RetargetFrom` gives for it, the constants untouched; an index the table does not have is reported as the out-of-bounds read it is |
| GvmCompilerImpl.Compiler.WriteProgram | gvm/gvm_compiler.c:554-588 | `write_program`: the program holds exactly the bytes `Bytes` gives for the retargeted instructions and the constants unchanged, or the failure of the retargeting |
| GvmCompilerImpl.WriteByte | gvm/gvm_compiler.c:554-588 | `u8buffer_write` of one byte in `write_program`: the buffer contents gain exactly that byte at the end |
| GvmCompilerImpl.WriteWord | gvm/gvm_compiler.c:554-588 | four bytes of one operand, low byte first, as `write_program` writes them |
| GvmCompilerImpl.WriteInst | gvm/gvm_compiler.c:554-588 | one turn of the loop of `write_program`: the opcode's low byte, then the operands |
| GvmCompilerImpl.WriteOperands | gvm/gvm_compiler.c:554-588 | the inner loop of `write_program`: each operand the opcode takes, four bytes low first |
| GvmCompilerImpl.AddressTable | gvm/gvm_compiler.c:527-552 | the first loop of `recalc_index_to_bytecode_adress`: the address of each instruction. As written the table has one entry per instruction; corrected it has one more, the end of the code |
| GvmCompilerImpl.GvmCompile | gvm/gvm_compiler.c:591-633 | `gvm_compile`, run on a fresh compiler state (allocation failure is not modelled) |
| GvmEnv.IndexOf | gvm/gvm_env.c:47-55 | the search of `env_nfunc_get_index` from `i` on: the answer is -1 or an index of the table |
| GvmEnv.IndexOfMeaning | gvm/gvm_env.c:47-55 | the search answers -1 exactly when no name from `i` on is `strcmp`-equal, and otherwise the least index of an equal name |
| GvmEnv.Env.Init | gvm/gvm_env.c:19-28 | `env_init`: the table holds exactly `nprint`, taking two arguments |
| GvmEnv.Env.GetIndex | gvm/gvm_env.c:47-55 | `env_nfunc_get_index`: the index of the first entry whose name is equal, -1 when there is none |
| GvmEnv.Env.NfuncTarget | gvm/gvm_env.c:57-76 | the lookup part of `env_nfunc_call`: a name length outside 1 to `maxLen - 1` is a failed assertion; otherwise the name is searched, and an absent name gives argument count 0 and no function, a present one its argument count and index |
| GvmEnv.NameOfBuffer | gvm/gvm_env.c:57-76 | the name read into the zeroed buffer of `env_nfunc_call` is found exactly where the name itself is |
| GvmEnv.CStrOfPadded | gvm/gvm_env.c:30-45 | the C string of a buffer written by `read_name` is that of its characters before the NUL padding |
| GvmEnv.IndexOfSameName | gvm/gvm_env.c:47-55 | names with the same C string are found at the same index, since the search compares with `strcmp` |
| GvmEnv.ReadName | gvm/gvm_env.c:30-45 | `read_name`: at most `maxLen - 1` characters of the name are copied, followed by a NUL, and their number is returned |
| GvmEnv.InitTable | gvm/gvm_env.c:19-28 | after `env_init`, `nprint` is found at index 0 and every other name is absent |
| GvmGrid.Clamp | gvm/gvm_grid.c:9-9 | `CLAMP(val, min, max)`: the result lies in `lo..hi`, is the value itself inside that range, `lo` below it and `hi` above it |
| GvmGrid.IdxInRange | gvm/gvm_grid.c:95-117 | the index `x + y * w` of a cell of a `w` by `h` grid lies inside its `w * h` entries |
| GvmGrid.IdxInjective | gvm/gvm_grid.c:95-117 | distinct cells of the same row width have distinct indices |
| GvmGrid.Coords | gvm/gvm_grid.c:95-117 | `GRID_CALC_X` and `GRID_CALC_Y` (remainder and quotient by the width) give a cell index back its coordinates |
| GvmGrid.CoordsOf | gvm/gvm_grid.c:95-117 | every index of a `w` by `h` grid is the index of a cell whose coordinates are in range |
| GvmGrid.ClampedIndex | gvm/gvm_grid.c:95-117 | the clamped cell of `_try_select` and `grid_select` is a valid index, that of the coordinates clamped into the grid |
| GvmGrid.Resized | gvm/gvm_grid.c:23-49 | the cells of `grid_set_size`: a block of exactly the new width times height |
| GvmGrid.ResizedCell | gvm/gvm_grid.c:23-49 | after `grid_set_size` a cell inside both sizes keeps its value and every other cell is 0 |
| GvmGrid.CellsResized | gvm/gvm_grid.c:23-49 | a block whose every cell is as `ResizedCell` says is the resized block |
| GvmGrid.ResizeRoundTrip | gvm/gvm_grid.c:23-49 | growing a grid with `grid_set_size` and shrinking it back restores the same cells |
| GvmGrid.CopyColumn | gvm/gvm_grid.c:23-49 | the inner copy loop of `grid_set_size`: in the new block only rows below the copied height of column `x` change, each to the old cell at the same coordinates |
| GvmGrid.Grid.constructor | gvm/gvm_grid.c:11-21 | `grid_init` (allocation failure is not modelled): `InitialWidth` by `InitialHeight` cells, all 0 |
| GvmGrid.Grid.SetSize | gvm/gvm_grid.c:23-49 | `grid_set_size`: the new dimensions, and a fresh block equal to `Resized` of the old cells (the cells inside both sizes copied, the rest 0) |
| GvmGrid.Grid.Fill | gvm/gvm_grid.c:68-72 | `grid_fill`: every cell gets the value |
| GvmGrid.Grid.Destroy | gvm/gvm_grid.c:138-143 | `grid_destroy`: no cells, width and height zero |
| GvmGrid.Grid.Select | gvm/gvm_grid.c:119-136 | `grid_select`: an empty grid is reported as out of bounds; otherwise the selected indices are distinct, connected, accepted against the start value, no more than the cells, and non-empty exactly when the start cell accepts itself, in which case the clamped start cell comes first |
| GvmGrid.RoomLeft | gvm/gvm_grid.c:95-117 | distinct indices below `n` that miss one of them are fewer than `n`, so the visited block never overflows |
| GvmGrid.NeighbourClamped | gvm/gvm_grid.c:95-117 | a neighbour tried by `_try_select`, once clamped, is the cell itself (at the border) or adjacent to it |
| GvmGrid.VisitKeeps | gvm/gvm_grid.c:95-117 | marking an unvisited cell visited keeps the selection invariant, and there was room for it in the visited block |
| GvmGrid.PickKeeps | gvm/gvm_grid.c:95-117 | selecting a visited, accepted, unselected cell next to an earlier selection keeps the selection invariant |
| GvmGrid.Selector.constructor | gvm/gvm_grid.c:119-136 | the initialiser of `grid_select`: a fresh `visited` block of one entry per cell, nothing visited or selected |
| GvmGrid.Selector.IsVisited | gvm/gvm_grid.c:84-93 | `_is_visited`: true exactly when the value is among the visited cells |
| GvmGrid.Selector.Mark | gvm/gvm_grid.c:95-117 | the visited write of `_try_select`: the cell appended to the visited cells and the selection untouched |
| GvmGrid.Selector.Pick | gvm/gvm_grid.c:95-117 | the selection write of `_try_select`: the cell appended to the selection and the visited cells untouched |
| GvmGrid.Selector.Enter | gvm/gvm_grid.c:95-117 | the first half of `_try_select`: the clamped cell is marked visited when new, and selected exactly when it was not visited and the predicate accepts it against the start value |
| GvmGrid.Selector.TrySelect | gvm/gvm_grid.c:95-117 | `_try_select`: the selection only grows, by the returned count; it grows exactly when the clamped cell was unvisited and accepted, and then that cell is the first one added |
| GvmGrid.Selector.Spread | gvm/gvm_grid.c:95-117 | two of `_try_select`'s neighbour calls: the visited cells and the selection only grow, the selection by the returned count |
| GvmIr.IrList.constructor | gvm/gvm_ir.h:31-39 | `irl_init` (allocation failure is not modelled): no entries, a block of `capacity` |
| GvmIr.IrList.Destroy | gvm/gvm_ir.h:41-48 | `irl_destroy`: the block freed, capacity and count zero |
| GvmIr.IrList.Reserve | gvm/gvm_ir.h:50-60 | `irl_reserve`: with `capacity <= count + additional` the block is reallocated to exactly `count + additional` entries, keeping those it held; `capacity` is left as it was |
| GvmIr.IrList.Add | gvm/gvm_ir.h:62-72 | `irl_add`: the instruction is appended and its index returned, tagged `IRID_INS`; the capacity is unchanged |
| GvmIr.IrList.Get | gvm/gvm_ir.h:74-77 | `irl_get`: asserts the tag is `IRID_INS`, then gives the entry at the index (outside the block, out of bounds) |
| GvmLexer.ScanPunctuation | gvm/gvm_lexer.h:55-90 | `lexer_scan`: the bit of each punctuation character in its switch is set exactly for that character |
| GvmLexer.ScanNoPunctuation | gvm/gvm_lexer.h:55-90 | `lexer_scan`: no punctuation bit is set for a character outside its switch |
| GvmLexer.ScanClasses | gvm/gvm_lexer.h:55-90 | `lexer_scan`: the letter, number, whitespace, scope-start and scope-end bits are set exactly when the `IS_` macro of that class holds, and the separator bit never |
| GvmLexer.ScanOneClass | gvm/gvm_lexer.h:55-90 | `lexer_scan` sets at most one of the class bits for any character |
| GvmLexer.ScanSymbol | gvm/gvm_lexer.h:55-90 | `lexer_scan` sets the symbol bit exactly for the printable ASCII characters |
| GvmLexer.MatchMeaning | gvm/gvm_lexer.h:103-108 | `lp_is(c)` matches exactly the categories sharing a bit with `c`, and `lp_is_not(c)` is its negation |
| GvmMemory.GlobalMemory.AllocBufferId | gvm/gvm_memory.c:20-29 | `alloc_buffer_id`: -1 exactly when every slot is used, leaving the pool as it was; otherwise the lowest unused slot, now marked used and given its own index as id, nothing else changed |
| GvmMemory.GlobalMemory.ReturnBufferId | gvm/gvm_memory.c:31-36 | `return_buffer_id`: ids outside the pool are ignored, others marked unused |
| GvmMemory.GlobalMemory.Find | gvm/gvm_memory.c:38-43 | `val_buffer_find`: the slot buffer for an id inside the pool, NULL exactly outside it |
| GvmMemory.GlobalMemory.CreateAsWritten | gvm/gvm_memory.c:45-62 | `val_buffer_create` as written: with room under `buffer_count` but every slot used, `alloc_buffer_id` gives -1, `val_buffer_find` gives NULL, and the capacity write dereferences NULL; with a free slot the new buffer is empty with the requested capacity |
| GvmMemory.GlobalMemory.Create | gvm/gvm_memory.c:45-62 | `val_buffer_create` with the NULL check it evidently intends: NULL when every slot is used or malloc fails, the pool then unchanged; otherwise a formerly unused slot, now used, holding an empty buffer of the requested capacity |
| GvmMemory.GlobalMemory.Destroy | gvm/gvm_memory.c:79-90 | `val_buffer_destroy`: NULL changes nothing; otherwise the buffer is emptied with capacity 0 and the slot its id names is marked unused |
| GvmParser.Scan | gvm/gvm_parser.c:56-78 | `scan`: a character is a number, a letter, a newline or a blank exactly when it is in that class, and unknown exactly when it is none of the recognised characters |
| GvmParser.NewState | gvm/gvm_parser.c:161-240 | `get_new_state`: the update records the state it came from and never re-enters the start state; the character belongs to the previous token exactly when it closes a string or a vector; from the start state only a letter, digit, newline, blank, `#` or `(` avoids the error state, which is never left |
| GvmParser.AfterSeparator | gvm/gvm_parser.c:161-240 | after a separator a dash or a digit starts a number, a quote a string, a letter a symbol, and a dot, `)`, `:` or an unknown character is an error, each exactly |
| GvmParser.StateToType | gvm/gvm_parser.c:242-253 | `state_to_type`: the token type is unknown exactly for the start and the error state, and never the end type |
| GvmParser.ClosersBelongToTheirToken | gvm/gvm_parser.c:161-240 | a closing quote is typed as a string and a closing parenthesis as a vector, and both lead to the separator state |
| GvmParser.LexStep | gvm/gvm_parser.c:255-310 | one turn of the loop of `tokenize`: stop at the error state, or push on change at the character index, line and column and go on |
| GvmParser.LexKeeps | gvm/gvm_parser.c:107-123 | a step that stays in the type of the last token pushes nothing |
| GvmParser.LexPushes | gvm/gvm_parser.c:107-123 | a step into another type pushes exactly one token, at the character index, line and column |
| GvmParser.LineColumnAdvance | gvm/gvm_parser.c:255-310 | the line and column counters of `tokenize`: a newline starts the next line at column 1, any other character advances the column |
| GvmParser.PushKeepsOrdered | gvm/gvm_parser.c:107-123 | `tokens_push_on_change` at an index past every token keeps the list ordered by source index, every index at most the new one |
| GvmParser.PushKeepsLocated | gvm/gvm_parser.c:107-123 | `tokens_push_on_change` with the line and column of its index keeps every token located at its true line and column |
| GvmParser.LexWellFormed | gvm/gvm_parser.c:255-310 | every run of the loop of `tokenize` keeps the token list ordered and located |
| GvmParser.TokensWellFormed | gvm/gvm_parser.c:255-310 | the tokens of every text are ordered and located |
| GvmParser.LexFlushes | gvm/gvm_parser.c:255-310 | the virtual newline flushes the last token: a run that does not stop at an error ends after a separator or inside an open comment, string or vector, never inside a number, symbol or label |
| GvmParser.UnknownFirstCharacter | gvm/gvm_parser.c:255-310 | a text opening with a character of no lexeme gives no tokens and the error state |
| GvmParser.TokenizeResult | gvm/gvm_parser.c:255-310 | what `tokenize` returns: as written always success, even when the loop stopped at the error state; corrected success exactly when the error state was not reached |
| GvmParser.AsWrittenAcceptsInvalidText | gvm/gvm_parser.c:255-310 | as written a text opening with an invalid character is tokenized successfully into no tokens at all |
| GvmParser.CorrectedRejectsInvalidText | gvm/gvm_parser.c:255-310 | corrected a text is accepted exactly when the error state was not reached, then its tokens end flushed, and a text opening with an invalid character is rejected |
| GvmParser.AdvancedAt | gvm/gvm_parser.c:362-368 | `parser_advance`: it moves exactly when the cursor is before the end, and then by one token |
| GvmParser.ConsumedAt | gvm/gvm_parser.c:380-397 | `parser_consume`: it moves by one token exactly when the current token has the type |
| GvmParser.Parser.constructor | gvm/gvm_parser.c:312-335 | the zeroed parser of `parser_create` holding a copy of the text |
| GvmParser.Parser.PushOnChange | gvm/gvm_parser.c:107-123 | leaves exactly the outcome the function `PushedOnChange` gives (`tokens_push_on_change` on the parser's tokens) |
| GvmParser.Parser.Tokenize | gvm/gvm_parser.c:255-310 | `tokenize`: the parser holds exactly the tokens the specification `Tokens` gives for its text, and answers what `TokenizeResult` says; the cursor is untouched |
| GvmParser.Parser.Reset | gvm/gvm_parser.c:354-356 | `parser_reset`: the cursor back at 0, the tokens kept |
| GvmParser.Parser.Advance | gvm/gvm_parser.c:362-368 | `parser_advance`: the tokens kept, the answer and the cursor those of `AdvancedAt` |
| GvmParser.Parser.Consume | gvm/gvm_parser.c:380-397 | `parser_consume`: the tokens kept, the answer and the cursor those of `ConsumedAt` (the messages are not modelled) |
| GvmParser.Parser.Current | gvm/gvm_parser.c:414-416 | `parser_current`: an out-of-bounds read exactly without tokens; otherwise one of the tokens, the one at the cursor when not at the end |
| GvmParser.Parser.Peek | gvm/gvm_parser.c:418-427 | `parser_peek`: the token `lookahead` places away when inside the list, a copy of the last typed unknown past it, and an out-of-bounds read exactly without tokens or before the first |
| GvmParser.Create | gvm/gvm_parser.c:312-335 | `parser_create`: a parser exists exactly when tokenizing succeeds, and then holds the text, the tokens of `Tokens` and cursor 0 |
| GvmParser.TokenLengths | gvm/gvm_parser.c:399-412 | `parser_token_string_length` on the tokens of a text: every token but the last has a positive length reaching the next token, and the last has length 0 |
| GvmParser.EmptyParserReadsOutOfBounds | gvm/gvm_parser.c:414-427 | a parser created as written from a text starting with an invalid character has no tokens, so `parser_peek` and `parser_current` read out of bounds |
| GvmSrcmap.SrcrefEqualsRefl | adder/compiler/co_utils.c:310-320 | `srcref_equals` is reflexive, so a key is always found equal to itself |
| GvmSrcmap.Hash | gvm/gvm_srcmap.c:39-47 | `srcmap_hash`: the loop computes exactly the hash function `HashOf` of the reference |
| GvmSrcmap.SlotIndex | gvm/gvm_srcmap.c:93-111 | every slot of the linear probe sequence lies inside the table |
| GvmSrcmap.InsertFrom | gvm/gvm_srcmap.c:93-111 | the probe loop of `srcmap_insert`: a free answer names an empty slot, a duplicate answer an occupied slot holding an equal key |
| GvmSrcmap.LookupFrom | gvm/gvm_srcmap.c:131-144 | the loop of `srcmap_lookup`: a found slot is occupied by an equal key |
| GvmSrcmap.InsertThenLookup | gvm/gvm_srcmap.c:131-144 | a key placed where the insertion probe stopped is then found at that slot by a lookup from the same start |
| GvmSrcmap.LookupHitMeaning | gvm/gvm_srcmap.c:131-144 | a found slot is reached over occupied slots holding unequal keys only |
| GvmSrcmap.LookupMissMeaning | gvm/gvm_srcmap.c:131-144 | a lookup that finds nothing met no equal key among the occupied slots before the first empty one |
| GvmSrcmap.EntriesOfPlace | gvm/gvm_srcmap.c:93-111 | filling an empty slot adds exactly its key and value pair to the map contents |
| GvmSrcmap.EntriesOfSnoc | gvm/gvm_srcmap.c:49-91 | the pairs of a prefix of the table grow by the next slot pair exactly when that slot is occupied |
| GvmSrcmap.EntriesOfEmpty | gvm/gvm_srcmap.c:113-116 | a table with no occupied slot holds no pairs |
| GvmSrcmap.SrcMap.constructor | gvm/gvm_srcmap.c:22-37 | `srcmap_init` (allocation failure is not modelled): every key zeroed |
| GvmSrcmap.SrcMap.Destroy | gvm/gvm_srcmap.c:6-20 | `srcmap_destroy`: both blocks freed, capacity and count zero |
| GvmSrcmap.SrcMap.Clear | gvm/gvm_srcmap.c:113-116 | `srcmap_clear`: every key zeroed, count zero |
| GvmSrcmap.SrcMap.Place | gvm/gvm_srcmap.c:93-111 | the probe loop of `srcmap_insert`: success exactly when the probe finds an empty slot, which then receives the key and the value, nothing else changing |
| GvmSrcmap.SrcMap.Rebuild | gvm/gvm_srcmap.c:49-91 | the rebuilding loop of `srcmap_ensure_capacity`: on success a fresh map of twice the required capacity holding the same pairs |
| GvmSrcmap.SrcMap.EnsureCapacity | gvm/gvm_srcmap.c:49-91 | `srcmap_ensure_capacity`: the pairs are always the same; a failure or a map that need not grow leaves it as it was; a grown map has twice the required capacity |
| GvmSrcmap.SrcMap.Insert | gvm/gvm_srcmap.c:93-111 | `srcmap_insert`: on success the pairs gain exactly the new pair and `srcmap_lookup` then finds the key with its value; on failure the pairs are unchanged |
| GvmSrcmap.SrcMap.Lookup | gvm/gvm_srcmap.c:131-144 | `srcmap_lookup`: a map of capacity 0 divides by zero; otherwise the answer is that of the probe `LookupFrom` from the key hash |
| GvmTokenizer.SymbolicLen | gvm/gvm_tokenizer.c:172-189 | the length `get_symbolic_token_len` gives is 1 or 2, and 2 only when a second character exists |
| GvmTokenizer.GetSymbolicTokenLen | gvm/gvm_tokenizer.c:172-189 | `get_symbolic_token_len`: exactly the length `SymbolicLen` gives, as written or corrected |
| GvmTokenizer.AsWrittenComparisonsUnreachable | gvm/gvm_tokenizer.c:172-189 | as written no symbol word is `==`, `<=` or `>=`, so the three comparison entries of the symbol map are never looked up |
| GvmTokenizer.CorrectedComparisonsReached | gvm/gvm_tokenizer.c:172-189 | at a comparison character followed by `=`, corrected the symbol is the two characters, while as written it is the one character |
| GvmTokenizer.AlphaKeywordKinds | gvm/gvm_tokenizer.c:118-147 | an identifier in the keyword map of `create_keyword_token_map` takes exactly the mapped kind, and any other identifier is a symbol |
| GvmTokenizer.SymbolicKeywordKinds | gvm/gvm_tokenizer.c:149-201 | a symbol in the map of `create_symbolic_token_map` takes exactly the mapped kind, and any other symbol is a plain symbol |
| GvmTokenizer.KindOfAvoids | gvm/gvm_tokenizer.c:118-147 | a kind the map does not hold, other than a plain symbol, is never what a word becomes |
| GvmTokenizer.StallMeaning | gvm/gvm_tokenizer.c:207-270 | a round of `tokenizer_analyze` that does not abort never moves the cursor back, and leaves it in place exactly at a character that is neither whitespace nor printable, making no token then |
| GvmTokenizer.SpaceRule | gvm/gvm_tokenizer.c:207-270 | at whitespace a round moves past the whole run, and makes a token of it exactly when spaces are kept |
| GvmTokenizer.CommentRule | gvm/gvm_tokenizer.c:207-270 | at `//` a round consumes the line and one past it, as a token exactly when comments are kept; as written an empty comment fails the assertion of `sweep_make_token` |
| GvmTokenizer.StringRule | gvm/gvm_tokenizer.c:207-270 | at a quote a round makes a string token up to the closing quote, both included; as written an empty string fails the assertion of `sweep_make_token` |
| GvmTokenizer.AnalysisEnds | gvm/gvm_tokenizer.c:207-270 | a run of `tokenizer_analyze` that does not abort ends on a stall inside the text, or else at its end or one past it |
| GvmTokenizer.NextWithinOne | gvm/gvm_tokenizer.c:207-270 | a round moves the cursor at most one past the end of the text, and past it only at a quote or a slash |
| GvmTokenizer.UnterminatedStringOverruns | gvm/gvm_tokenizer.c:207-270 | a text ending inside a string: the string token takes one character more than the text has and the cursor ends past the end |
| GvmTokenizer.StepLayout | gvm/gvm_tokenizer.c:207-270 | a round makes a space token only when spaces are kept and a comment token only when comments are kept |
| GvmTokenizer.FlagsKeepOut | gvm/gvm_tokenizer.c:207-270 | every token of a run respects the flags: no space token without `spaces`, no comment token without `comments` |
| GvmTokenizer.TokensKeptOut | gvm/gvm_tokenizer.c:207-270 | with the maps the tokenizer is created with, the flags alone decide whether space and comment tokens appear |
| GvmTokenizer.EmptyStringAborts | gvm/gvm_tokenizer.c:86-103 | an empty string: as written the assertion of `sweep_make_token` fails; corrected it is one string token and the text is consumed |
| GvmTokenizer.EmptyCommentAborts | gvm/gvm_tokenizer.c:86-103 | an empty comment: as written the assertion of `sweep_make_token` fails; corrected the line is consumed without abort or stall |
| GvmTokenizer.Tokenizer.constructor | gvm/gvm_tokenizer.c:207-270 | the state `tokenizer_analyze` starts from: the cursor at 0 and the two keyword maps created |
| GvmTokenizer.Tokenizer.Sweep | gvm/gvm_tokenizer.c:86-116 | `sweep_make_token` and `sweep_discard_token`: the token and the cursor are those `Swept` gives for the run and the trailing characters, or the assertion failure it reports |
| GvmTokenizer.Tokenizer.LookupAlphaToken | gvm/gvm_tokenizer.c:135-147 | `lookup_alpha_token`: the cursor moves to the end of the word, and the token covers the word with the kind the keyword map gives |
| GvmTokenizer.Tokenizer.LookupSymbolicToken | gvm/gvm_tokenizer.c:191-201 | `lookup_symbolic_token`: the cursor moves by `SymbolicLen`, and the token covers the symbol with the kind the symbol map gives |
| GvmTokenizer.Tokenizer.Round | gvm/gvm_tokenizer.c:207-270 | one round of the loop of `tokenizer_analyze`: the cursor, the tokens added and the outcome are those of the specification `StepAt` |
| GvmTokenizer.Tokenizer.SweepRound | gvm/gvm_tokenizer.c:207-270 | the space, comment, string and number rules of a round: cursor, tokens and outcome as `StepAt` says |
| GvmTokenizer.Tokenizer.WordRound | gvm/gvm_tokenizer.c:207-270 | the word and symbol rules of a round: cursor, tokens and outcome as `StepAt` says |
| GvmTokenizer.Analyze | gvm/gvm_tokenizer.c:207-270 | `tokenizer_analyze`: an abort of `Analysis` is reported; otherwise the collection gains `TT_INITIAL`, the tokens of `Analysis` and `TT_FINAL`, and the result says whether the cursor ended exactly at the end of the text |
| GvmTokenizer.AnalyzeMeaning | gvm/gvm_tokenizer.c:207-270 | `tokenizer_analyze` answers true exactly when no round stalled and the cursor stopped exactly at the end of the text |
| GvmTokenizer.Rounds | gvm/gvm_tokenizer.c:207-270 | the loop of `tokenizer_analyze`: the abort, the tokens added and the cursor are those of `Analysis` from the old cursor |
| GvmTokenizer.Turn | gvm/gvm_tokenizer.c:207-270 | the body of the loop: a round that aborts, stalls, or moves the cursor forward, the tokens so far tracking `Analysis` from the new cursor |
| GvmTokenizer.TracksStep | gvm/gvm_tokenizer.c:207-270 | one round keeps the whole run tracked: it aborts, stalls with no token, or adds its token and moves on |
| GvmTokenizerHeader.RunEnd | gvm/gvm_tokenizer.h:130-146 | where a run of `sweep_while_whitespace` or `sweep_while_number` from `s` stops lies between `s` and the end of the text |
| GvmTokenizerHeader.RunEndMeaning | gvm/gvm_tokenizer.h:130-146 | every character of the run is in its class, and the character that stops it is not |
| GvmTokenizerHeader.Until | gvm/gvm_tokenizer.h:118-128 | the place the search of `sweep_until` stops lies between `s` and the end of the text |
| GvmTokenizerHeader.UntilMeaning | gvm/gvm_tokenizer.h:118-128 | no character before the place found is `ch`, and the place holds `ch` unless it is the end of the text |
| GvmTokenizerHeader.UntilLen | gvm/gvm_tokenizer.h:118-128 | the length `sweep_until` gives never reaches past the text |
| GvmTokenizerHeader.SpaceAt | gvm/gvm_tokenizer.h:243-259 | `try_collect_space`: the cursor stays within the text and never moves back |
| GvmTokenizerHeader.CommentAt | gvm/gvm_tokenizer.h:160-181 | `try_collect_comment`: the cursor stays within the text and never moves back |
| GvmTokenizerHeader.StringAt | gvm/gvm_tokenizer.h:183-204 | `try_collect_string`: the cursor stays within the text and never moves back |
| GvmTokenizerHeader.NumberAt | gvm/gvm_tokenizer.h:206-241 | `try_collect_number`: the cursor stays within the text and never moves back |
| GvmTokenizerHeader.CollectorAt | gvm/gvm_tokenizer.h:275-299 | each collector of a round keeps the cursor within the text and never moves it back |
| GvmTokenizerHeader.Phases | gvm/gvm_tokenizer.h:275-299 | the collectors from the `k`-th on, each from where the previous left the cursor, keep it within the text and never move it back |
| GvmTokenizerHeader.RoundParts | gvm/gvm_tokenizer.h:275-299 | a round of `tokenizer_analyze` is exactly space, comment, string and number collection in turn, each from where the previous one left the cursor |
| GvmTokenizerHeader.RoundTiles | gvm/gvm_tokenizer.h:275-299 | the tokens of a round lie one after the other over exactly the text the cursor passed, and a round collects nothing exactly when it leaves the cursor in place |
| GvmTokenizerHeader.RoundMoves | gvm/gvm_tokenizer.h:275-299 | a round collects nothing exactly when it leaves the cursor where it was |
| GvmTokenizerHeader.AnalysisTiles | gvm/gvm_tokenizer.h:275-299 | when `tokenizer_analyze` succeeds, its tokens cover the text from the cursor to the end, each starting where the previous one ends |
| GvmTokenizerHeader.NothingBeforeString | gvm/gvm_tokenizer.h:160-259 | at a quote neither whitespace nor a comment is collected |
| GvmTokenizerHeader.RoundAtClosingStringAsWritten | gvm/gvm_tokenizer.h:118-128 | as written the round at a string closing on the last character stops before the closing quote, or stalls when the string is empty |
| GvmTokenizerHeader.RoundAtClosingStringCorrected | gvm/gvm_tokenizer.h:118-128 | corrected the round at a string closing on the last character collects the whole string and nothing else |
| GvmTokenizerHeader.RoundAtLastQuote | gvm/gvm_tokenizer.h:183-204 | the round at a quote that is the last character of the text stalls |
| GvmTokenizerHeader.StringAtEnd | gvm/gvm_tokenizer.h:118-128 | a string closing on the last character of the text: as written the text is rejected; corrected it is accepted as that one string token |
| GvmTokenizerHeader.Tokenizer.SweepUntil | gvm/gvm_tokenizer.h:118-128 | `sweep_until`: exactly the length `UntilLen` gives, as written or corrected |
| GvmTokenizerHeader.Tokenizer.SweepWhile | gvm/gvm_tokenizer.h:130-137 | `sweep_while_whitespace` and `sweep_while_number`: the run from `start` ends exactly at `RunEnd` |
| GvmTokenizerHeader.Tokenizer.MatchCursorStr | gvm/gvm_tokenizer.h:148-158 | `match_cursor_str`: true exactly when the `len` characters at the cursor equal those of `str` and at least one more character follows |
| GvmTokenizerHeader.Tokenizer.TryCollectSpace | gvm/gvm_tokenizer.h:243-259 | `try_collect_space`: cursor and collected tokens exactly as `SpaceAt` gives, true exactly when a token was collected |
| GvmTokenizerHeader.Tokenizer.TryCollectComment | gvm/gvm_tokenizer.h:160-181 | `try_collect_comment`: cursor and collected tokens exactly as `CommentAt` gives, true exactly when a token was collected |
| GvmTokenizerHeader.Tokenizer.TryCollectString | gvm/gvm_tokenizer.h:183-204 | `try_collect_string`: cursor and collected tokens exactly as `StringAt` gives, true exactly when a token was collected |
| GvmTokenizerHeader.Tokenizer.TryCollectNumber | gvm/gvm_tokenizer.h:206-241 | `try_collect_number`: cursor and collected tokens exactly as `NumberAt` gives, true exactly when a token was collected |
| GvmTokenizerHeader.Tokenizer.Round | gvm/gvm_tokenizer.h:275-299 | the body of the loop of `tokenizer_analyze`: cursor and tokens exactly as `RoundAt` gives |
| GvmTokenizerHeader.Analyze | gvm/gvm_tokenizer.h:275-299 | `tokenizer_analyze`: the answer and the tokens collected are those of `Analysis` from the start of the text |
| GvmTokenizerHeader.Rounds | gvm/gvm_tokenizer.h:275-299 | the loop of `tokenizer_analyze`: the answer and the tokens collected are those of `Analysis` from the old cursor |
| GvmTokenizerHeader.TracksStep | gvm/gvm_tokenizer.h:275-299 | one round keeps the whole run tracked: it stalls with nothing collected, or adds its tokens and moves on |
| GvmTokenizerHeader.AnalysisStep | gvm/gvm_tokenizer.h:275-299 | one unfolding of `Analysis`: a stall with nothing collected, or the tokens of the round before the rest |
| GvmTokenizerHeader.Turn | gvm/gvm_tokenizer.h:275-299 | the body of the loop: the cursor stays in the text, a stall ends the run, and otherwise the cursor moves forward with the tokens tracking `Analysis` |
| GvmTokenizerHeader.MergeCollectedTop | gvm/gvm_tokenizer.h:261-273 | `merge_collected_top`: with fewer than two tokens, true exactly when there is one and nothing changes; two top tokens of different kinds are an error; otherwise they are merged into one |
| GvmTokenizerHeader.MergedAdjacent | gvm/gvm_tokenizer.h:261-273 | two adjacent tokens of one text merge into one token of the first kind spanning both |
| GvmUtils.U8Buffer.constructor | gvm/gvm_utils.c:11-19 | `u8buffer_create`: an empty buffer of the requested capacity |
| GvmUtils.U8Buffer.Write | gvm/gvm_utils.c:21-34 | `u8buffer_write`: the byte appended, a full buffer doubled first; an empty buffer of capacity zero stays at zero and the write lands outside the block, reported as out of bounds with the contents unchanged |
| GvmUtils.U8Buffer.Destroy | gvm/gvm_utils.c:36-46 | `u8buffer_destroy`: no contents and capacity zero |
| GvmUtils.FindStringAsWritten | gvm/gvm_utils.c:110-137 | the loop of `valbuffer_find_string` as written: exactly the search `FindStringAsWrittenFrom`, and -1 for a negative length |
| GvmUtils.AsWrittenAgreesAtOffsetZero | gvm/gvm_utils.c:110-137 | where every list of the wanted length starts at offset 0, or the string is empty, the search as written is the intended one |
| GvmUtils.AsWrittenMissesOffsetList | gvm/gvm_utils.c:110-137 | a buffer holding the list `"a"` at offset 1: the intended search finds it at index 0, the search as written reads out of bounds |
| GvmUtils.FindStringCorrected | gvm/gvm_utils.c:110-137 | `valbuffer_find_string` reading the list elements at its offset: exactly the search `FindString`, and a found index holds the string |
| GvmValBuffer.FirstMatch | gvm/gvm_val_buffer.c:34-68 | the search shared by the number, bool and char lookups from `i`: -1 or an index of the buffer |
| GvmValBuffer.FirstMatchMeaning | gvm/gvm_val_buffer.c:34-68 | the search answers -1 exactly when no value from `i` on matches, and otherwise the least matching index |
| GvmValBuffer.ListMatchesMeaning | gvm/gvm_val_buffer.c:70-94 | the inner comparison of `val_buffer_find_internal_string` succeeds exactly when every remaining element is stored and is the matching char |
| GvmValBuffer.FindString | gvm/gvm_val_buffer.c:70-94 | `val_buffer_find_internal_string` from index `i`: -1 or the index of a list value |
| GvmValBuffer.FindStringMeaning | gvm/gvm_val_buffer.c:70-94 | a found index holds the string and no earlier list does; -1 means no list from `i` on holds it |
| GvmValBuffer.ValBuffer.constructor | gvm/gvm_val_buffer.c:7-17 | `val_buffer_create`: an empty buffer of the requested capacity in the given storage |
| GvmValBuffer.ValBuffer.Add | gvm/gvm_val_buffer.c:19-32 | `val_buffer_add`: the value appended, a full buffer doubled first; a buffer of capacity zero stays at zero and its first write lands outside the block, reported as out of bounds with the contents unchanged |
| GvmValBuffer.ValBuffer.Find | gvm/gvm_val_buffer.c:34-68 | the loop shared by the number, bool and char searches: exactly `FirstMatch` over the contents |
| GvmValBuffer.ValBuffer.FindInt | gvm/gvm_val_buffer.c:34-44 | `val_buffer_find_int`: -1 exactly when the number is absent, otherwise the index of its first occurrence |
| GvmValBuffer.ValBuffer.FindBool | gvm/gvm_val_buffer.c:46-56 | `val_buffer_find_bool`: -1 exactly when the bool is absent, otherwise the index of its first occurrence |
| GvmValBuffer.ValBuffer.FindChar | gvm/gvm_val_buffer.c:58-68 | `val_buffer_find_char`: -1 exactly when the char is absent, otherwise the index of its first occurrence |
| GvmValBuffer.ValBuffer.FindInternalString | gvm/gvm_val_buffer.c:70-94 | `val_buffer_find_internal_string`: exactly the search `FindString` for `chars[..len]` over the contents, -1 for a negative length |
| GvmValBuffer.ValBuffer.MatchList | gvm/gvm_val_buffer.c:70-94 | the inner loop of `val_buffer_find_internal_string`: exactly `ListMatches` from the first element |
| GvmValBuffer.ValBuffer.Reinit | gvm/gvm_val_buffer.c:7-17 | the fields `val_buffer_create` sets on a buffer it was handed: fresh storage for `capacity` values, none stored |
| GvmValBuffer.ValBuffer.Destroy | gvm/gvm_val_buffer.c:96-106 | `val_buffer_destroy`: no contents and capacity zero |
| GvmValidate.OrderVerdict | gvm/gvm_validate.h:115-211 | the ordering rules of `validation_pre_exec` pass exactly when `StepOrderOk` holds for the previous opcode and the count |
| GvmValidate.LocalVerdict | gvm/gvm_validate.h:115-211 | the check of a local access: out of bounds exactly without a frame or without the two operand bytes; otherwise a pass exactly when the 16-bit index lies in `[0, args + locals)`, the failure naming the index and the bound |
| GvmValidate.PreVerdict | gvm/gvm_validate.h:115-211 | `validation_pre_exec`: an ordering failure is reported first; a pass implies the ordering rules hold; a numeric binary operation passes exactly when two numbers are on the stack; local accesses get `LocalVerdict`; unchecked opcodes pass; `OP_INIT` passes exactly as the first instruction not after `OP_CALL` |
| GvmValidate.PostVerdict | gvm/gvm_validate.h:213-257 | `validation_post_exec`: unlisted opcodes pass; listed ones get the stack check with a frame required, failing for a missing frame |
| GvmValidate.PreCheck | gvm/gvm_validate.h:115-211 | the branches of `validation_pre_exec` compute exactly `PreVerdict` |
| GvmValidate.Validation.constructor | gvm/gvm_validate.h:25-32 | `validation_init` (allocation failure is not modelled): zeroed, so the last opcode reads as `OP_HALT` |
| GvmValidate.Validation.PreExec | gvm/gvm_validate.h:115-211 | `validation_pre_exec`: true exactly for a pass of `PreVerdict` and false with its message kept for a failure; the opcode is recorded and the counter advanced unless the check itself errs |
| GvmValidate.Validation.PostExec | gvm/gvm_validate.h:213-257 | `validation_post_exec`: true exactly for a pass of `PostVerdict` and false with its message kept for a failure; opcode and counter untouched |
| GvmValidate.OrderRunMeaning | gvm/gvm_validate.h:115-211 | a run from a freshly initialised validation passes the ordering rules exactly when every `OP_CALL` is directly followed by `OP_MAKE_FRAME`, every `OP_MAKE_FRAME` directly follows `OP_CALL` or `OP_INIT` (so none comes first), and `OP_INIT` occurs at most as the first instruction |
| GvmValue.Machine.ArrayGetPtr | gvm/gvm_value.h:112-119 | `array_get_ptr`: the assertion fails exactly for a null address; otherwise the pointer is into the constants exactly for a constant address, at the address index plus the element index |
| GvmValue.Machine.ArrayGet | gvm/gvm_value.h:121-123 | `array_get`: succeeds exactly when the element pointer exists and lies inside its store |
| GvmValue.Machine.ArraySet | gvm/gvm_value.h:125-128 | `array_set`: succeeds exactly when `array_get` would; then that element reads back as the value and only it changes, in the constants or the memory as the address says; a failure changes nothing |
| ShArena.PaddingAligns | adder/shared/sh_arena.c:14-16 | the padding `get_padding` gives is below the alignment, makes the address aligned, and is 0 for an aligned address |
| ShArena.Block.constructor | adder/shared/sh_arena.c:18-34 | `arena_create`: capacity `max(ARENA_MIN_SIZE, size)` at the address malloc gave, nothing used |
| ShArena.Arena.constructor | adder/shared/sh_arena.c:18-34 | `arena_create` of the head block |
| ShArena.Arena.FirstFit | adder/shared/sh_arena.c:62-88 | the search of `aalloc`: a block with room for `size` bytes, or the chain length, with no block with room before it |
| ShArena.Arena.AllocFrom | adder/shared/sh_arena.c:62-88 | `aalloc` from block `start`: the first block with room grows by padding plus `size` and the pointer lands after the padding, or else a new block is appended; the allocation lies inside its block and is zeroed, and no other byte changes |
| ShArena.Arena.AllocInBlock | adder/shared/sh_arena.c:62-88 | the allocation in a block with room: its size bumped, the allocation zeroed, every other block and byte untouched |
| ShArena.Arena.AllocInNewBlock | adder/shared/sh_arena.c:62-88 | the allocation in a new block appended for it: the old chain kept, the new block of `max(ARENA_MIN_SIZE, size)` with `size` used, the allocation at its start zeroed |
| ShArena.Arena.FindBlock | adder/shared/sh_arena.c:62-88 | the search loop of `aalloc`: exactly `FirstFit`, no block changed |
| ShArena.Arena.Bump | adder/shared/sh_arena.c:62-88 | block `k` has room: its size grows by the padding and `size`, the allocation starts after the padding, and nothing else changes |
| ShArena.Arena.AppendBlock | adder/shared/sh_arena.c:62-88 | no block has room: a new block created for `size` bytes is appended with `size` used, the old chain kept |
| ShArena.Arena.Zero | adder/shared/sh_arena.c:62-88 | the `memset` of a new allocation: those bytes zero, every other byte unchanged |
| ShArena.Arena.Alloc | adder/shared/sh_arena.c:62-88 | `aalloc` on the head block: the first block with room is used, or a new block appended; the allocation lies inside its block and is zeroed |
| ShArena.Arena.SourceExtent | adder/shared/sh_arena.c:90-119 | the block `arealloc` copies from: none exactly when no block holds the address; otherwise the last block holding it, and the positive number of bytes from the address to the end of its buffer |
| ShArena.Arena.Realloc | adder/shared/sh_arena.c:90-119 | `arealloc`: fails exactly when no block holds the address, changing nothing; otherwise a new allocation of `size` bytes searched from the last block, holding the first `min(size, extent)` old bytes and zero after them |
| ShArena.Arena.AllocCopy | adder/shared/sh_arena.c:90-119 | an allocation of `size` bytes searched from block `start` whose first bytes are the saved ones and the rest zero |
| ShArena.Arena.StrCopy | adder/shared/sh_arena.c:121-128 | `astrcopy`: an allocation of `len + 1` bytes holding the first `len` bytes of `src` and a NUL |
| ShArena.Arena.Fill | adder/shared/sh_arena.c:90-128 | the `memcpy` into an allocation: the bytes from `at` are `vals`, every other byte unchanged |
| ShFfi.IndexOfName | adder/shared/sh_ffi.c:34-41 | the search of `ffi_native_exports_index_of` from `i`: -1 or an index of the table |
| ShFfi.IndexOfNameMeaning | adder/shared/sh_ffi.c:34-41 | the search answers -1 exactly when no name is `sstr_equal`, and otherwise the least index of an equal name |
| ShFfi.AppendUnique | adder/shared/sh_ffi.c:92-116 | appending a definition whose name matches none keeps the names unique |
| ShFfi.NativeExports.constructor | adder/shared/sh_ffi.c:7-13 | `ffi_native_exports_init` (allocation failure is not modelled) |
| ShFfi.NativeExports.IndexOf | adder/shared/sh_ffi.c:34-41 | `ffi_native_exports_index_of`: exactly the search `IndexOfName` from 0 |
| ShFfi.NativeExports.Define | adder/shared/sh_ffi.c:43-74 | `ffi_native_exports_define`: a name already present answers false and changes nothing; an empty table of capacity 0 writes out of bounds; otherwise the definition and the handle are appended, capacity grown when full, and unique names stay unique |
| ShFfi.NativeExports.GetType | adder/shared/sh_ffi.c:76-81 | `ffi_native_exports_get_type`: a type exactly when some name is equal, and then that of the first equal name |
| ShFfi.DefinitionSet.constructor | adder/shared/sh_ffi.c:15-20 | `ffi_definition_set_init` (allocation failure is not modelled) |
| ShFfi.DefinitionSet.IndexOf | adder/shared/sh_ffi.c:83-90 | `ffi_definition_set_index_of`: exactly the search `IndexOfName` from 0 |
| ShFfi.DefinitionSet.Add | adder/shared/sh_ffi.c:92-116 | `ffi_definition_set_add`: a name already present answers false and changes nothing; an empty set of capacity 0 writes out of bounds; otherwise the definition is appended, capacity grown when full, and unique names stay unique |
| ShFfi.DefinitionSet.GetType | adder/shared/sh_ffi.c:118-123 | `ffi_definition_set_get_type`: a type exactly when some name is equal, and then that of the first equal name |
| ShFfi.AddedIsFound | adder/shared/sh_ffi.c:92-116 | after a successful insertion of a name absent before, the search finds it at the new last index |
| ShIft.Scalar | adder/shared/sh_ift.c:5-10 | `ift_void`, `ift_int`, ... , `ift_unknown`: a well-formed type whose tags are exactly the one tag |
| ShIft.Combine | adder/shared/sh_ift.c:47-61 | `ift_combine`: out of bounds exactly when the two do not fit together; otherwise a well-formed type whose tags are those of `first` followed by those of `last`, the rest of the buffer that of `first` |
| ShIft.List | adder/shared/sh_ift.c:63-68 | `ift_list`: fails exactly when the content fills the buffer; otherwise a well-formed type whose tags are the list tag then the content |
| ShIft.Extract | adder/shared/sh_ift.c:70-80 | `ift_extract`: the assertion fails exactly when the size is not positive or not below the buffer size; otherwise the type of exactly the first `chunkSize` tags, zero after them |
| ShIft.ListGetContentType | adder/shared/sh_ift.c:82-88 | `ift_list_get_content_type`: for a list the tags after the list tag, otherwise unknown |
| ShIft.AppendTag | adder/shared/sh_ift.c:90-98 | `ift_append_tag`: the tag appended while fewer than `IFTYPE_MAX_TAGS - 1` are in use, the type unchanged otherwise |
| ShIft.PopLastTag | adder/shared/sh_ift.c:100-107 | `ift_pop_last_tag`: the last tag in use dropped when there is one, the buffer otherwise kept |
| ShIft.Func | adder/shared/sh_ift.c:109-115 | `ift_func`: fails exactly when the return type fills the buffer; otherwise the function tag and the return type, with the end tag when there is room for it |
| ShIft.FuncAddArg | adder/shared/sh_ift.c:117-122 | `ift_func_add_arg`: the assertion fails exactly when the type does not end in the end tag; otherwise out of bounds exactly when the argument does not fit, else its tags put before the end tag, which is kept when room remains |
| ShIft.FlatSize | adder/shared/sh_ift.c:124-145 | `ift_get_flat_size`: between 1 and the number of tags for a non-empty type |
| ShIft.ScanFunEnd | adder/shared/sh_ift.c:124-145 | the scan loop of `ift_get_flat_size` stops exactly where `FunEnd` says |
| ShIft.GetFlatSize | adder/shared/sh_ift.c:124-145 | `ift_get_flat_size`: exactly `FlatSize` of the tags |
| ShIft.ArgAt | adder/shared/sh_ift.c:161-183 | the argument `ift_func_get_arg` walks to lies inside the tags after `i` and is not empty |
| ShIft.FuncArgCount | adder/shared/sh_ift.c:147-159 | `ift_func_arg_count`: 0 for a type that is not a function, else the number of chunks after the return type |
| ShIft.FuncGetArg | adder/shared/sh_ift.c:161-183 | `ift_func_get_arg`: unknown for a type that is not a function, a negative index or one past the arguments; otherwise the chunk `ArgAt` finds, extracted |
| ShIft.FindArg | adder/shared/sh_ift.c:161-183 | the walk of `ift_func_get_arg`: exactly `ArgAt` |
| ShIft.FuncGetReturnType | adder/shared/sh_ift.c:185-192 | `ift_func_get_return_type`: unknown for a type that is not a function, else exactly the chunk after the function tag |
| ShIft.Encode | adder/shared/sh_ift.c:109-122 | the tags of a type tree, as the constructors lay them out, are never empty |
| ShIft.FunEndSkips | adder/shared/sh_ift.c:124-145 | the scan of `ift_get_flat_size` passes over a well-formed encoding without closing an open function |
| ShIft.FuncEncodingParts | adder/shared/sh_ift.c:109-122 | a function encoding is its tag, the return type, the arguments and the end tag, in that order |
| ShIft.FuncSlices | adder/shared/sh_ift.c:109-122 | where the parts of a function encoding lie once the encoding sits at `i` |
| ShIft.FunEndSkipsFunc | adder/shared/sh_ift.c:124-145 | the scan passes over a function return type and arguments and stops after its end tag |
| ShIft.FlatSizeOfEncoding | adder/shared/sh_ift.c:124-145 | `ift_get_flat_size` of an encoding followed by anything is exactly the encoding length |
| ShIft.ArgsFromEncoding | adder/shared/sh_ift.c:147-159 | a function encoding counts, from the end of its return type, exactly its arguments, each of which is found |
| ShIft.ArgAtEncoding | adder/shared/sh_ift.c:161-183 | the argument found at `k` is exactly the encoding of the `k`-th argument |
| ShIft.FunctionEncodingReads | adder/shared/sh_ift.c:109-115 | on a function built by `ift_func` and `ift_func_add_arg`, the return type comes first and `ift_func_arg_count` is the number of arguments added |
| ShIft.FunctionEncodingArg | adder/shared/sh_ift.c:161-183 | on a function built by `ift_func` and `ift_func_add_arg`, `ift_func_get_arg` at `k` finds exactly the tags of the `k`-th argument added |
| ShIft.AddArgEncodes | adder/shared/sh_ift.c:117-122 | `ift_func_add_arg` on a built function extends its encoded argument list by exactly the new argument |
| ShIft.ListEncodes | adder/shared/sh_ift.c:63-68 | a list built by `ift_list` gives its content back through `ift_list_get_content_type` |
| ShMsgBuffer.MsgBuffer.constructor | adder/shared/sh_msg_buffer.h:9-15 | the storage `sh_msg_buffer_init` fills: room for `maxCount` messages, none stored |
| ShMsgBuffer.Init | adder/shared/sh_msg_buffer.h:9-15 | `sh_msg_buffer_init`: succeeds exactly when the title fits an `sstr`; then that title, no messages, every slot zeroed |
| ShMsgBuffer.Append | adder/shared/sh_msg_buffer.h:17-23 | `sh_msg_buffer_append`: the message appended while a slot is free, dropped with nothing changed otherwise; the title kept |
| ShMsgBuffer.Clear | adder/shared/sh_msg_buffer.h:40-44 | `sh_msg_buffer_clear`: no messages, the title kept |
| ShProgram.FindEntry | adder/shared/sh_program.c:114-128 | the loop of `program_find_entrypoint` from export `i`: -1, -2 or an export index |
| ShProgram.FindEntryMeaning | adder/shared/sh_program.c:114-128 | an index is the first export with the name and, if a type is expected, that type; -1 exactly when no export has the name; -2 when the first export with the name has another type |
| ShProgram.FindEntrypoint | adder/shared/sh_program.c:114-128 | `program_find_entrypoint`: -1 for a NULL program, otherwise exactly the search `FindEntry` from the first export |
| ShProgram.GetEntryPoint | adder/shared/sh_program.c:157-233 | `program_get_entry_point`: fails only when a name does not fit an `sstr`; the argument values always have the maximum length; without a name the entry is address 0 with zeroed arguments and the type argument count; a missing entry is the no-entry value |
| ShProgram.GetEntryPointFound | adder/shared/sh_program.c:157-233 | a named entry point that is returned is the export `FindEntry` picks, and its address lies in the code and holds `OP_MAKE_FRAME` |
| ShProgram.GetEntryPointMissing | adder/shared/sh_program.c:157-233 | looking up a name that no export carries gives the no-entry value |
| ShProgram.EntryPointVar.SetArg | adder/shared/sh_program.c:235-243 | `entry_point_set_arg`: an index at or past the argument count answers false and changes nothing; a negative index writes out of bounds; any other writes exactly that argument value and answers true |
| ShProgram.EntryPointVar.SetArgUnsafe | adder/shared/sh_program.c:245-248 | `entry_point_set_arg_unsafe`: an index outside the argument values writes out of bounds; otherwise exactly that value written and the count raised to cover the index |
| ShUtils.CLen | adder/shared/sh_utils.c:11-18 | `strlen`: the count of characters before the first NUL, or the whole buffer when it has none |
| ShUtils.StrNEqualMeaning | adder/shared/sh_utils.c:20-30 | `strncmp(a, b, n)` is zero exactly when the two C strings agree on their first `n` characters |
| ShUtils.EmptySstr | adder/shared/sh_utils.c:11-18 | the zero-filled `sstr` buffer has the default length and holds the empty C string |
| ShUtils.MakeSstr | adder/shared/sh_utils.c:11-18 | `sstr`: the assertion fails exactly when the C string does not fit below the buffer length; otherwise a buffer of the default length holding the same C string |
| ShUtils.SstrEqualMeaning | adder/shared/sh_utils.c:20-30 | `sstr_equal` and `sstr_equal_str` answer exactly whether the C strings agree up to the buffer length; the first-character test never changes the answer |
| ShUtils.SstrEqualOfMade | adder/shared/sh_utils.c:26-30 | `sstr_equal` is reflexive, and on buffers made by `sstr` it is equality of the source C strings |
| ShUtils.U32Bytes | adder/compiler/co_compiler.c:625-659 | the bytes `write_program` writes for a 32-bit operand: exactly four |
| ShUtils.ReadU32RoundTrip | adder/compiler/co_compiler.c:625-659 | reading back with `READ_U32` the four bytes written for an operand, wherever they sit in the code, gives the operand |
| ShUtils.ByteRoundTrip | adder/compiler/co_compiler.c:625-659 | a number below 256 survives narrowing to a byte and reading back |
| ShUtils.Int32 | adder/vm/vm_validate.h:165-165 | a 32-bit word stored into a C `int`: a value in the 32-bit signed range, equal to the word or the word minus 2^32, negative exactly when the top bit is set |
| ShValue.GetType | adder/shared/sh_value.h:29-29 | `VAL_GET_TYPE`: the top four bits, a number below 16 |
| ShValue.AddrToIndex | adder/shared/sh_value.h:24-24 | `MEM_ADDR_TO_INDEX`: the index never exceeds `MEM_MAX_ADDRESSABLE` |
| ShValue.ConstAddressRoundTrip | adder/shared/sh_value.h:11-24 | an address made by `MEM_MK_CONST_ADDR` is constant, not program and not null, and gives back its index masked; exactly when the index is addressable, the index itself |
| ShValue.ProgrAddressRoundTrip | adder/shared/sh_value.h:11-24 | an address made by `MEM_MK_PROGR_ADDR` is program, not constant and not null, and gives back its index masked; exactly when the index is addressable, the index itself |
| ShValue.AddressKindsExclusive | adder/shared/sh_value.h:11-19 | no address is both constant and program, a null address is neither, and `ADDR_NIL` is null |
| ShValue.TagsRoundTrip | adder/shared/sh_value.h:29-29 | every encoder writes its own tag, which `VAL_GET_TYPE` reads back |
| ShValue.ScalarRoundTrip | adder/shared/sh_value.h:48-106 | `val_into_bool` and `val_into_char` decode exactly what `val_bool` and `val_char` encode, whatever the sign of the character |
| ShValue.ArrayRoundTrip | adder/shared/sh_value.h:56-113 | `val_into_array` of `val_array` keeps the address and the low 24 bits of the length, so it gives the array back exactly when the length is below 2^24 |
| ShValue.IterRoundTrip | adder/shared/sh_value.h:82-128 | `val_into_iter` of `val_iter` keeps the position and the low 24 bits of the remaining count, so it gives the iterator back exactly when the count is below 2^24 |
| ShValue.FrameRoundTrip | adder/shared/sh_value.h:68-121 | `val_into_frame` of `val_frame` gives the frame back: every field has room for all its bits |
| ShValue.WidenLow | adder/shared/sh_value.h:35-91 | widening a 32-bit word to a value keeps exactly its low 32 bits |
| ShValue.FrameCounts | adder/shared/sh_value.h:68-121 | the argument and local counts of a frame value are read back from bits 40 and 32 |
| TokenList.TokenList.constructor | adder/gvm_tokenizer.c:6-14 | `tokens_init`: no tokens, room for `capacity` |
| TokenList.TokenList.Clear | adder/gvm_tokenizer.c:16-18 | `tokens_clear`: the tokens are forgotten, the allocation kept |
| TokenList.TokenList.Append | adder/gvm_tokenizer.c:20-33 | `tokens_append`: the token appended after the earlier ones; capacity doubled to twice the new count when there was no room beyond the next token, else kept; afterwards room remains |
| TokenList.TokenList.Destroy | adder/gvm_tokenizer.c:43-53 | `tokens_destroy`: no tokens and no allocation |
| Vm.Half | adder/vm/vm.c:71-118 | the C `int` halving of `vm_create`: truncating division, within one of the exact half and never above it for a non-negative size |
| Vm.SizeT | adder/vm/vm.c:71-118 | a C `int` converted to `size_t`: a value in the 64-bit unsigned range |
| Vm.BlockBytes | adder/vm/vm.c:71-118 | the byte count `vm_create` asks `malloc` for is never negative (as written it wraps through a 32-bit `int`) |
| Vm.Create | adder/vm/vm.c:71-118 | `vm_create`: a size above the addressable maximum is refused; a created machine has the requested size, its heap starting where the stack ends, and both of its blocks were granted |
| Vm.CreateCorrectedFits | adder/vm/vm.c:71-118 | corrected, a created machine has a block of exactly 8 bytes per value, and the stack and the heap lie side by side within it |
| Vm.CreateAsWrittenUndersized | adder/vm/vm.c:71-118 | as written, a machine of `0x2000_0000` values is created on a block of zero bytes whenever `malloc(0)` gives a pointer: the byte count wrapped to 0 |
| Vm.Operand | adder/vm/vm.c:220-222 | `READ_U32` of a 32-bit operand: it succeeds exactly when the four bytes lie inside the code, giving the little-endian word; otherwise an out-of-bounds read |
| Vm.PushArgs | adder/vm/vm.c:192-205 | the loop of `vm_execute` pushing the entry arguments: its only failure is an out-of-bounds write |
| Vm.AsWrittenCycleAborts | adder/vm/vm.c:209-218 | as written no cycle gets past the `OP_OPCODE_COUNT == 37` assertion: every run with code at its position aborts there |
| Vm.CorrectedCycleDispatches | adder/vm/vm.c:209-219 | corrected, a cycle dispatches exactly the opcode at the code position, with the position moved past it |
| Vm.DispatchesOperands | adder/vm/vm.c:219-555 | an opcode with operands is dispatched to its operand case |
| Vm.CallPushesNextInstruction | adder/vm/vm.c:347-353 | `OP_CALL` pushes the position after its operand as the return position and jumps to the operand, the rest of the stack kept; with an exact number codec that position reads back from the pushed number |
| Vm.UnhandledOpcodeExits | adder/vm/vm.c:552-556 | the `default` case: every opcode without a case of its own ends the run with -1003, the position moved past it |
| Vm.SelfJumpExhausts | adder/vm/vm.c:209-564 | a jump to itself exhausts any budget: the run ends with -1004 at the jump, the stack untouched |
| Vm.SelfJumpSteps | adder/vm/vm.c:325-328 | a jump to itself comes back to exactly the state it left |
| Vm.StartedLayout | adder/vm/vm.c:186-205 | the start of a run: the code at 0, no frame, exactly the entry arguments live on the stack, and the rest of the stack region zeroed |
| Vm.PushArgsLayout | adder/vm/vm.c:192-205 | the argument loop from `i`: the arguments from `i` on are pushed above the first `i` stack words, which are kept |
| Vm.EntryIsCall | adder/vm/vm.c:160-168 | `vm_select_entry_point` enters at a `MAKE_FRAME` exactly as a call from return position -1 |
| Vm.EntryFrameExits | adder/vm/vm.c:354-395 | the frame built by the entry `MAKE_FRAME` has return position -1, so a return from it ends the run |
| Vm.ReturnsToMinusOne | adder/vm/vm.c:396-416 | a frame word holding the number -1 as its return position gives -1 back |
| Vm.EmptyProgramAsWrittenReadsPastEnd | adder/vm/vm.c:160-218 | as written, an empty program entered at address 0 passes the entry assertion and has its first opcode read past the end of the code |
| Vm.EmptyProgramCorrectedEnds | adder/vm/vm.c:160-564 | corrected, an empty program entered at address 0 runs no cycle and ends with -1004, the arguments left on the stack |
| Vm.Cycle | adder/vm/vm.c:209-219 | one cycle of the loop of `vm_execute` on the machine: the outcome and the state reached are exactly those of `Step` |
| Vm.DispatchOp | adder/vm/vm.c:219-556 | the `switch` of `vm_execute` on the machine: outcome and state exactly those of `Dispatch` |
| Vm.PlainOp | adder/vm/vm.c:226-324 | the cases without operands on the machine: outcome and state exactly those of `PlainStep` |
| Vm.OperandOp | adder/vm/vm.c:325-556 | the cases with operands on the machine: outcome and state exactly those of `OperandStep` |
| Vm.LocalOp | adder/vm/vm.c:354-543 | the frame, local and iterator cases on the machine: outcome and state exactly those of `OperandStep` |
| Vm.Loop | adder/vm/vm.c:209-564 | the fetch loop of `vm_execute`, one cycle of the budget at a time: outcome and state exactly those of `Run` |
| Vm.Clear | adder/vm/vm.c:191-191 | the `memset` of the stack region on the machine: succeeds exactly when `Cleared` does, leaving its state |
| Vm.PushArgsOn | adder/vm/vm.c:192-205 | the argument loop on the machine: succeeds exactly when `PushArgs` does, leaving its state |
| Vm.Select | adder/vm/vm.c:160-168 | `vm_select_entry_point` on the machine: outcome and state exactly those of `SelectEntry` |
| Vm.Execute | adder/vm/vm.c:170-565 | `vm_execute` on the machine and its environment: outcome and state exactly those of `ExecuteSpec` |
| VmCall.EntryFailure | adder/vm/vm_call.c:36-72 | the failure `vm_call_set_entry` logs: a NULL program exactly when there is no program, an invalid index exactly when the index lies outside the exports |
| VmCall.Logged | adder/vm/vm_call.c:36-72 | the append to the message buffer: the failure added while there is room, ignored when the buffer is full |
| VmCall.Call.constructor | adder/vm/vm_call.c:7-12 | `vm_call_init`: everything zero except the program and an entry address of -1 |
| VmCall.Call.SetArg | adder/vm/vm_call.c:14-20 | `vm_call_set_arg`: true exactly for an index below the argument count, which alone is written; otherwise nothing changes |
| VmCall.Call.SetArgCount | adder/vm/vm_call.c:22-29 | `vm_call_set_arg_count`: true exactly when the count is below the array size, and then the count is set; nothing else changes |
| VmCall.Call.SetEntryUnchecked | adder/vm/vm_call.c:31-34 | `vm_call_set_entry_unchecked`: the entry address and argument count set, nothing else changed |
| VmCall.Call.SetEntry | adder/vm/vm_call.c:36-72 | `vm_call_set_entry`: true exactly when the checks of `EntryOk` pass, and then the entry is the export address with its type argument count; otherwise the entry stays and the failure is logged |
| VmCall.Call.LookupEntry | adder/vm/vm_call.c:74-96 | `vm_call_lookup_entry`: fails exactly when the name does not fit an `sstr`; otherwise true exactly when the export `FindEntry` picks passes the checks, and then the entry is set from it; otherwise the entry stays |
| VmCall.Call.Validate | adder/vm/vm_call.c:98-118 | `vm_call_validate`: true exactly when there is a program and the argument count equals the entry count; otherwise the NULL program or the count mismatch is logged; nothing else changes |
| VmCall.EntryAgreesWithGetEntryPoint | adder/vm/vm_call.c:36-72 | setting the entry by name agrees with `program_get_entry_point`: the export found passes the checks of `vm_call_set_entry` exactly when `program_get_entry_point` returns an entry, and with the same address and argument count |
| VmCore.I32 | adder/vm/vm.c:354-395 | an integer stored into a C `int`: in the signed 32-bit range, congruent to it modulo 2^32, and itself when it fits |
| VmCore.U32 | adder/vm/vm.c:354-395 | an integer stored into a `uint32_t`: in the unsigned 32-bit range, congruent to it modulo 2^32, and itself when it fits |
| VmCore.ShiftArgs | adder/vm/vm.c:374-380 | the loop of `MAKE_FRAME` moving the arguments up one slot: its only failure is an out-of-bounds write |
| VmCore.ZeroLocals | adder/vm/vm.c:387-391 | the loop of `MAKE_FRAME` zeroing the locals: its only failure is an out-of-bounds write |
| VmCore.PopDrops | adder/vm/vm.c:226-231 | `POP_1` and `POP_2` drop exactly the top one or two live values, memory, frame and position untouched |
| VmCore.Dup1Copies | adder/vm/vm.c:309-312 | `DUP_1` goes on exactly when there is a top and room above it, and then pushes a copy of the top, nothing else changed |
| VmCore.Dup2Copies | adder/vm/vm.c:313-318 | `DUP_2` goes on exactly when there are two values and room for two more, and then pushes copies of both in order |
| VmCore.Rot2Swaps | adder/vm/vm.c:319-324 | `ROT_2` goes on exactly when there are two values, and then swaps exactly those two |
| VmCore.ShiftArgsMoves | adder/vm/vm.c:374-380 | the argument loop moves exactly `count` values up one slot and leaves every other word |
| VmCore.ZeroLocalsZeroes | adder/vm/vm.c:387-391 | the local loop zeroes exactly the words from `base + i` up to `base + n` and leaves the rest |
| VmCore.FrameWordDecodes | adder/vm/vm.c:368-382 | the word `val_frame` makes is tagged as a frame and decodes to the frame it was made from |
| VmCore.PlaceFrameWords | adder/vm/vm.c:374-395 | placing a frame that fits the memory succeeds and leaves every word as `Framed` says |
| VmCore.PlaceFrameLayout | adder/vm/vm.c:374-395 | placing a frame over the arguments: the frame word takes the first argument slot and becomes current, the arguments follow it in order, then the zeroed locals, and the top is the last local |
| VmCore.MakeFrameLayout | adder/vm/vm.c:354-395 | `MAKE_FRAME`: the return position on top is consumed, the frame word takes the first argument slot and becomes current, the arguments follow it in order, then zeroed locals; the position moves past both operands and memory above the top is kept |
| VmCore.MakeFramePlaces | adder/vm/vm.c:354-395 | `MAKE_FRAME` is exactly: pop the return position, then place the frame where the first argument was |
| VmCore.PrevFrameNearest | adder/vm/vm.c:421-430 | the frame search of a return finds the nearest frame word at or below `i`, or -1 when there is none |
| VmCore.ReturnRestores | adder/vm/vm.c:432-482 | `RETURN_VALUE` from a frame with a non-negative return position: the frame and all above it dropped, the old top value pushed back exactly when it lay above the arguments and locals, the code resuming at the return position |
| VmCore.ReturnExits | adder/vm/vm.c:432-456 | outside a frame, or with a negative return position, a return ends the run with the top value, or none on an empty stack, the top reset as the flag says |
| VmCore.AdvanceSteps | adder/vm/vm.c:526-543 | `ITER_NEXT` advances an iterator to the next memory index and counts one element off |
| VmCore.IterNextSteps | adder/vm/vm.c:526-543 | `ITER_NEXT`: an exhausted iterator is popped and the code jumps to the exit; otherwise the advanced iterator stays in place and the element it was at is pushed above it |
| VmCore.CallThenFrame | adder/vm/vm.c:347-395 | `OP_CALL` followed by the callee `MAKE_FRAME`: the frame sits where the first argument was, records the pushed return position and both counts, and its top is the last local |
| VmCore.CallThenFramePlaced | adder/vm/vm.c:347-395 | the frame word `OP_CALL` and `MAKE_FRAME` write holds the pushed return position, as the codec gives it back |
| VmCore.CallThenFrameBelow | adder/vm/vm.c:347-395 | `OP_CALL` and the callee `MAKE_FRAME` leave the stack below the arguments as it was |
| VmCore.CallFrameReturn | adder/vm/vm.c:347-482 | a call, the callee `MAKE_FRAME` and a return with nothing above the locals: the code resumes at the pushed return position, the arguments are gone, and the stack below them is as before the call |
| VmCore.Machine.constructor | adder/vm/vm.c:71-118 | the block laid out as `vm_create` does: the stack from 0, the heap from `stackSize`, the stack empty and the position 0 |
| VmCore.Machine.Pop | adder/vm/vm.c:226-231 | `POP_1` and `POP_2` on the machine: outcome and state exactly those of `PopSpec` |
| VmCore.Machine.Dup1 | adder/vm/vm.c:309-312 | `DUP_1` on the machine: outcome and state exactly those of `Dup1Spec` |
| VmCore.Machine.Dup2 | adder/vm/vm.c:313-318 | `DUP_2` on the machine: outcome and state exactly those of `Dup2Spec` |
| VmCore.Machine.Rot2 | adder/vm/vm.c:319-324 | `ROT_2` on the machine: outcome and state exactly those of `Rot2Spec` |
| VmCore.Machine.Logic | adder/vm/vm.c:295-304 | `AND` and `OR` on the machine: outcome and state exactly those of `LogicSpec` |
| VmCore.Machine.Not | adder/vm/vm.c:305-308 | `NOT` on the machine: outcome and state exactly those of `NotSpec` |
| VmCore.Machine.JumpIfFalse | adder/vm/vm.c:329-336 | `JUMP_IF_FALSE` on the machine: outcome and state exactly those of `JumpIfFalseSpec` |
| VmCore.Machine.Call | adder/vm/vm.c:347-353 | `OP_CALL` on the machine: outcome and state exactly those of `CallSpec` |
| VmCore.Machine.PushConst | adder/vm/vm.c:220-225 | `PUSH_VALUE` on the machine: outcome and state exactly those of `PushConstSpec` |
| VmCore.Machine.StoreLocal | adder/vm/vm.c:483-488 | `STORE_LOCAL` on the machine: outcome and state exactly those of `StoreLocalSpec` |
| VmCore.Machine.LoadLocal | adder/vm/vm.c:489-494 | `LOAD_LOCAL` on the machine: outcome and state exactly those of `LoadLocalSpec` |
| VmCore.Machine.ArrayLength | adder/vm/vm.c:512-516 | `ARRAY_LENGTH` on the machine: outcome and state exactly those of `ArrayLengthSpec` |
| VmCore.Machine.MakeIter | adder/vm/vm.c:517-525 | `MAKE_ITER` on the machine: outcome and state exactly those of `MakeIterSpec` |
| VmCore.Machine.IterNext | adder/vm/vm.c:526-543 | `ITER_NEXT` on the machine: outcome and state exactly those of `IterNextSpec` |
| VmCore.Machine.IterStep | adder/vm/vm.c:526-543 | `ITER_NEXT` on an iterator with elements left: outcome and state exactly those of `IterNextSpec` |
| VmCore.Machine.ShiftUp | adder/vm/vm.c:374-380 | the argument-moving loop of `MAKE_FRAME` on the machine: succeeds exactly when `ShiftArgs` does, leaving its state |
| VmCore.Machine.ZeroUp | adder/vm/vm.c:387-391 | the local-zeroing loop of `MAKE_FRAME` on the machine: succeeds exactly when `ZeroLocals` does, leaving its state |
| VmCore.Machine.MakeFrame | adder/vm/vm.c:354-395 | `MAKE_FRAME` on the machine: outcome and state exactly those of `MakeFrameSpec` |
| VmCore.Machine.Place | adder/vm/vm.c:374-395 | the frame placement of `MAKE_FRAME` on the machine: outcome and state exactly those of `PlaceFrame` |
| VmCore.Machine.FindFrame | adder/vm/vm.c:471-480 | the loop finding the frame to return to: exactly `PrevFrame` from the top, top and position untouched |
| VmCore.Machine.Return | adder/vm/vm.c:432-482 | `RETURN_VALUE` on the machine: outcome and state exactly those of `ReturnSpec` |
| VmCore.Machine.ReturnExit | adder/vm/vm.c:441-456 | a return with no frame to go back to: outcome and state exactly those of `ReturnSpec`, the run ending with the top value |
| VmCore.Machine.Resume | adder/vm/vm.c:457-482 | a return into the caller frame: outcome and state exactly those of `ResumeSpec` |
| VmCore.Machine.Unwind | adder/vm/vm.c:457-470 | everything a return does before the frame search: succeeds exactly when `Unwound` does, leaving its state, and fails only out of bounds |
| VmCore.Machine.ReturnNothing | adder/vm/vm.c:396-431 | `RETURN_NOTHING` on the machine: outcome and state exactly those of `ReturnNothingSpec` |
| VmEnv.Env.constructor | adder/vm/vm_env.c:8-10 | `vm_env_init`: everything zero |
| VmEnv.Env.Reset | adder/vm/vm_env.c:24-27 | `vm_env_reset`: the arrays freed and everything zeroed, not ready |
| VmEnv.Env.IsReady | adder/vm/vm_env.c:29-31 | `vm_env_is_ready`: exactly the ready flag |
| VmEnv.Env.Setup | adder/vm/vm_env.c:33-116 | `vm_env_setup`: without an FFI ready exactly when the program imports nothing; with one ready exactly when every import resolves by name to a definition of the same type, each import then bound to that definition handle and argument count; on failure the environment is reset |
| VmEnv.OwnExportsResolve | adder/vm/vm_env.c:33-116 | a program importing exactly the host definitions, with unique names and well-formed types, binds: import `i` resolves to definition `i` |
| VmMsgBuffer.MsgBuffer.constructor | adder/vm/vm_msg_buffer.h:9-13 | the storage `vm_msg_buffer_init` fills: room for `VM_MSG_BUFFER_MSG_MAX_COUNT` messages, none stored |
| VmMsgBuffer.MsgBuffer.Init | adder/vm/vm_msg_buffer.h:9-13 | `vm_msg_buffer_init`: succeeds exactly when the title fits an `sstr`; then that title, no messages and every slot zeroed |
| VmMsgBuffer.MsgBuffer.Append | adder/vm/vm_msg_buffer.h:15-19 | `vm_msg_buffer_append`: ignored when full; otherwise the message lands at index `count`, the count raised, the earlier messages and the title kept |
| VmMsgBuffer.MsgBuffer.Clear | adder/vm/vm_msg_buffer.h:33-35 | `vm_msg_buffer_clear`: no messages, the title kept |
| StackChecks.ArgCountVerdict | adder/vm/vm_validate.h:42-53 | `validation_check_stack_arg_count`: the stack must hold at least `nargs` values |
| StackChecks.ArgTypesFromMeaning | adder/vm/vm_validate.h:55-79 | the typed comparison passes exactly when every remaining argument has its type; a failure names the first argument that does not, after arguments that all did; and on a stack whose top is a stored index nothing aborts |
| StackChecks.ArgsVerdictMeaning | adder/vm/vm_validate.h:55-79 | `validation_check_stack_args` passes exactly when the stack holds the arguments and each has its expected type; it fails with the count when the stack is too short, and never aborts on a stack within its bounds |
| StackChecks.CheckStackArgs | adder/vm/vm_validate.h:55-79 | the loop of `validation_check_stack_args` |
| StackChecks.StackVerdict | adder/vm/vm_validate.h:81-111 | `validation_check_stack`: the top must lie in `[-1, size)`, and the stack must reach past the current frame's arguments and locals. Without a frame (`frame < 0`) the check passes here; `frameRequired` is the variant of `gvm/gvm_validate.h`, which fails instead |
| VmValidate.LocalVerdict | adder/vm/vm_validate.h:160-181 | the check of `OP_STORE_LOCAL` and `OP_LOAD_LOCAL`: the index must lie in `[0, args + locals)` of the current frame. Reading the frame outside the stack, or the operand outside the code, aborts |
| VmValidate.PreVerdict | adder/vm/vm_validate.h:113-197 | `validation_pre_exec`'s verdict: after `OP_CALL` only `OP_MAKE_FRAME` may run; otherwise each opcode's arguments are checked by count, by type, or (local access) by index, and any other opcode passes |
| VmValidate.PostVerdict | adder/vm/vm_validate.h:199-249 | `validation_post_exec`'s verdict: the stack check for the listed opcodes, nothing for the rest |
| VmValidate.PreCheck | adder/vm/vm_validate.h:113-197 | the branches of `validation_pre_exec` that decide its verdict |
| VmValidate.Validation.constructor | adder/vm/vm_validate.h:27-34 | `validation_init` (allocation failure is not modelled): zeroed, so the last opcode reads as `OP_HALT` |
| VmValidate.Validation.PreExec | adder/vm/vm_validate.h:113-197 | `validation_pre_exec`: the verdict of `PreVerdict` on the previous opcode; then the opcode is recorded and the counter advanced (wrapping at 32 bits), also when the check failed, whose message is kept |
| VmValidate.Validation.PostExec | adder/vm/vm_validate.h:199-249 | leaves exactly the outcome the function `Ok` gives (`validation_post_exec`: the verdict of `PostVerdict`; a failure's message is kept) |
| AdderGvmEnv.HashStep | adder/vm/src/gvm_env.c:27-29 | one step of the hash loop: `hash_code += (hash_code + c) * 7919U` in `uint` arithmetic with `c` a signed C `char`, so the result is below 2^32 |
| AdderGvmEnv.KeyOf | adder/vm/src/gvm_env.c:22-33 | the value `str_hash` returns for the C string `key` |
| AdderGvmEnv.StrHash | adder/vm/src/gvm_env.c:22-33 | `str_hash`: the length is `strnlen(key, maxLen - 1)` and the loop runs over that many characters |
| AdderGvmEnv.CLenOfPrefix | adder/vm/src/gvm_env.c:24-24 | a prefix free of NUL that stops at a NUL, at the end of the string or at the bound is the `strnlen` |
| AdderGvmEnv.StrHashPrefix | adder/vm/src/gvm_env.c:22-33 | the hash and the compared length depend only on the first `maxLen - 1` characters of the key |
| AdderGvmEnv.ValHash | adder/vm/src/gvm_env.c:35-53 | `val_hash` for the characters of a name value: the length is capped at `maxLen - 1`, the characters are copied to the reused buffer, and the hash loop is the one of `str_hash` |
| AdderGvmEnv.ValHashAgrees | adder/vm/src/gvm_env.c:35-53 | for a name free of NUL no longer than the bound, `val_hash` and `str_hash` agree on length and hash |
| AdderGvmEnv.Probe | adder/vm/src/gvm_env.c:56-58 | the slot looked at on probe `i` from `start` |
| AdderGvmEnv.ProbeInjective | adder/vm/src/gvm_env.c:56-58 | two probes of one search within a round look at different slots |
| AdderGvmEnv.InsertProbe | adder/vm/src/gvm_env.c:55-71 | the insertion loop from probe `i` on |
| AdderGvmEnv.LookupProbe | adder/vm/src/gvm_env.c:85-95 | the lookup loop from probe `i` on: every probed slot is compared, in use or not |
| AdderGvmEnv.InsertProbeFull | adder/vm/src/gvm_env.c:55-71 | the insertion finds no place exactly when every probed slot is in use with a key that does not match |
| AdderGvmEnv.LookupProbeMeaning | adder/vm/src/gvm_env.c:85-95 | a lookup gives the first probed slot whose key matches, and nothing exactly when no slot's key matches |
| AdderGvmEnv.StrNEqualCut | adder/vm/src/gvm_env.c:64-64 | a string cut to `n` characters agrees with itself on those `n` |
| AdderGvmEnv.StrNEqualOwnPrefix | adder/vm/src/gvm_env.c:64-64 | a prefix is `strncmp`-equal to the string it was cut from |
| AdderGvmEnv.InsertThenLookup | adder/vm/src/gvm_env.c:55-95 | after an insertion into the free slot `idx`, the lookup of any key with the same hash, length and compared characters reaches that slot: every slot probed before it was in use with a key that did not match |
| AdderGvmEnv.FuncTable.Insert | adder/vm/src/gvm_env.c:55-71 | `env_table_insert`: the first free slot on the probe sequence takes the key's first `len` characters, the value and the in-use mark; a slot in use whose key matches (the duplicate), or a full round, rejects it |
| AdderGvmEnv.FuncTable.Lookup | adder/vm/src/gvm_env.c:85-95 | `env_table_lookup`: the first probed slot, in use or not, whose key matches on the first `len` characters |
| AdderGvmEnv.FuncTable.AddNativeFunc | adder/vm/src/gvm_env.c:97-103 | `env_add_native_func`: the name's `str_hash`, inserted with its argument count and function |
| AdderGvmEnv.NativeFuncTarget | adder/vm/src/gvm_env.c:105-128 | the lookup part of `env_native_func_call`: the name value's characters must number between 1 and `maxLen - 1` (the assert), they are hashed by `val_hash` and looked up; an absent name gives argument count 0 and no function |
| AdderGvmEnv.AddedIsCalled | adder/vm/src/gvm_env.c:97-128 | a function added under a name free of NUL and shorter than the bound is what a call by a name value of the same characters reaches, as long as the table is not changed in between |
| AdderLexer.ScanCharTypeTable | adder/compiler/inc/compiler/gvm_lexer.h:23-44 | a listed character gets exactly its own category; every other character gets none |
| AdderLexer.ScanCharTypeSingle | adder/compiler/inc/compiler/gvm_lexer.h:23-44 | the category of a single character is at most one bit, within the character-type bits |
| AdderLexer.ScanClasses | adder/compiler/inc/compiler/gvm_lexer.h:46-61 | the class bits of `lexer_scan`: letter, number and space exactly for their classes, symbolic exactly for the other characters in 33..126, so never more than one of them; the character type is kept unchanged |
| AdderLexer.MatchMeaning | adder/compiler/inc/compiler/gvm_lexer.h:63-83 | `LP_IS` is overlap and `LP_IS_NOT` is disjointness |
| AdderTokenizer.ClassBitsMeaning | adder/gvm_tokenizer.c:243-266 | a class bit of the lexer means its character class |
| AdderTokenizer.CharBitsMeaning | adder/gvm_tokenizer.c:243-266 | a single-character bit of the lexer means that character |
| AdderTokenizer.MixedBitsMeaning | adder/gvm_tokenizer.c:260-264 | the mixed predicates of the word and number rules mean their classes |
| AdderTokenizer.LexMeaning | adder/gvm_tokenizer.c:243-266 | every predicate of the tokenizer accepts exactly its class |
| AdderTokenizer.RunEnd | adder/gvm_tokenizer.c:64-71 | where a sweep stops: the first place from `c` whose character is not in the class, or the end of the text |
| AdderTokenizer.RunEndMeaning | adder/gvm_tokenizer.c:64-71 | the run holds only characters of the class, and what stops it is not one |
| AdderTokenizer.LexerMatchClass | adder/gvm_tokenizer.c:73-78 | `lexer_match(lex, lexer_scan(ch))` for the predicate of a class: the class's test |
| AdderTokenizer.RunEndStep | adder/gvm_tokenizer.c:64-71 | a run that goes on at `c` ends where the run from `c + 1` ends |
| AdderTokenizer.MatchCursor | adder/gvm_tokenizer.c:73-78 | `match_cursor`: a character at the cursor, in the class |
| AdderTokenizer.MatchCursorAndNextClass | adder/gvm_tokenizer.c:80-86 | `match_cursor_and_next` on the predicates of two classes: two characters from the cursor, in the classes |
| AdderTokenizer.SymbolicLen | adder/gvm_tokenizer.c:181-198 | the length of a symbol token: two for those pairs, one otherwise |
| AdderTokenizer.GetSymbolicTokenLen | adder/gvm_tokenizer.c:181-198 | `get_symbolic_token_len`: the arrow test, then the comparison test, else one character |
| AdderTokenizer.SweepWhile | adder/gvm_tokenizer.c:64-71 | `sweep_while`: from `start` (the cursor plus the offset), the length of the run of the class. The character at the end of the text is read as the terminator, which no class test of a sweep accepts |
| AdderTokenizer.LookupMeaning | adder/gvm_tokenizer.c:139-151 | with distinct keys every key finds its own value, and a word that is no key finds nothing |
| AdderTokenizer.LookupHeld | adder/gvm_tokenizer.c:139-151 | a looked-up value is one the map holds |
| AdderTokenizer.AlphaKeywordKinds | adder/gvm_tokenizer.c:119-151 | an identifier in the keyword map takes the mapped kind (`true` and `false` are booleans, `not`/`and`/`or` operators, the rest keywords); any other identifier is a symbol |
| AdderTokenizer.SymbolicKeywordKinds | adder/gvm_tokenizer.c:153-210 | a symbol in the symbol map takes the mapped kind; any other symbol is a plain symbol |
| AdderTokenizer.KindOfAvoids | adder/gvm_tokenizer.c:139-151 | a kind the map does not hold, other than a plain symbol, is never what a word becomes |
| AdderTokenizer.StallMeaning | adder/gvm_tokenizer.c:238-282 | every round moves the cursor forward, except at a character that is neither whitespace nor printable (33..126), where no rule applies |
| AdderTokenizer.AnalysisEnds | adder/gvm_tokenizer.c:238-282 | a run that ends without an abort ends at or past the end of the text, or on a stall |
| AdderTokenizer.StepLayout | adder/gvm_tokenizer.c:243-256 | a round makes a space token only with `spaces` and a comment token only with `comments` |
| AdderTokenizer.FlagsKeepOut | adder/gvm_tokenizer.c:243-256 | without the flags no space and no comment token is made: those runs are skipped |
| AdderTokenizer.TokensKeptOut | adder/gvm_tokenizer.c:223-256 | with the maps the state is created with, the flags alone decide whether space and comment tokens appear |
| AdderTokenizer.SpaceRule | adder/gvm_tokenizer.c:243-249 | at whitespace the space rule applies: a token of the whole run exactly when spaces are kept |
| AdderTokenizer.CommentRule | adder/gvm_tokenizer.c:250-256 | at `//` the comment rule applies: a token up to and one past the end of the line when comments are kept; otherwise the line is skipped, except that as written an empty comment fails the assertion of progress |
| AdderTokenizer.EmptyCommentAborts | adder/gvm_tokenizer.c:106-117 | an empty comment in a text tokenized without comments: as written the assertion of `sweep_discard_token` fails; corrected the line is skipped |
| AdderTokenizer.Tokenizer.constructor | adder/gvm_tokenizer.c:223-292 | the state `tokenizer_analyze` starts from: the cursor at 0 and the two maps created |
| AdderTokenizer.Tokenizer.SweepMakeToken | adder/gvm_tokenizer.c:88-104 | `sweep_make_token`: the cursor moves to the end of the run plus `trailing`, and the token covers exactly that from the old cursor, with the given type |
| AdderTokenizer.Tokenizer.SweepDiscardToken | adder/gvm_tokenizer.c:106-117 | `sweep_discard_token`: the run plus `trailing` skipped, or, when the sweep made no progress, the assertion fails and the cursor stays |
| AdderTokenizer.Tokenizer.LookupAlphaToken | adder/gvm_tokenizer.c:139-151 | `lookup_alpha_token`: the cursor moves past the word run, and the token covers that word, typed by the keyword map |
| AdderTokenizer.Tokenizer.LookupSymbolicToken | adder/gvm_tokenizer.c:200-210 | `lookup_symbolic_token`: the cursor moves by the symbol length (one or two), and the token covers those characters, typed by the symbol map |
| AdderTokenizer.Tokenizer.Round | adder/gvm_tokenizer.c:223-292 | one round of the loop of `tokenizer_analyze`: the collection and the cursor follow exactly the first rule that applies (`StepAt`) |
| AdderTokenizer.Tokenizer.LayoutRound | adder/gvm_tokenizer.c:243-256 | the space and comment rules: the collection and the cursor follow `StepAt`, a token when the flag keeps them, the run skipped otherwise |
| AdderTokenizer.Tokenizer.TokenRound | adder/gvm_tokenizer.c:257-267 | the string, number, word and symbol rules, at a character that starts neither a space nor a comment: the collection and the cursor follow `StepAt` |
| AdderTokenizer.StallRef | adder/gvm_tokenizer.c:216-221 | corrected, the reference a stall report names is the rest of the text from the cursor, exactly its characters; as written it is `get_current_srcref` |
| AdderTokenizer.StallRefAsWrittenRunsPast | adder/gvm_tokenizer.c:271-281 | `abc` followed by DEL stalls at 3, and the as-written report names three characters from there, running past the terminator; corrected it names the one remaining character |
| AdderTokenizer.StallRefAsWrittenPastTerminator | adder/gvm_tokenizer.c:216-221 | from any cursor past 2 the as-written reference ends past the terminator, the corrected one at the end of the text |
| AdderTokenizer.ReportStall | adder/gvm_tokenizer.c:271-281 | a stalled round: the result becomes `R_ERR_TOKEN` located at the stall reference of the reading, and the message requested is the stall text followed by that reference's characters |
| AdderTokenizer.Analyze | adder/gvm_tokenizer.c:223-292 | `tokenizer_analyze`: `TT_INITIAL`, the tokens of the rounds of `Analysis`, and `TT_FINAL` at the final cursor are appended; the result is ok unless it was in error before or a round stalled, which is reported as `R_ERR_TOKEN` at the cursor; an aborted assertion is returned as such |
| AdderTokenizer.Rounds | adder/gvm_tokenizer.c:238-282 | the loop of `tokenizer_analyze`: the tokens appended, the final cursor, the abort and the ok flag are exactly those of `Analysis` from the current cursor |
| AdderTokenizer.Turn | adder/gvm_tokenizer.c:240-281 | the body of the loop: a round, then the stall report exactly when the cursor did not move, keeping the whole run tracked |
| AdderTokenizer.TracksStep | adder/gvm_tokenizer.c:238-282 | one round keeps the whole run tracked: it aborts, stalls, or adds its token and moves on |
| AdderGvmEnv.FuncTable.constructor | adder/vm/src/gvm_env.c:11-14 | `env_init` on a zeroed table: no slot in use and every value empty |
| AdderTokenizer.MatchIsMinus | adder/gvm_tokenizer.c:181-198 | the minus test of `get_symbolic_token_len` accepts exactly `-` |
| AdderTokenizer.MatchIsGreaterThan | adder/gvm_tokenizer.c:181-198 | the greater-than test of `get_symbolic_token_len` accepts exactly `>` |
| AdderTokenizer.MatchIsEqual | adder/gvm_tokenizer.c:181-198 | the equals test of `get_symbolic_token_len` accepts exactly `=` |
| AdderTokenizer.MatchIsComparison | adder/gvm_tokenizer.c:181-198 | the comparison test of `get_symbolic_token_len` accepts exactly `=`, `<` and `>` |
| AdderTokenizer.AlphaWordsDistinct | adder/gvm_tokenizer.c:119-137 | the words `create_keyword_token_map` inserts are pairwise distinct |
| AdderTokenizer.SymbolicWordsDistinct | adder/gvm_tokenizer.c:153-179 | the words `create_symbolic_token_map` inserts are pairwise distinct |
| AdderTokenizer.AlphaNoLayout | adder/gvm_tokenizer.c:119-137 | the keyword map maps no word to a space or comment kind |
| AdderTokenizer.SymbolicNoLayout | adder/gvm_tokenizer.c:153-179 | the symbol map maps no word to a space or comment kind |
| AdderTokenizer.KeywordMapsNoLayout | adder/gvm_tokenizer.c:225-231 | neither map the tokenizer state is created with yields a space or comment kind |
| GvmTokenizer.AlphaWordsDistinct | gvm/gvm_tokenizer.c:118-133 | the words `create_keyword_token_map` inserts are pairwise distinct |
| GvmTokenizer.SymbolicWordsDistinct | gvm/gvm_tokenizer.c:149-170 | the words `create_symbolic_token_map` inserts are pairwise distinct |
| GvmTokenizer.AlphaNoLayout | gvm/gvm_tokenizer.c:118-133 | the keyword map maps no word to a space or comment kind |
| GvmTokenizer.SymbolicNoLayout | gvm/gvm_tokenizer.c:149-170 | the symbol map maps no word to a space or comment kind |
| GvmTokenizer.KeywordMapsNoLayout | gvm/gvm_tokenizer.c:209-216 | neither map the tokenizer state is created with yields a space or comment kind |
| CoHm.Inferrer.constructor | adder/compiler/co_hm.c:110-180 | an inferrer over exactly the given node store |
| RefcodeHm.Inferrer.constructor | adder/compiler/refcode/co_hm.c:279-282 | an inferrer over exactly the given node store |
| CoInfer.MtStore.constructor | adder/compiler/co_infer.c:169-227 | a well-formed store with no nodes and no messages |
| CoInfer.StrCmp | adder/compiler/co_infer.c:33-43 | the `strcmp` that `tyctx_binsearch` compares with, reduced to its sign: -1, 0 or 1 |
| CoInfer.MtCon.Value | adder/compiler/co_infer.c:177-201 | a constructor node read as a type: a constructor with the node's name and arguments |
| CoInfer.MtForall.Value | adder/compiler/co_infer.c:203-227 | a scheme node read as a scheme: the node's type and quantified variables |
| CoTrace.TraceMsg.constructor | adder/compiler/co_trace.h:42-59 | the message `trace_create_message` makes: the given kind, path and location, and an empty text |
| CoTypecheck.AllCheckMeaning | adder/compiler/co_typecheck.h:79-121 | the pairwise `kind_check` of two lists of the same length holds exactly when their shapes are equal |
| CoTyping.AnnotSig | adder/compiler/co_typing.c:55-80 | every signature `annotation_signature` gives stands for itself |
| CoTyping.BaseRoundTrip | adder/compiler/co_typing.c:55-80 | the annotation of a base type letter signs back to that letter |
| CoTyping.SignaturesNamingAgree | adder/compiler/co_typing.c:93-159 | for the elements of an array or block without declarations, the signatures with and without naming agree |
| CoTyping.Typing.constructor | adder/compiler/co_typing.c:291-295 | the typing state over the given context, with no messages |
| CoUtils.Realloc | adder/compiler/co_utils.c:26-37 | `realloc`: a fresh block of the new size whose first `keep` cells are those of the old block |
| CoUtils.CharValues | adder/compiler/co_utils.c:248-252 | one `val_char` per character, in order |
| GcHeap.WithMarkAt | adder/vm/vm_heap.c:15-19 | `put_mark` marks exactly the given heap index and leaves every other mark |
| GcHeap.TrailMaskAligned | adder/vm/vm_heap.c:196-204 | a chunk starting on a page boundary has its trailing mask window at bit 0 |
| GvmCompiler.Resized | gvm/gvm_compiler.c:139-164 | the `realloc` of `s2sim_ensure_capacity`: the new size, the old entries kept |
| GvmCompilerFacts.UnopGood | gvm/gvm_compiler.c:303-317 | `codegen_unop` keeps the compiler invariant: it only adds instructions and patches only its own |
| GvmCompilerFacts.ReturnGood | gvm/gvm_compiler.c:456-462 | the `AST_RETURN` case keeps the compiler invariant |
| GvmCompilerFacts.ItemsGood | gvm/gvm_compiler.c:463-468 | the block loop keeps the compiler invariant |
| GvmCompilerFacts.BinopGood | gvm/gvm_compiler.c:244-301 | `codegen_binop` keeps the compiler invariant |
| GvmCompilerFacts.ValueGood | gvm/gvm_compiler.c:319-349 | `codegen_value` keeps the compiler invariant |
| GvmCompilerFacts.ArrayGood | gvm/gvm_compiler.c:441-455 | the `AST_ARRAY` case keeps the compiler invariant |
| GvmCompilerFacts.AssignGood | gvm/gvm_compiler.c:381-402 | `codegen_assignment` keeps the compiler invariant |
| GvmCompilerFacts.IfGood | gvm/gvm_compiler.c:469-477 | the `AST_IF` case keeps the compiler invariant, its forward jump patched to an instruction of its own |
| GvmCompilerFacts.IfElseGood | gvm/gvm_compiler.c:478-493 | the `AST_IF_ELSE` case keeps the compiler invariant, both jumps patched within the construct |
| GvmCompilerFacts.ForeachGood | gvm/gvm_compiler.c:404-428 | `codegen_foreach` keeps the compiler invariant |
| GvmCompilerFacts.ForeachBodyGood | gvm/gvm_compiler.c:413-427 | the loop body and back jump of `codegen_foreach` keep the invariant from the state before `ITER_NEXT` |
| GvmCompilerFacts.FrameOpenedGood | gvm/gvm_compiler.c:351-368 | opening a function frame (`MAKE_FRAME` added, the locals map replaced) keeps the compiler invariant |
| GvmCompilerFacts.FunDeclGood | gvm/gvm_compiler.c:351-368 | `codegen_fundecl` keeps the compiler invariant |
| GvmCompilerFacts.FunBodyGood | gvm/gvm_compiler.c:351-368 | the body of `codegen_fundecl`, after its frame is opened, keeps the compiler invariant |
| GvmCompilerFacts.FunCallGood | gvm/gvm_compiler.c:370-379 | `codegen_funcall` keeps the compiler invariant |
| GvmEnv.Env.constructor | gvm/gvm_env.c:19-28 | the table before `env_init` fills it: well-formed and empty |
| GvmMemory.GlobalMemory.constructor | gvm/gvm_memory.c:12-16 | `global_memory_t` zero-initialised: no buffer counted, every slot unused with id 0 and an empty buffer of capacity 0 |
| GvmParser.TokensOrdered | gvm/gvm_parser.c:255-310 | the tokens of every text lie in source order |
| GvmParser.TokensFlushed | gvm/gvm_parser.c:255-310 | the scan of every text ends with no token pending |
| GvmTokenizerHeader.CollectorsAdvance | gvm/gvm_tokenizer.h:243-299 | each collector of a round leaves the cursor within the text and never moves it back |
| GvmTokenizerHeader.RoundAt | gvm/gvm_tokenizer.h:275-299 | a round of `tokenizer_analyze` leaves the cursor within the text and never moves it back |
| GvmTokenizerHeader.Tokenizer.constructor | gvm/gvm_tokenizer.h:275-299 | the state `tokenizer_analyze` starts from: the given text and the cursor at 0 |
| GvmValidate.OrderRunMeaningFrom | gvm/gvm_validate.h:115-211 | from any previous opcode and counter, a run passes the ordering rules exactly when it is ordered from there |
| GvmValue.Machine.constructor | gvm/gvm_value.h:112-119 | the two stores `array_get_ptr` selects between: the constants as given and a memory of the given size |
| ShIft.Unknown | adder/shared/sh_ift.c:40-45 | `ift_unknown`: a well-formed type of the single unknown tag |
| ShIft.FunctionEncodingSplit | adder/shared/sh_ift.c:109-122 | a function encoding is its tag, then the return type, the arguments and the end tag |
| ShIft.FunEndSkipsAll | adder/shared/sh_ift.c:124-145 | the scan of `ift_get_flat_size` passes over well-formed argument encodings without closing an open function |
| ShProgram.EntryPointVar.constructor | adder/shared/sh_program.c:235-243 | the entry point variable holds exactly the given entry point |
| ShValue.ConstAddrKind | adder/shared/sh_value.h:17-21 | an address made by `MEM_MK_CONST_ADDR` is a constant address, not a program one and not null |
| ShValue.ConstAddrIndex | adder/shared/sh_value.h:14-24 | `MEM_ADDR_TO_INDEX` of a constant address gives back the index masked to `MEM_MAX_ADDRESSABLE`, the index itself exactly when it fits |
| ShValue.ProgrAddrKind | adder/shared/sh_value.h:17-22 | an address made by `MEM_MK_PROGR_ADDR` is a program address, not a constant one and not null |
| ShValue.ProgrAddrIndex | adder/shared/sh_value.h:14-24 | `MEM_ADDR_TO_INDEX` of a program address gives back the index masked to `MEM_MAX_ADDRESSABLE`, the index itself exactly when it fits |
| ShValue.FramePc | adder/shared/sh_value.h:68-73 | the low 32 bits of the word `val_frame` makes are the return position |
| Text.LessIrreflexive | scripts/prototype_hindley_milner.py:149 | the string order `sorted` uses is irreflexive |
| Text.LessTrans | scripts/prototype_hindley_milner.py:149 | the string order `sorted` uses is transitive |
| Text.LessTotal | scripts/prototype_hindley_milner.py:149 | any two different strings are ordered one way |
| Text.LessAsymmetric | scripts/prototype_hindley_milner.py:149 | no two strings are ordered both ways |

## Left out

- GcHeap.FillPages: the assertion in the page-filling loop (adder/vm/vm_heap.c:191) becomes `Err(AssertFailed(..))`, and a write past the page table becomes `Err(OutOfBounds)`; the model does not capture what C does after a failed assertion compiled out with `NDEBUG`.
- GcHeap.MarkTrail: the trailing-page assertion (adder/vm/vm_heap.c:202) becomes `Err(AssertFailed(..))` in the same way.
- GcHeap.MarkSpan: an out-of-bounds mark becomes `Err(OutOfBounds)` instead of undefined behaviour.
- Every C `assert`, NULL dereference and out-of-bounds access throughout the model is likewise an `Abort` value (`AssertFailed`, `NullDereference`, `OutOfBounds`, `DivisionByZero`, `StackExhausted`) instead of a process abort or undefined behaviour, with the exception of character reads named in the next line.
- ShUtils.At: a read of a C string at or past its length gives a NUL character; at the length that is the terminator, beyond it C reads whatever memory follows. `CoUtils.Chars` reads through it, and so do the members that take characters of a source reference (`AdderTokenizer.ReportStall`, `AdderTokenizer.SweepWhile`, `CoCompiler.GenValue`'s quote test).
- HindleyMilner.TypeStore.Unify: Python's recursion limit is modelled by a `fuel` parameter, and running out gives `RecursionLimit`; the model does not say which depth the interpreter would reach.
- HindleyMilner.Freeze: the same fuel bound replaces Python's recursion limit.
- HindleyMilner.TypeStore.Infer: the same fuel bound replaces Python's recursion limit; Infer uses the corrected unification (self-link as a no-op) and the corrected generalisation (context variables resolved through their links), see "## Findings".
- HindleyMilner.TypeStore.Infer: the Python exceptions carry the type names in their messages (scripts/prototype_hindley_milner.py:109, 111 and 194); the model's error values carry bare kinds without the rendered types.
- HindleyMilner.TypeStore.Infer: the expected result `int` of the demonstration at the end of the prototype is not proved about the model; only the properties of the rules are.
- GcHeap.Heap.ArrayAlloc: requires `n >= 0`, while `vm_heap.c` takes a C `int` that the adder machine computes from a 32-bit unsigned count, so a count of 2^31 or more arrives negative; that wrap-around is not modelled.
- GcHeap.Targets: its ensures states only the length of the result.
- GvmGrid.Grid.Select: requires a caller's index buffer of at least width times height entries, which the C code assumes of its caller without checking.
- GvmParser.Parser.PushOnChange: the token array is a sequence that grows without bound; the growth of `tokens_push_token` to `size * 1.3` computed in `float` (gvm/gvm_parser.c:92-105), and its `realloc` failure, are not modelled.
- CoCres.Cres.MsgAdd: `CRES_MAX_MSG_LEN` is not defined anywhere in the repository, so the message capacity is the parameter `maxLen` of the constructor.
- CoUtils: `srcref_as_sstr` (adder/compiler/co_utils.c:384-391) is not modelled, because its bound `SSTR_MAX_LEN` is not defined anywhere in the repository.
- AdderGvmEnv.KeyOf: `GVM_ENV_NFUNC_NAME_MAX_LEN` is not defined in the headers, so the name bound is the parameter `maxLen`.
- Vm.Dispatch: the float opcodes, `OP_MAKE_ARRAY` and `OP_CALL_NATIVE` give `Unmodelled(op)`: float arithmetic and foreign calls are outside the model.
- Gvm.Dispatch: the vector and comparison opcodes `OP_MUL` to `OP_NEG` and `OP_CMP_EQUAL` to `OP_CMP_MORE_THAN`, `OP_MAKE_ARRAY` and `OP_CALL_NATIVE` give `Unmodelled(op)` for the same reason; `PRINT` is modelled as popping its operand, the printing itself is I/O.
- VmCore: the bit pattern of a float value is abstract, given as a pair of conversion functions; only integers of magnitude at most 2^24 are required to convert exactly.
- Vm.Create: `malloc` becomes a parameter `granted` that says which byte counts the allocator grants.
- Gvm.Create: `malloc` becomes the same `granted` parameter.
- GvmAsm.OperandsFrom: written as a recursive function where `gvm_asm.c` uses a loop, because the loop's invariant over the byte buffer was over the solver budget.
- GvmCompilerImpl.Compiler.constructor: the compiler holds its locals and functions maps as values of the map model, not as separately allocated `SrcIdxMap` objects, so aliasing between the two maps is not captured.
- Gvm.ListingRoundTrip: requires every instruction to be listable at its address.
- RefcodeInfer.Checker.TiInfer: the reference checker uses the node kinds `AST_VAR_DECL` and `AST_FUN_SIGN`, which the current AST enumeration lacks; the model adds them.
- GvmParser.Parser.Tokenize: the token record of gvm_types.h lacks the `index` field and the `TT_COMMENT` and `TT_VEC2` kinds that gvm_tokenizer.c uses; the model adds them.
- CoCompiler.GenValue: a number literal's constant is the exact decimal value `srcref_as_float` reads; its rounding to a 32-bit `float` is not modelled, so two different literals that round to the same `float` share one constant in C but not in the model.
- CoCompiler.GenValue: the string case uses the corrected length, so its array holds exactly the characters denoted; the as-written array is `CoCompiler.AppendStringAsWritten`, see "## Findings".
- CoCompiler.GenValue: the out-of-memory result of the constant buffer is not modelled; constants are an unbounded sequence.
- AdderTokenizer.ReportStall: as written the message copies characters past the end of the text; the model reads them as NUL characters instead of giving an `OutOfBounds` abort, because the bytes that follow a C string in memory are not part of the model; the overrun itself is exhibited in "## Findings".
- AdderTokenizer.CurrentRef: the reference of the final `TT_FINAL` token keeps the as-written length of `get_current_srcref`; it is stored, never read, so no access past the text follows from it.
- CoBty.OperandType: the operand type of a binary operator is chosen by the corrected subtype relation under both readings; the readings differ only on function operands, which are refused either way, possibly with a different message.
- CoTrace.Trace.OutOfMemoryError: when the block is full, the slot after the last message is retyped as an out-of-memory report as written, and the model keeps that behaviour.
- ShArena.Arena.Realloc: copies the bytes from `address` as they were before the allocation. In C the copied extent runs to the end of the old block's capacity, so when the new place lies in that same block `aalloc` has just zeroed part of the source and the overlapping `memcpy` is undefined; the model gives what `memmove` of a snapshot gives. The callers (for example adder/compiler/co_typing.c:201, adder/compiler/co_bty.c:324, adder/compiler/refcode/co_infer.c:49) read only the old prefix, which lies before the new place, so the bytes they use agree.

## Findings

| source | as written | input that shows it | evidently intended | confidence | as-written member | corrected member |
|---|---|---|---|---|---|---|
| scripts/prototype_hindley_milner.py:102-103 | `unify` of an unbound variable with itself links it to itself | unify `t` with `t`; or `g: T->T->bool` applied twice to the same `x` | unifying a variable with itself changes nothing | high, not executed | HindleyMilner.SelfLinkNeverResolves | HindleyMilner.TypeStore.Unify |
| adder/compiler/co_hm.c:26-29 | `hm_unify` links a variable end to the other end even when both ends are that same variable | unify `t` with `t` | unifying a variable with itself changes nothing | high, not executed | TypeGraph.SelfUnifyAsWrittenCycles | HmEngine.HmStore.Unify |
| adder/compiler/refcode/co_hm.c:115-118 | the reference copy of `hm_unify` has the same self-link | unify `t` with `t` | unifying a variable with itself changes nothing | high, not executed | TypeGraph.SelfUnifyAsWrittenCycles | HmEngine.HmStore.Unify |
| adder/compiler/co_infer.c:140-141 | `unify` connects a variable end to the other end even when both ends are that same variable | unify `t` with `t` | unifying a variable with itself changes nothing | high, not executed | TypeGraph.SelfUnifyAsWrittenCycles | CoInfer.MtStore.Unify |
| adder/compiler/refcode/co_infer.c:142-143 | the reference copy of `unify` has the same self-link | unify `t` with `t` | unifying a variable with itself changes nothing | high, not executed | TypeGraph.SelfUnifyAsWrittenCycles | CoInfer.MtStore.Unify |
| scripts/prototype_hindley_milner.py:139-149 | `generalize` compares the context's variables without following their links | `a1` linked to `t3` with `x: a1` in the context | a variable reachable from the context is never quantified | high, not executed | HindleyMilner.GeneralizeAsWrittenQuantifiesContextVariable | HindleyMilner.Generalize |
| adder/compiler/refcode/co_hm.c:17-23 | `hm_map_get` returns the first match, the outer binding | `x` bound twice | the innermost binding shadows the outer one | medium, not executed | RefcodeHm.FirstMatchMissesShadowing | RefcodeHm.HmMap.Lookup |
| adder/compiler/refcode/co_infer.c:293-303 | an unbound name is reported and its NULL scheme then dereferenced | a variable that is not in scope | report the name and stop | high, not executed | RefcodeInfer.Checker.TiVarAsWritten | RefcodeInfer.Checker.TiVar |
| adder/compiler/refcode/co_infer.c:33-43 | the search compares with `strncmp` over the query's length | key `xs` stored, query `x` | exact name match | high, not executed | CoInfer.PrefixSearchMatchesLongerName | CoInfer.BinSearchExact |
| adder/compiler/refcode/co_typing.c:260-269 | `ctx_infer` of an unknown key answers the key itself | a key with no pair | an unknown key is reported | medium, not executed | RefcodeTyping.AsWrittenNeverReports | RefcodeTyping.CorrectedReportsUnknown |
| adder/compiler/refcode/co_typing.c:575-576 | float `==` and `!=` have the signature float, float to float | `1.0 == 2.0` | comparisons give `bool` | medium, not executed | RefcodeTyping.FloatEqualityAsWritten | RefcodeTyping.FloatEqualityCorrected |
| adder/compiler/co_bty.c:213-228 | function argument types are compared in both directions by one test | `func(float)->int` against `func(bool)->int` | the ordering is antisymmetric | medium, not executed | CoBty.FuncArgsAsWritten | CoBty.CorrectedAntisymmetric |
| adder/compiler/co_utils.c:199-246 | the length of a quoted string counts an escape as two values | `"a\nb"` | the length counts the values written | high, not executed | CoUtils.QuotedLengthExceedsWritten | CoUtils.SequenceFromQuotedString |
| adder/compiler/co_compiler.c:304-308 | the string's array takes the length the copy reported, so it spans slots of the local buffer that were never written | `"a\nb"` | the array holds exactly the characters denoted | high, not executed | CoCompiler.StringArrayAsWrittenSpansUnwritten | CoCompiler.GenValue |
| adder/compiler/co_utils.c:393-397 | the prefix test compares only the reference's length | `ab` against the prefix `abc` | a text shorter than the prefix does not start with it | high, not executed | CoUtils.StartsWithAsWrittenMeaning | CoUtils.StartsWithMeaning |
| adder/compiler/co_utils.c:399-406 | the suffix test reads on past the end of the reference | `a.adr` inside `a.adr;` against `.adr` | compare the last characters of the reference only | high, not executed | CoUtils.EndsWithAsWrittenReadsPast | CoUtils.EndsWithMeaning |
| adder/compiler/co_parser.c:222-261 | the call look-ahead reads the token after the last | an expression that is the last token | look ahead only when a next token exists | high, not executed | CoParser.ExpressionAtLastAsWritten | CoParser.ExpressionAtLastCorrected |
| adder/compiler/co_parser.c:454-488 | the assignment look-ahead reads the token after the last | a statement starting on the last token | look ahead only when a next token exists | high, not executed | CoParser.StatementAtLastAsWritten | CoParser.StatementAtLastCorrected |
| adder/compiler/co_compiler.c:614-618 | a jump to the end of the code has no address entry | `main` holding a lone `if` | the address table has an entry for the end of the code | high, not executed | CoCompilerFacts.LoneIfMainRetarget | CoCompilerFacts.CorrectedNeverOutOfBounds |
| adder/vm/vm_heap.c:191-194 | the page-filling loop is bounded by `num_pages` from page zero | a 64-value array after a two-page array | every page of the new array is marked | high, not executed | GcHeap.FillFromPageZeroLosesPages | GcHeap.CorrectedPlacementSucceeds |
| adder/vm/vm_heap.c:145 | the trailing-page probe accepts a start whose last bit is marked | a 65-value array next to a mark in page 1 | the probe moves on to the next page | high, not executed | GcHeap.ProbePastTrailingPage | GcHeap.CorrectedPlacementSucceeds |
| adder/vm/vm_heap.c:46-49 | the marking recursion starts one value into the array | an array stored as the first value of another | scan every value of the array | medium, not executed | GcHeap.AdderScanSkipsFirstValue | GcHeap.WholeArrayScansEveryValue |
| gvm/gvm_heap.c:40-43 | the marking recursion starts one value in but scans `length` values | a live array followed by a stray value | scan exactly the values of the array | medium, not executed | GcHeap.GridScanReadsPastArray | GcHeap.WholeArrayScansEveryValue |
| adder/vm/vm.c:71-118 | the byte count of the stack and heap wraps in 32 bits | `0x2000_0000` values | refuse or allocate the full size | medium, not executed | Vm.CreateAsWrittenUndersized | Vm.CreateCorrectedFits |
| gvm/gvm.c:71-81 | the byte count of the stack and heap wraps in 32 bits | `0x1000_0000` values each | refuse or allocate the full size | medium, not executed | Gvm.CreateAsWrittenUndersized | Gvm.CreateCorrectedFits |
| adder/vm/vm.c:209-218 | the opcode-count assertion names a count the enumeration does not have | any program | the assertion matches the enumeration | high, not executed | Vm.AsWrittenCycleAborts | Vm.CorrectedCycleDispatches |
| adder/vm/vm.c:160-218 | an empty program has its first opcode read past the end | an empty program entered at 0 | an empty program ends at once | high, not executed | Vm.EmptyProgramAsWrittenReadsPastEnd | Vm.EmptyProgramCorrectedEnds |
| gvm/gvm.c:281-287 | the return position skips too few operand bytes | any call | return to the instruction after the call | high, not executed | Gvm.AsWrittenReturnLandsInOperand | Gvm.CallReturnPosition |
| gvm/gvm_asmutils.h:17-20 | `READ_U32` reads byte 1 three times | the four bytes of 256 | read the four bytes in order | high, not executed | GvmAsmUtils.ReadU32AsWrittenMisreads | ShUtils.ReadU32RoundTrip |
| gvm/gvm.c:259-262 | jump operands are read with the faulty `READ_U32` | a jump to 256 | jump to the written address | high, not executed | Gvm.JumpOperandMisread | Gvm.OperandsRead |
| gvm/gvm_memory.c:45-62 | a full buffer table gives id -1 and a NULL buffer, which is then written | every slot in use | report that no buffer is free | medium, not executed | GvmMemory.GlobalMemory.CreateAsWritten | GvmMemory.GlobalMemory.Create |
| gvm/gvm_utils.c:110-137 | the search walks the wrong list and misses the offset table | the list `"a"` at offset 1 | find the string through its offset | medium, not executed | GvmUtils.AsWrittenMissesOffsetList | GvmUtils.FindStringCorrected |
| gvm/gvm_compiler.c:139-164 | growing the map enlarges the slots but not the key block | a 16-slot map holding 12 keys | the key block grows with the slots | high, not executed | GvmCompilerFacts.GrowAsWrittenOverflows | GvmCompilerFacts.CorrectedInsertInBounds |
| gvm/gvm_compiler.c:372-373 | `codegen_funcall` asserts that the function lookup MISSED, then reads the index it gave | any call of a declared function | assert that the lookup found the function | high, not executed | GvmCompiler.FunCallAsWrittenNeverCompiles | GvmCompiler.GenFunCall |
| gvm/gvm_compiler.c:529-537 | the address table has no entry for the end of the code | a jump to just past the last instruction | one extra entry for the end | high, not executed | GvmCompilerFacts.EndJumpAsWritten | GvmCompilerFacts.CorrectedNeverOutOfBounds |
| gvm/gvm_asm.c:280 | an extra advance steps over the character after a string | `push "x"y` | refuse the stray symbol | medium, not executed | GvmAsm.AsWrittenScanSkipsStraySymbol | GvmAsm.CorrectedSecondPassEnds |
| gvm/gvm_parser.c:255-310 | a text opening with an invalid character tokenizes into nothing | `@` | report the invalid character | medium, not executed | GvmParser.AsWrittenAcceptsInvalidText | GvmParser.CorrectedRejectsInvalidText |
| gvm/gvm_tokenizer.c:172-189 | symbol words are cut before `==`, `<=` and `>=` can form | `a == b` | the comparison symbols are recognised | high, not executed | GvmTokenizer.AsWrittenComparisonsUnreachable | GvmTokenizer.CorrectedComparisonsReached |
| gvm/gvm_tokenizer.c:86-103 | an empty string makes an empty token, which the assertion refuses | `""` | one empty string token | high, not executed | GvmTokenizer.EmptyStringAborts | GvmTokenizer.StringRule |
| gvm/gvm_tokenizer.c:86-103 | an empty comment makes an empty token, which the assertion refuses | `//` directly followed by a newline | the comment is consumed | high, not executed | GvmTokenizer.EmptyCommentAborts | GvmTokenizer.CommentRule |
| adder/gvm_tokenizer.c:106-117 | an empty comment is discarded through an assertion that refuses it | `//` directly followed by a newline | the line is skipped | high, not executed | AdderTokenizer.EmptyCommentAborts | AdderTokenizer.CommentRule |
| adder/gvm_tokenizer.c:271-281 | the stall report names `get_current_srcref`, whose length is the last index of the text, and copies that many characters from the cursor | `abc` followed by DEL | name the rest of the text | high, not executed | AdderTokenizer.StallRefAsWrittenRunsPast | AdderTokenizer.StallRef |
| gvm/gvm_tokenizer.h:118-128 | the round at a string closing on the last character stops before the quote | a text ending in `"x"` | the closing quote is consumed | medium, not executed | GvmTokenizerHeader.RoundAtClosingStringAsWritten | GvmTokenizerHeader.RoundAtClosingStringCorrected |
