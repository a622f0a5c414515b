/**
 * `adder/vm/vm_env.c`: binding a program's imports to the host's native
 * exports. Every import must be supplied under an equal name with an equal
 * type; the environment then holds, per import, the supplied handle and the
 * argument count of the supplied type.
 *
 * `vm_env_t` and `ffi_t` are not declared in the headers of this revision.
 * The environment here holds what the file writes (`count`, `argcounts`,
 * `handles`, `isready`); the FFI is its `supplied` native exports, a
 * `ShFfi.NativeExports`, or `null`.
 */
module VmEnv {
  import opened ShIft
  import opened ShFfi
  import opened ShProgram

  /** An import is supplied: a definition of equal name exists and the first such has an equal type. */
  predicate Resolves(d: Definition, defs: seq<Definition>) {
    IndexOfName(defs, d.name, 0) >= 0 && TypeEquals(d.ty, defs[IndexOfName(defs, d.name, 0)].ty)
  }

  /** Every import is supplied. */
  predicate ImportsResolve(imports: seq<Definition>, defs: seq<Definition>) {
    forall i :: 0 <= i < |imports| ==> Resolves(imports[i], defs)
  }

  class Env {
    var count: int
    var argcounts: seq<int>
    var handles: seq<nat>
    var isready: bool

    /** `vm_env_init`: everything zero. */
    constructor ()
      ensures count == 0 && argcounts == [] && handles == [] && !isready
    {
      count, argcounts, handles, isready := 0, [], [], false;
    }

    /** `vm_env_reset`: `vm_env_destroy` frees both arrays, then `vm_env_init` zeroes everything. */
    method Reset()
      modifies this
      ensures count == 0 && argcounts == [] && handles == [] && !isready
    {
      argcounts, handles, count := [], [], 0;
      isready := false;
    }

    /** `vm_env_is_ready`. */
    method IsReady() returns (r: bool)
      ensures r == isready
    {
      return isready;
    }

    /**
     * `vm_env_setup`: the environment is reset first. Without an FFI it is
     * ready exactly when the program imports nothing. Otherwise every import
     * is looked up by name and its type compared, and one that is missing or
     * differs fails the setup; on success import `i` gets the handle and the
     * argument count of the supplied definition it resolved to.
     */
    method Setup(program: Program, ffi: NativeExports?) returns (ok: bool)
      requires ffi != null ==> ffi.Valid()
      modifies this
      ensures ffi == null ==> (ok <==> program.imports == [])
      ensures ffi != null ==> (ok <==> ImportsResolve(program.imports, ffi.defs))
      ensures !ok ==> count == 0 && argcounts == [] && handles == [] && !isready
      ensures ok ==> isready && count == |program.imports| && |handles| == |argcounts| == |program.imports|
      ensures ok && ffi != null ==> forall i :: 0 <= i < |program.imports| ==>
        var k := IndexOfName(ffi.defs, program.imports[i].name, 0);
        0 <= k < |ffi.defs| && handles[i] == ffi.handles[k] && argcounts[i] == ArgCount(ffi.defs[k].ty)
    {
      Reset();
      var imports := program.imports;
      if ffi == null {
        if |imports| == 0 {
          count, argcounts, handles := 0, [], [];
          isready := true;
          return true;
        }
        return false;
      }
      var missing := 0;
      var i := 0;
      while i < |imports|
        invariant 0 <= i <= |imports| && 0 <= missing
        invariant missing == 0 <==> forall j :: 0 <= j < i ==> Resolves(imports[j], ffi.defs)
        invariant count == 0 && argcounts == [] && handles == [] && !isready
      {
        var index := ffi.IndexOf(imports[i].name);
        if index < 0 {
          missing := missing + 1;
          i := i + 1;
          continue;
        }
        if !TypeEquals(imports[i].ty, ffi.defs[index].ty) {
          missing := missing + 1;
        }
        i := i + 1;
      }
      if missing > 0 {
        return false;
      }
      var mapping: seq<nat> := [];
      var argc: seq<int> := [];
      i := 0;
      while i < |imports|
        invariant 0 <= i <= |imports| && |mapping| == |argc| == i
        invariant forall j :: 0 <= j < i ==>
          var k := IndexOfName(ffi.defs, imports[j].name, 0);
          0 <= k < |ffi.defs| && mapping[j] == ffi.handles[k] && argc[j] == ArgCount(ffi.defs[k].ty)
      {
        var index := ffi.IndexOf(imports[i].name);
        assert Resolves(imports[i], ffi.defs);
        mapping := mapping + [ffi.handles[index]];
        argc := argc + [ArgCount(ffi.defs[index].ty)];
        i := i + 1;
      }
      count, argcounts, handles := |imports|, argc, mapping;
      isready := true;
      return true;
    }
  }

  /**
   * A program importing exactly the host's definitions, whose names are
   * unique and types well formed, binds: import `i` resolves to definition `i`.
   */
  lemma OwnExportsResolve(defs: seq<Definition>)
    requires UniqueNames(defs) && forall i :: 0 <= i < |defs| ==> Wf(defs[i].ty)
    ensures ImportsResolve(defs, defs)
    ensures forall i :: 0 <= i < |defs| ==> IndexOfName(defs, defs[i].name, 0) == i
  {
    forall i | 0 <= i < |defs| ensures IndexOfName(defs, defs[i].name, 0) == i {
      IndexOfNameMeaning(defs, defs[i].name, 0);
      ShUtils.SstrEqualMeaning(defs[i].name, defs[i].name, []);
      assert IndexOfName(defs, defs[i].name, 0) != -1;
    }
  }
}
