/**
 * `gvm/gvm_env.c`: the assembler machine's native functions, a short table
 * of names, functions and argument counts searched by name.
 * `GVM_ENV_NFUNC_NAME_MAX_LEN` is not defined in the headers of this
 * revision; it is the parameter `maxLen` here.
 */
module GvmEnv {
  import opened Wrappers
  import opened ShUtils

  /** The native functions this revision defines. */
  datatype NativeFunc = PrintFunc

  /** The first index from `i` on whose name is `strcmp`-equal to `name`, or -1. */
  function IndexOf(names: seq<seq<char>>, name: seq<char>, i: nat): (r: int)
    ensures r == -1 || i <= r < |names|
    decreases |names| - i
  {
    if i >= |names| then -1 else if CStr(names[i]) == CStr(name) then i else IndexOf(names, name, i + 1)
  }

  /** `IndexOf` gives the least index of an equal name, and -1 exactly when there is none. */
  lemma {:induction false} IndexOfMeaning(names: seq<seq<char>>, name: seq<char>, i: nat)
    ensures IndexOf(names, name, i) == -1 <==> forall k :: i <= k < |names| ==> CStr(names[k]) != CStr(name)
    ensures IndexOf(names, name, i) >= 0 ==> (CStr(names[IndexOf(names, name, i)]) == CStr(name) &&
      forall k :: i <= k < IndexOf(names, name, i) ==> CStr(names[k]) != CStr(name))
    decreases |names| - i
  {
    if i < |names| && CStr(names[i]) != CStr(name) {
      IndexOfMeaning(names, name, i + 1);
    }
  }

  /** `func_result_t` without the function's value: the argument count and the function's index (none when absent). */
  datatype CallTarget = CallTarget(argCount: int, index: Option<nat>)

  /** The `native` part of `env_t`. */
  class Env {
    var names: seq<seq<char>>
    var funcs: seq<NativeFunc>
    var argCounts: seq<int>

    ghost predicate Valid()
      reads this
    {
      |names| == |funcs| == |argCounts|
    }

    constructor ()
      ensures Valid() && names == []
    {
      names, funcs, argCounts := [], [], [];
    }

    /** `env_init`: the table holds exactly `nprint`, taking two arguments. */
    method Init()
      modifies this
      ensures Valid() && names == ["nprint"] && funcs == [PrintFunc] && argCounts == [2]
    {
      names, funcs, argCounts := [], [], [];
      names := names + ["nprint"];
      funcs := funcs + [PrintFunc];
      argCounts := argCounts + [2];
    }

    /** `env_nfunc_get_index`: the first entry whose name is equal, or -1. */
    method GetIndex(name: seq<char>) returns (r: int)
      requires Valid()
      ensures r == IndexOf(names, name, 0)
    {
      var i := 0;
      while i < |names|
        invariant 0 <= i <= |names|
        invariant IndexOf(names, name, 0) == IndexOf(names, name, i)
      {
        if CStr(names[i]) == CStr(name) {
          return i;
        }
        i := i + 1;
      }
      return -1;
    }

    /**
     * The lookup part of `env_nfunc_call`: the name value's length must lie
     * between 1 and `maxLen - 1` (the assert), the name is read into a zeroed
     * buffer of `maxLen` characters and searched; an absent name gives
     * argument count 0 and no function.
     */
    method NfuncTarget(chars: seq<char>, length: nat, maxLen: nat) returns (r: Result<CallTarget, Abort>)
      requires Valid() && maxLen >= 1 && length <= |chars|
      ensures !(0 < length < maxLen) ==> r.Err? && r.error.AssertFailed?
      ensures 0 < length < maxLen ==> r.Ok? && var k := IndexOf(names, chars[..length], 0);
        (k == -1 ==> r.value == CallTarget(0, None)) &&
        (k >= 0 ==> r.value == CallTarget(argCounts[k], Some(k)))
    {
      if !(length < maxLen && length > 0) {
        return Err(AssertFailed("array.length < GVM_ENV_NFUNC_NAME_MAX_LEN && array.length > 0"));
      }
      var buf := new char[maxLen](_ => '\0');
      var n := ReadName(chars, length, buf, maxLen);
      ghost var rest := buf[length..];
      assert forall i :: 0 <= i < |rest| ==> rest[i] == buf[length + i] == '\0';
      assert buf[..] == chars[..length] + rest;
      NameOfBuffer(chars[..length], rest);
      var index := GetIndex(buf[..]);
      if index < 0 {
        return Ok(CallTarget(0, None));
      }
      return Ok(CallTarget(argCounts[index], Some(index)));
    }
  }

  /** A name free of NUL followed by a NUL-filled rest reads as that name. */
  lemma NameOfBuffer(name: seq<char>, rest: seq<char>)
    requires rest != [] && forall i :: 0 <= i < |rest| ==> rest[i] == '\0'
    ensures forall names: seq<seq<char>> :: IndexOf(names, name + rest, 0) == IndexOf(names, name, 0)
  {
    CStrOfPadded(name, rest);
    forall names: seq<seq<char>> ensures IndexOf(names, name + rest, 0) == IndexOf(names, name, 0) {
      IndexOfSameName(names, name + rest, name, 0);
    }
  }

  /** The C string of a buffer is that of its characters before the padding. */
  lemma {:induction false} CStrOfPadded(name: seq<char>, rest: seq<char>)
    requires rest != [] && rest[0] == '\0'
    ensures CStr(name + rest) == CStr(name)
    decreases |name|
  {
    if name != [] && name[0] != '\0' {
      assert (name + rest)[1..] == name[1..] + rest;
      CStrOfPadded(name[1..], rest);
    }
  }

  /** Names with the same C string are searched alike. */
  lemma {:induction false} IndexOfSameName(names: seq<seq<char>>, a: seq<char>, b: seq<char>, i: nat)
    requires CStr(a) == CStr(b)
    ensures IndexOf(names, a, i) == IndexOf(names, b, i)
    decreases |names| - i
  {
    if i < |names| {
      IndexOfSameName(names, a, b, i + 1);
    }
  }

  /**
   * `read_name`: at most `maxLen - 1` characters of the name are copied,
   * followed by a NUL, and their number is returned.
   */
  method ReadName(chars: seq<char>, length: nat, buf: array<char>, maxLen: nat) returns (n: nat)
    requires 1 <= maxLen <= buf.Length && (if length < maxLen - 1 then length else maxLen - 1) <= |chars|
    modifies buf
    ensures n == (if length < maxLen - 1 then length else maxLen - 1)
    ensures buf[..n] == chars[..n] && buf[n] == '\0'
    ensures forall i :: n < i < buf.Length ==> buf[i] == old(buf[i])
  {
    n := length;
    if n > maxLen - 1 {
      n := maxLen - 1;
    }
    var i := 0;
    while i < n
      invariant 0 <= i <= n
      invariant buf[..i] == chars[..i]
      invariant forall k :: i <= k < buf.Length ==> buf[k] == old(buf[k])
    {
      buf[i] := chars[i];
      i := i + 1;
    }
    buf[n] := '\0';
  }

  /** After `env_init`, `nprint` is found at index 0 and every other name is absent. */
  lemma InitTable(name: seq<char>)
    ensures IndexOf(["nprint"], name, 0) == (if CStr(name) == "nprint" then 0 else -1)
  {
    assert CStr("nprint") == "nprint" by {
      assert CLen("nprint") == 6 by {
        assert "nprint"[1..] == "print" && "print"[1..] == "rint" && "rint"[1..] == "int";
        assert "int"[1..] == "nt" && "nt"[1..] == "t" && "t"[1..] == "";
      }
    }
  }
}
