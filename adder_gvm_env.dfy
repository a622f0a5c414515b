/**
 * `adder/vm/src/gvm_env.c`: the native-function table of the virtual
 * machine, an open-addressing hash table of `GVM_ENV_NFUNC_TABLE_SIZE`
 * slots keyed by function name, probed linearly from the key's hash.
 * Names are compared with `strncmp` up to the length of the searched key.
 * `GVM_ENV_NFUNC_NAME_MAX_LEN` is not defined in the headers of this
 * revision; it is the parameter `maxLen` here.
 */
module AdderGvmEnv {
  import opened Wrappers
  import opened ShUtils

  /** `GVM_ENV_NFUNC_TABLE_SIZE`. */
  const TableSize: nat := 128

  /** Arithmetic of `uint`. */
  const UintModulus: nat := 0x1_0000_0000

  /**
   * A C `char`, signed on the usual targets, widened to `int`: the value of
   * its byte, less 256 from 128 on.
   */
  function SignedChar(c: char): (v: int)
    ensures -128 <= v < 128
    ensures 0 <= c as int < 128 ==> v == c as int
  {
    var b := c as int % 256;
    if b >= 128 then b - 256 else b
  }

  /**
   * One step of the hash loop: `hash_code += (hash_code + c) * 7919U`, in
   * `uint` arithmetic, so a negative character wraps modulo 2^32.
   */
  function HashStep(h: nat, c: char): (r: nat)
    ensures r < UintModulus
  {
    (h + (h + SignedChar(c)) * 7919) % UintModulus
  }

  /** The hash loop over `s`, from the initial code `h`. */
  function HashChars(h: nat, s: seq<char>): nat
  {
    if s == [] then h else HashStep(HashChars(h, s[..|s|-1]), s[|s|-1])
  }

  /** `hash_key_t`: the key's characters, the length compared, and the hash code. */
  datatype HashKey = HashKey(key: seq<char>, len: nat, code: nat)

  /** The value `str_hash` returns for the C string `key`. */
  function KeyOf(key: seq<char>, maxLen: nat): (hk: HashKey)
    requires maxLen >= 1
    ensures hk.len <= |key| && hk.key == key
  {
    var len := if CLen(key) < maxLen - 1 then CLen(key) else maxLen - 1;
    HashKey(key, len, HashChars(len + 5, key[..len]))
  }

  /** `str_hash`: the length is `strnlen(key, maxLen - 1)` and the loop runs over that many characters. */
  method StrHash(key: seq<char>, maxLen: nat) returns (hk: HashKey)
    requires maxLen >= 1
    ensures hk == KeyOf(key, maxLen)
  {
    var len := 0;
    while len < maxLen - 1 && len < |key| && key[len] != '\0'
      invariant 0 <= len <= |key| && len <= maxLen - 1
      invariant forall i :: 0 <= i < len ==> key[i] != '\0'
    {
      len := len + 1;
    }
    CLenOfPrefix(key, len);
    var code := len + 5;
    var i := 0;
    while i < len
      invariant 0 <= i <= len
      invariant code == HashChars(len + 5, key[..i])
    {
      assert key[..i + 1][..i] == key[..i];
      code := HashStep(code, key[i]);
      i := i + 1;
    }
    assert key[..len] == key[..i];
    hk := HashKey(key, len, code);
  }

  /** A prefix free of NUL that stops at a NUL, at the end of the string or at the bound is the `strnlen`. */
  lemma CLenOfPrefix(key: seq<char>, len: nat)
    requires len <= |key| && forall i :: 0 <= i < len ==> key[i] != '\0'
    ensures len <= CLen(key)
    ensures len < |key| && key[len] == '\0' ==> CLen(key) == len
    ensures len == |key| ==> CLen(key) == len
  {
  }

  /** The hash and the compared length depend only on the first `maxLen - 1` characters of the key. */
  lemma StrHashPrefix(a: seq<char>, b: seq<char>, maxLen: nat)
    requires maxLen >= 1
    requires Take(CStr(a), maxLen - 1) == Take(CStr(b), maxLen - 1)
    ensures KeyOf(a, maxLen).len == KeyOf(b, maxLen).len
    ensures KeyOf(a, maxLen).code == KeyOf(b, maxLen).code
    ensures a[..KeyOf(a, maxLen).len] == b[..KeyOf(b, maxLen).len]
  {
    var m := maxLen - 1;
    assert |Take(CStr(a), m)| == KeyOf(a, maxLen).len;
    assert |Take(CStr(b), m)| == KeyOf(b, maxLen).len;
    assert a[..KeyOf(a, maxLen).len] == Take(CStr(a), m);
    assert b[..KeyOf(b, maxLen).len] == Take(CStr(b), m);
  }

  /**
   * `val_hash` for the characters of a name value: the length is capped at
   * `maxLen - 1`, the characters are copied to the reused buffer, and the
   * hash loop is the one of `str_hash`.
   */
  method ValHash(chars: seq<char>, len: nat, maxLen: nat) returns (hk: HashKey)
    requires maxLen >= 1 && len <= |chars|
    ensures var n := if len < maxLen - 1 then len else maxLen - 1;
      hk == HashKey(chars[..n], n, HashChars(n + 5, chars[..n]))
  {
    var n := if len < maxLen - 1 then len else maxLen - 1;
    var code := n + 5;
    var i := 0;
    while i < n
      invariant 0 <= i <= n
      invariant code == HashChars(n + 5, chars[..i])
    {
      assert chars[..i + 1][..i] == chars[..i];
      code := HashStep(code, chars[i]);
      i := i + 1;
    }
    hk := HashKey(chars[..n], n, code);
  }

  /** For a name free of NUL no longer than the bound, `val_hash` and `str_hash` agree on length and hash. */
  lemma ValHashAgrees(s: seq<char>, maxLen: nat)
    requires maxLen >= 1 && |s| < maxLen && forall i :: 0 <= i < |s| ==> s[i] != '\0'
    ensures KeyOf(s, maxLen).len == |s| && KeyOf(s, maxLen).code == HashChars(|s| + 5, s[..|s|])
  {
    CLenOfPrefix(s, |s|);
  }

  /** The slot looked at on probe `i` from `start`. */
  function Probe(start: nat, i: nat): (p: nat)
    ensures p < TableSize
  {
    (i + start) % TableSize
  }

  /** Two probes of one search within a round look at different slots. */
  lemma ProbeInjective(start: nat, i: nat, j: nat)
    requires start < TableSize && i < j < TableSize
    ensures Probe(start, i) != Probe(start, j)
  {
  }

  /** `tabval_t`: the argument count and the native function (a handle here). */
  datatype TabVal = TabVal(argc: int, func: nat)

  /** What the insertion loop meets first: a free slot, a slot whose key matches, or nothing in a full round. */
  datatype Probed = Free(index: nat) | Duplicate(index: nat) | Full

  /** The insertion loop from probe `i` on. */
  function InsertProbe(keys: seq<seq<char>>, inUse: seq<bool>, hk: HashKey, i: nat): (r: Probed)
    requires |keys| == TableSize && |inUse| == TableSize
    ensures r.Free? ==> exists j :: i <= j < TableSize && r.index == Probe(hk.code % TableSize, j)
    ensures r.Free? ==> r.index < TableSize && !inUse[r.index]
    ensures r.Duplicate? ==> r.index < TableSize && inUse[r.index] && StrNEqual(keys[r.index], hk.key, hk.len)
    decreases TableSize - i
  {
    if i >= TableSize then Full
    else
      var p := Probe(hk.code % TableSize, i);
      if !inUse[p] then Free(p)
      else if StrNEqual(keys[p], hk.key, hk.len) then Duplicate(p)
      else InsertProbe(keys, inUse, hk, i + 1)
  }

  /** The lookup loop from probe `i` on: every probed slot is compared, in use or not. */
  function LookupProbe(keys: seq<seq<char>>, hk: HashKey, i: nat): (r: Option<nat>)
    requires |keys| == TableSize
    ensures r.Some? ==> r.value < TableSize && StrNEqual(keys[r.value], hk.key, hk.len)
    decreases TableSize - i
  {
    if i >= TableSize then None
    else
      var p := Probe(hk.code % TableSize, i);
      if StrNEqual(keys[p], hk.key, hk.len) then Some(p)
      else LookupProbe(keys, hk, i + 1)
  }

  /** The insertion finds no place exactly when every probed slot is in use with a key that does not match. */
  lemma {:induction false} InsertProbeFull(keys: seq<seq<char>>, inUse: seq<bool>, hk: HashKey, i: nat)
    requires |keys| == TableSize && |inUse| == TableSize
    ensures InsertProbe(keys, inUse, hk, i).Full? <==>
      forall j :: i <= j < TableSize ==> inUse[Probe(hk.code % TableSize, j)] && !StrNEqual(keys[Probe(hk.code % TableSize, j)], hk.key, hk.len)
    decreases TableSize - i
  {
    if i < TableSize {
      InsertProbeFull(keys, inUse, hk, i + 1);
    }
  }

  /** A lookup gives the first probed slot whose key matches, and nothing exactly when no slot's key matches. */
  lemma {:induction false} LookupProbeMeaning(keys: seq<seq<char>>, hk: HashKey, i: nat)
    requires |keys| == TableSize && i <= TableSize
    ensures LookupProbe(keys, hk, i).None? <==> forall j :: i <= j < TableSize ==> !StrNEqual(keys[Probe(hk.code % TableSize, j)], hk.key, hk.len)
    ensures LookupProbe(keys, hk, i).Some? ==>
      exists j :: (i <= j < TableSize && LookupProbe(keys, hk, i).value == Probe(hk.code % TableSize, j) &&
        forall k :: i <= k < j ==> !StrNEqual(keys[Probe(hk.code % TableSize, k)], hk.key, hk.len))
    decreases TableSize - i
  {
    if i < TableSize {
      LookupProbeMeaning(keys, hk, i + 1);
      var p := Probe(hk.code % TableSize, i);
      if StrNEqual(keys[p], hk.key, hk.len) {
        assert LookupProbe(keys, hk, i) == Some(p);
      } else {
        assert LookupProbe(keys, hk, i) == LookupProbe(keys, hk, i + 1);
        if LookupProbe(keys, hk, i + 1).Some? {
          var j :| i + 1 <= j < TableSize && LookupProbe(keys, hk, i + 1).value == Probe(hk.code % TableSize, j) &&
            forall k :: i + 1 <= k < j ==> !StrNEqual(keys[Probe(hk.code % TableSize, k)], hk.key, hk.len);
          assert forall k :: i <= k < j ==> !StrNEqual(keys[Probe(hk.code % TableSize, k)], hk.key, hk.len);
        }
      }
    }
  }

  /** A string cut to `n` characters agrees with itself on those `n`. */
  lemma {:induction false} StrNEqualCut(a: seq<char>, b: seq<char>, n: nat)
    requires n <= |b|
    ensures StrNEqual(a, b, n) == StrNEqual(a, b[..n], n)
    decreases n
  {
    if n > 0 {
      assert At(b[..n], 0) == At(b, 0);
      assert Tail(b[..n]) == Tail(b)[..n - 1];
      StrNEqualCut(Tail(a), Tail(b), n - 1);
    }
  }

  /** A prefix is `strncmp`-equal to the string it was cut from. */
  lemma {:induction false} StrNEqualOwnPrefix(b: seq<char>, n: nat)
    requires n <= |b|
    ensures StrNEqual(b[..n], b, n)
    decreases n
  {
    if n > 0 && b[0] != '\0' {
      assert Tail(b[..n]) == Tail(b)[..n - 1];
      StrNEqualOwnPrefix(Tail(b), n - 1);
    }
  }

  /**
   * After an insertion into the free slot `idx`, the lookup of any key with
   * the same hash, length and compared characters reaches that slot: every
   * slot probed before it was in use with a key that did not match.
   */
  lemma {:induction false} InsertThenLookup(keys: seq<seq<char>>, inUse: seq<bool>, hk: HashKey, other: HashKey, i: nat, idx: nat)
    requires |keys| == TableSize && |inUse| == TableSize
    requires hk.len <= |hk.key| && other.len == hk.len && other.code == hk.code && other.len <= |other.key|
    requires other.key[..other.len] == hk.key[..hk.len]
    requires InsertProbe(keys, inUse, hk, i) == Free(idx)
    ensures LookupProbe(keys[idx := hk.key[..hk.len]], other, i) == Some(idx)
    decreases TableSize - i
  {
    var start := hk.code % TableSize;
    var p := Probe(start, i);
    var stored := keys[idx := hk.key[..hk.len]];
    if !inUse[p] {
      StrNEqualOwnPrefix(hk.key, hk.len);
      StrNEqualCut(hk.key[..hk.len], other.key, other.len);
      StrNEqualCut(hk.key[..hk.len], hk.key, hk.len);
    } else {
      assert p != idx;
      assert stored[p] == keys[p];
      StrNEqualCut(keys[p], other.key, other.len);
      StrNEqualCut(keys[p], hk.key, hk.len);
      InsertThenLookup(keys, inUse, hk, other, i + 1, idx);
    }
  }

  /** `func_table_t`, zero-initialised: no slot in use, every stored key empty. */
  class FuncTable {
    const keys: array<seq<char>>
    const inUse: array<bool>
    const values: array<TabVal>

    /** Slots are only ever filled, so a slot not in use still holds the empty key. */
    ghost predicate Valid()
      reads this, keys, inUse
    {
      keys.Length == TableSize && inUse.Length == TableSize && values.Length == TableSize &&
      keys != inUse as object && (forall k :: 0 <= k < TableSize && !inUse[k] ==> keys[k] == [])
    }

    constructor ()
      ensures Valid()
      ensures forall k :: 0 <= k < TableSize ==> !inUse[k] && values[k] == TabVal(0, 0)
    {
      keys := new seq<char>[TableSize](_ => []);
      inUse := new bool[TableSize](_ => false);
      values := new TabVal[TableSize](_ => TabVal(0, 0));
    }

    /**
     * `env_table_insert`: the first free slot on the probe sequence takes the
     * key's first `len` characters, the value and the in-use mark; a slot in
     * use whose key matches (the duplicate), or a full round, rejects it.
     */
    method Insert(hk: HashKey, val: TabVal) returns (ok: bool)
      requires Valid() && hk.len <= |hk.key|
      modifies keys, inUse, values
      ensures Valid()
      ensures ok <==> InsertProbe(old(keys[..]), old(inUse[..]), hk, 0).Free?
      ensures ok ==> var idx := InsertProbe(old(keys[..]), old(inUse[..]), hk, 0).index;
        keys[..] == old(keys[..])[idx := hk.key[..hk.len]] && inUse[..] == old(inUse[..])[idx := true] &&
        values[..] == old(values[..])[idx := val]
      ensures !ok ==> keys[..] == old(keys[..]) && inUse[..] == old(inUse[..]) && values[..] == old(values[..])
    {
      var start := hk.code % TableSize;
      var i := 0;
      while i < TableSize
        invariant 0 <= i <= TableSize
        invariant InsertProbe(keys[..], inUse[..], hk, 0) == InsertProbe(keys[..], inUse[..], hk, i)
      {
        var p := (i + start) % TableSize;
        if !inUse[p] {
          keys[p] := hk.key[..hk.len];
          values[p] := val;
          inUse[p] := true;
          return true;
        } else if StrNEqual(keys[p], hk.key, hk.len) {
          return false;
        }
        i := i + 1;
      }
      return false;
    }

    /** `env_table_lookup`: the first probed slot, in use or not, whose key matches on the first `len` characters. */
    method Lookup(hk: HashKey) returns (r: Option<nat>)
      requires Valid()
      ensures r == LookupProbe(keys[..], hk, 0)
    {
      var start := hk.code % TableSize;
      var i := 0;
      while i < TableSize
        invariant 0 <= i <= TableSize
        invariant LookupProbe(keys[..], hk, 0) == LookupProbe(keys[..], hk, i)
      {
        var p := (i + start) % TableSize;
        if StrNEqual(keys[p], hk.key, hk.len) {
          return Some(p);
        }
        i := i + 1;
      }
      return None;
    }

    /** `env_add_native_func`: the name's `str_hash`, inserted with its argument count and function. */
    method AddNativeFunc(name: seq<char>, numArgs: int, func: nat, maxLen: nat) returns (ok: bool)
      requires Valid() && maxLen >= 1
      modifies keys, inUse, values
      ensures Valid()
      ensures ok <==> InsertProbe(old(keys[..]), old(inUse[..]), KeyOf(name, maxLen), 0).Free?
      ensures !ok ==> keys[..] == old(keys[..]) && inUse[..] == old(inUse[..]) && values[..] == old(values[..])
      ensures ok ==> var hk := KeyOf(name, maxLen);
        var idx := InsertProbe(old(keys[..]), old(inUse[..]), hk, 0).index;
        keys[..] == old(keys[..])[idx := name[..hk.len]] && values[..] == old(values[..])[idx := TabVal(numArgs, func)] &&
        LookupProbe(keys[..], hk, 0) == Some(idx)
    {
      var hk := StrHash(name, maxLen);
      ghost var before := keys[..];
      ghost var used := inUse[..];
      ok := Insert(hk, TabVal(numArgs, func));
      if ok {
        InsertThenLookup(before, used, hk, hk, 0, InsertProbe(before, used, hk, 0).index);
      }
    }
  }

  /** `func_result_t` without the function's value: the argument count, and the function found (none when absent). */
  datatype CallTarget = CallTarget(argCount: int, func: Option<nat>)

  /**
   * The lookup part of `env_native_func_call`: the name value's characters
   * must number between 1 and `maxLen - 1` (the assert), they are hashed by
   * `val_hash` and looked up; an absent name gives argument count 0 and no
   * function.
   */
  method NativeFuncTarget(table: FuncTable, chars: seq<char>, length: nat, maxLen: nat) returns (r: Result<CallTarget, Abort>)
    requires table.Valid() && maxLen >= 1 && length <= |chars|
    ensures !(0 < length < maxLen) ==> r.Err? && r.error.AssertFailed?
    ensures 0 < length < maxLen ==> r.Ok? && var found := LookupProbe(table.keys[..], HashKey(chars[..length], length, HashChars(length + 5, chars[..length])), 0);
      (found.None? ==> r.value == CallTarget(0, None)) &&
      (found.Some? ==> r.value == CallTarget(table.values[found.value].argc, Some(table.values[found.value].func)))
  {
    if !(length < maxLen && length > 0) {
      return Err(AssertFailed("key.length < GVM_ENV_NFUNC_NAME_MAX_LEN && key.length > 0"));
    }
    var hk := ValHash(chars, length, maxLen);
    var entry := table.Lookup(hk);
    if entry.None? {
      return Ok(CallTarget(0, None));
    }
    var v := table.values[entry.value];
    return Ok(CallTarget(v.argc, Some(v.func)));
  }

  /**
   * A function added under a name free of NUL and shorter than the bound is
   * what a call by a name value of the same characters reaches, as long as
   * the table is not changed in between.
   */
  lemma AddedIsCalled(keys: seq<seq<char>>, inUse: seq<bool>, name: seq<char>, maxLen: nat)
    requires |keys| == TableSize && |inUse| == TableSize && maxLen >= 1
    requires 0 < |name| < maxLen && forall i :: 0 <= i < |name| ==> name[i] != '\0'
    requires InsertProbe(keys, inUse, KeyOf(name, maxLen), 0).Free?
    ensures var idx := InsertProbe(keys, inUse, KeyOf(name, maxLen), 0).index;
      LookupProbe(keys[idx := name[..|name|]], HashKey(name[..|name|], |name|, HashChars(|name| + 5, name[..|name|])), 0) == Some(idx)
  {
    ValHashAgrees(name, maxLen);
    var hk := KeyOf(name, maxLen);
    InsertThenLookup(keys, inUse, hk, HashKey(name[..|name|], |name|, HashChars(|name| + 5, name[..|name|])), 0,
      InsertProbe(keys, inUse, hk, 0).index);
  }
}
