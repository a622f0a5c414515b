/**
 * `sh_ift.c`: interface types as a flat array of at most `IFTYPE_MAX_TAGS`
 * one-byte tags. A scalar is one tag, a list is `IFT_LST` followed by its
 * content, and a function is `IFT_FUN`, its return type, its arguments and
 * `IFT_ENDFUN`. Values of `ift_t` are passed and returned by copy.
 */
module ShIft {
  import opened Wrappers

  type Byte = x: int | 0 <= x < 256

  /** `IFTYPE_MAX_TAGS`. */
  const MaxTags: nat := 32

  /** `ift_tag_t`: the tags are the character codes of `v b c i f l P p`, and zero. */
  const Unk: Byte := 0
  const Void: Byte := 118
  const Bool: Byte := 98
  const Char: Byte := 99
  const I32: Byte := 105
  const F32: Byte := 102
  const Lst: Byte := 108
  const Fun: Byte := 80
  const EndFun: Byte := 112

  /** `ift_t`: the number of tags in use and the whole tag buffer. */
  datatype Ift = Ift(count: nat, tags: seq<Byte>)

  /** The buffer has its fixed size and the count lies within it. */
  predicate Wf(t: Ift) {
    |t.tags| == MaxTags && t.count <= MaxTags
  }

  /** The tags in use. */
  function Tags(t: Ift): seq<Byte>
    requires Wf(t)
  {
    t.tags[..t.count]
  }

  /** A one-tag type in a zeroed buffer (`ift_void`, `ift_int`, ... , `ift_unknown`). */
  function Scalar(tag: Byte): (t: Ift)
    ensures Wf(t) && Tags(t) == [tag]
  {
    Ift(1, [tag] + seq(MaxTags - 1, _ => 0))
  }

  function Unknown(): (t: Ift)
    ensures Wf(t) && Tags(t) == [Unk]
  {
    Scalar(Unk)
  }

  /**
   * `ift_combine`: the tags of `last` written after those of `first`. The
   * count is clamped at the buffer size, but the copy still writes every tag
   * of `last`, past the buffer when the two do not fit together.
   */
  method Combine(first: Ift, last: Ift) returns (r: Result<Ift, Abort>)
    requires Wf(first) && Wf(last)
    ensures r.Err? <==> first.count + last.count > MaxTags
    ensures r.Err? ==> r.error == OutOfBounds
    ensures r.Ok? ==> Wf(r.value) && Tags(r.value) == Tags(first) + Tags(last)
    ensures r.Ok? ==> r.value.tags[r.value.count..] == first.tags[r.value.count..]
  {
    if first.count + last.count > MaxTags {
      return Err(OutOfBounds);
    }
    var tags := first.tags;
    var offset := first.count;
    var i := 0;
    while i < last.count
      invariant 0 <= i <= last.count && |tags| == MaxTags
      invariant forall k :: 0 <= k < offset ==> tags[k] == first.tags[k]
      invariant forall k :: 0 <= k < i ==> tags[offset + k] == last.tags[k]
      invariant forall k :: offset + i <= k < MaxTags ==> tags[k] == first.tags[k]
    {
      tags := tags[offset + i := last.tags[i]];
      i := i + 1;
    }
    r := Ok(Ift(offset + last.count, tags));
    assert tags[..offset + last.count] == Tags(first) + Tags(last);
    assert tags[offset + last.count..] == first.tags[offset + last.count..];
  }

  /** `ift_list`: the list tag, then the content. */
  method List(content: Ift) returns (r: Result<Ift, Abort>)
    requires Wf(content)
    ensures r.Err? <==> content.count >= MaxTags
    ensures r.Ok? ==> Wf(r.value) && Tags(r.value) == [Lst] + Tags(content)
  {
    r := Combine(Scalar(Lst), content);
  }

  /**
   * `ift_extract`: a type made of the first `chunkSize` tags, asserting that
   * the size is positive and below the buffer size.
   */
  method Extract(tags: seq<Byte>, chunkSize: int) returns (r: Result<Ift, Abort>)
    requires chunkSize <= |tags|
    ensures r.Err? <==> !(0 < chunkSize < MaxTags)
    ensures r.Err? ==> r.error == AssertFailed("chunk_size < IFTYPE_MAX_TAGS && chunk_size > 0")
    ensures r.Ok? ==> Wf(r.value) && Tags(r.value) == tags[..chunkSize] && r.value.tags[chunkSize..] == seq(MaxTags - chunkSize, _ => 0)
  {
    if !(0 < chunkSize < MaxTags) {
      return Err(AssertFailed("chunk_size < IFTYPE_MAX_TAGS && chunk_size > 0"));
    }
    var res := seq(MaxTags, _ => 0);
    var i := 0;
    while i < chunkSize
      invariant 0 <= i <= chunkSize && |res| == MaxTags
      invariant res[..i] == tags[..i] && res[i..] == seq(MaxTags - i, _ => 0)
    {
      res := res[i := tags[i]];
      i := i + 1;
    }
    r := Ok(Ift(chunkSize, res));
  }

  /** `ift_list_get_content_type`: the tags after the list tag; unknown for a type that is not a list. */
  method ListGetContentType(list: Ift) returns (r: Ift)
    requires Wf(list)
    ensures Wf(r)
    ensures list.count >= 2 && list.tags[0] == Lst ==> Tags(r) == Tags(list)[1..]
    ensures !(list.count >= 2 && list.tags[0] == Lst) ==> r == Unknown()
  {
    if list.count < 2 || list.tags[0] != Lst {
      return Unknown();
    }
    var e := Extract(list.tags[1..], list.count - 1);
    r := e.value;
  }

  /** `ift_append_tag`: a tag is added while fewer than `IFTYPE_MAX_TAGS - 1` are in use. */
  function AppendTag(t: Ift, tag: Byte): (r: Ift)
    requires Wf(t)
    ensures Wf(r)
    ensures t.count < MaxTags - 1 ==> Tags(r) == Tags(t) + [tag] && r.tags[r.count..] == t.tags[r.count..]
    ensures t.count >= MaxTags - 1 ==> r == t
  {
    if t.count < MaxTags - 1 then Ift(t.count + 1, t.tags[t.count := tag]) else t
  }

  /** `ift_pop_last_tag`: the last tag in use is dropped, if there is one. */
  function PopLastTag(t: Ift): (r: Ift)
    requires Wf(t)
    ensures Wf(r) && r.tags == t.tags
    ensures t.count > 0 ==> Tags(r) == Tags(t)[..t.count - 1]
    ensures t.count == 0 ==> r == t
  {
    if t.count > 0 then Ift(t.count - 1, t.tags) else t
  }

  /** `ift_func`: the function tag, the return type, and the end tag when there is room for it. */
  method Func(ret: Ift) returns (r: Result<Ift, Abort>)
    requires Wf(ret)
    ensures r.Err? <==> ret.count >= MaxTags
    ensures r.Ok? && ret.count < MaxTags - 2 ==> Wf(r.value) && Tags(r.value) == [Fun] + Tags(ret) + [EndFun]
    ensures r.Ok? && ret.count >= MaxTags - 2 ==> Wf(r.value) && Tags(r.value) == [Fun] + Tags(ret)
  {
    var c := Combine(Scalar(Fun), ret);
    if c.Err? {
      return c;
    }
    r := Ok(AppendTag(c.value, EndFun));
  }

  /**
   * `ift_func_add_arg`: asserts that the type ends in the end tag, then puts
   * the argument's tags before it.
   */
  method FuncAddArg(func: Ift, arg: Ift) returns (r: Result<Ift, Abort>)
    requires Wf(func) && Wf(arg)
    ensures !(func.count > 0 && func.tags[func.count - 1] == EndFun) ==>
      r == Err(AssertFailed("func.count > 0 && func.tags[func.count-1] == IFT_ENDFUN"))
    ensures func.count > 0 && func.tags[func.count - 1] == EndFun ==> (r.Err? <==> func.count - 1 + arg.count > MaxTags)
    ensures r.Ok? && func.count + arg.count < MaxTags ==>
      Wf(r.value) && Tags(r.value) == Tags(func)[..func.count - 1] + Tags(arg) + [EndFun]
    ensures r.Ok? && func.count + arg.count >= MaxTags ==>
      Wf(r.value) && Tags(r.value) == Tags(func)[..func.count - 1] + Tags(arg)
  {
    if !(func.count > 0 && func.tags[func.count - 1] == EndFun) {
      return Err(AssertFailed("func.count > 0 && func.tags[func.count-1] == IFT_ENDFUN"));
    }
    var c := Combine(PopLastTag(func), arg);
    if c.Err? {
      return c;
    }
    r := Ok(AppendTag(c.value, EndFun));
  }

  // Flat sizes

  /** How one tag changes the number of open functions. */
  function NextStarts(tag: Byte, starts: int): int {
    if tag == Fun then starts + 1 else if tag == EndFun then starts - 1 else starts
  }

  /** The index where the function opened just before `index` is closed, with `starts` functions open. */
  function FunEnd(s: seq<Byte>, index: nat, starts: int): (e: nat)
    decreases |s| - index
  {
    if starts <= 0 || index >= |s| then index
    else FunEnd(s, index + 1, NextStarts(s[index], starts))
  }

  /** `ift_get_flat_size` over the `len` tags of `s`: the number of tags the first type takes. */
  function FlatSize(s: seq<Byte>): (n: nat)
    ensures s != [] ==> 1 <= n
    ensures n <= |s|
  {
    if s == [] then 0
    else if s[0] == Lst then 1 + FlatSize(s[1..])
    else if s[0] == Fun then FunEndBound(s, 1, 1); FunEnd(s, 1, 1)
    else 1
  }

  lemma {:induction false} FunEndBound(s: seq<Byte>, index: nat, starts: int)
    requires index <= |s|
    ensures index <= FunEnd(s, index, starts) <= |s|
    decreases |s| - index
  {
    if !(starts <= 0 || index >= |s|) {
      FunEndBound(s, index + 1, if s[index] == Fun then starts + 1 else if s[index] == EndFun then starts - 1 else starts);
    }
  }

  /** The scan for the end tag of `ift_get_flat_size`. */
  method ScanFunEnd(tags: seq<Byte>) returns (index: nat)
    requires |tags| > 0
    ensures index == FunEnd(tags, 1, 1)
  {
    var funStarts := 1;
    index := 1;
    while funStarts > 0
      invariant 1 <= index <= |tags|
      invariant FunEnd(tags, index, funStarts) == FunEnd(tags, 1, 1)
      decreases |tags| - index
    {
      if index >= |tags| {
        break;
      }
      if tags[index] == Fun {
        funStarts := funStarts + 1;
      } else if tags[index] == EndFun {
        funStarts := funStarts - 1;
      }
      index := index + 1;
    }
  }

  /** `ift_get_flat_size`. */
  method GetFlatSize(tags: seq<Byte>) returns (n: nat)
    ensures n == FlatSize(tags)
    decreases |tags|
  {
    if |tags| == 0 {
      return 0;
    }
    if tags[0] == Lst {
      var m := GetFlatSize(tags[1..]);
      return 1 + m;
    }
    if tags[0] == Fun {
      n := ScanFunEnd(tags);
      return;
    }
    n := 1;
  }

  /** The number of arguments counted by `ift_func_arg_count`, from index `i` of the tags in use. */
  function ArgsFrom(s: seq<Byte>, i: nat): nat
    decreases |s| - i
  {
    if i + 1 < |s| then 1 + ArgsFrom(s, i + FlatSize(s[i..])) else 0
  }

  /** The argument `index` places after `i`, as `ift_func_get_arg` walks to it: its start and size. */
  function ArgAt(s: seq<Byte>, i: nat, index: nat): (a: Option<(nat, nat)>)
    ensures a.Some? ==> i <= a.value.0 && a.value.0 + a.value.1 <= |s| && 1 <= a.value.1
    decreases |s| - i
  {
    if i + 1 < |s| then
      if index == 0 then Some((i, FlatSize(s[i..]))) else ArgAt(s, i + FlatSize(s[i..]), index - 1)
    else None
  }

  /** The number of arguments of a function type, zero for any other type. */
  function ArgCount(func: Ift): nat
    requires Wf(func)
  {
    if func.count == 0 || func.tags[0] != Fun then 0 else ArgsFrom(Tags(func), 1 + FlatSize(Tags(func)[1..]))
  }

  /** `ift_func_arg_count`: zero for a type that is not a function, else the chunks after the return type. */
  method FuncArgCount(func: Ift) returns (n: nat)
    requires Wf(func)
    ensures n == ArgCount(func)
    ensures func.count == 0 || func.tags[0] != Fun ==> n == 0
    ensures func.count > 0 && func.tags[0] == Fun ==> n == ArgsFrom(Tags(func), 1 + FlatSize(Tags(func)[1..]))
  {
    if func.count == 0 || func.tags[0] != Fun {
      return 0;
    }
    var s := Tags(func);
    var r := GetFlatSize(s[1..]);
    var i := 1 + r;
    ghost var i0 := i;
    n := 0;
    while i + 1 < |s|
      invariant n + ArgsFrom(s, i) == ArgsFrom(s, i0)
      decreases |s| - i
    {
      n := n + 1;
      var k := GetFlatSize(s[i..]);
      i := i + k;
    }
  }

  /**
   * `ift_func_get_arg`: the argument at `index`, extracted; unknown for a
   * type that is not a function, a negative index or one past the arguments.
   */
  method FuncGetArg(func: Ift, index: int) returns (r: Result<Ift, Abort>)
    requires Wf(func)
    ensures func.count == 0 || func.tags[0] != Fun || index < 0 ==> r == Ok(Unknown())
    ensures func.count > 0 && func.tags[0] == Fun && index >= 0 ==>
      var at := ArgAt(Tags(func), 1 + FlatSize(Tags(func)[1..]), index);
      (at.None? ==> r == Ok(Unknown())) &&
      (at.Some? && 0 < at.value.1 < MaxTags ==> r.Ok? && Wf(r.value) && Tags(r.value) == Tags(func)[at.value.0..at.value.0 + at.value.1]) &&
      (at.Some? && !(0 < at.value.1 < MaxTags) ==> r.Err?)
  {
    if func.count == 0 || func.tags[0] != Fun || index < 0 {
      return Ok(Unknown());
    }
    var s := Tags(func);
    var rs := GetFlatSize(s[1..]);
    var at := FindArg(s, 1 + rs, index);
    if at.None? {
      return Ok(Unknown());
    }
    var (i, chunk) := at.value;
    r := Extract(s[i..], chunk);
    if r.Ok? {
      assert s[i..][..chunk] == s[i..i + chunk];
    }
  }

  /** The walk of `ift_func_get_arg` over the arguments, chunk by chunk, to the one at `index`. */
  method FindArg(s: seq<Byte>, start: nat, index: nat) returns (at: Option<(nat, nat)>)
    ensures at == ArgAt(s, start, index)
  {
    var i := start;
    var argIndex := 0;
    while i + 1 < |s|
      invariant argIndex <= index
      invariant ArgAt(s, i, index - argIndex) == ArgAt(s, start, index)
      decreases |s| - i
    {
      var chunk := GetFlatSize(s[i..]);
      if argIndex == index {
        return Some((i, chunk));
      }
      i := i + chunk;
      argIndex := argIndex + 1;
    }
    at := None;
  }

  lemma FlatSizeBound(s: seq<Byte>, i: nat)
    requires i <= |s|
    ensures i + FlatSize(s[i..]) <= |s|
  {
  }

  /** `ift_func_get_return_type`: the chunk after the function tag; unknown for a type that is not a function. */
  method FuncGetReturnType(func: Ift) returns (r: Result<Ift, Abort>)
    requires Wf(func)
    ensures func.count < 2 || func.tags[0] != Fun ==> r == Ok(Unknown())
    ensures func.count >= 2 && func.tags[0] == Fun ==>
      r.Ok? && Wf(r.value) && Tags(r.value) == Tags(func)[1..1 + FlatSize(Tags(func)[1..])]
  {
    if func.count < 2 || func.tags[0] != Fun {
      return Ok(Unknown());
    }
    var s := Tags(func);
    var chunk := GetFlatSize(s[1..]);
    FlatSizeBound(s, 1);
    r := Extract(s[1..], chunk);
    assert s[1..][..chunk] == s[1..1 + chunk];
  }

  // The tree a tag sequence encodes

  /** An interface type as a tree. */
  datatype IType = Base(tag: Byte) | ListOf(content: IType) | FuncOf(ret: IType, args: seq<IType>)

  /** Scalars carry a tag that is neither the list tag nor a function delimiter. */
  predicate WfType(ty: IType)
    decreases ty
  {
    match ty
    case Base(tag) => tag != Lst && tag != Fun && tag != EndFun
    case ListOf(c) => WfType(c)
    case FuncOf(r, args) => WfType(r) && forall a :: a in args ==> WfType(a)
  }

  /** The tags of a tree, in the layout the constructors build. */
  function Encode(ty: IType): (s: seq<Byte>)
    ensures |s| >= 1
    decreases ty
  {
    match ty
    case Base(tag) => [tag]
    case ListOf(c) => [Lst] + Encode(c)
    case FuncOf(r, args) => [Fun] + Encode(r) + EncodeAll(args) + [EndFun]
  }

  function EncodeAll(args: seq<IType>): seq<Byte>
    decreases args
  {
    if args == [] then [] else Encode(args[0]) + EncodeAll(args[1..])
  }

  lemma {:induction false} EncodeAllSnoc(args: seq<IType>, a: IType)
    ensures EncodeAll(args + [a]) == EncodeAll(args) + Encode(a)
  {
    if args == [] {
      assert args + [a] == [a];
    } else {
      assert (args + [a])[1..] == args[1..] + [a];
      EncodeAllSnoc(args[1..], a);
    }
  }

  /** A slice of a window is the window's slice. */
  lemma SliceOfSlice(s: seq<Byte>, i: nat, e: seq<Byte>, a: nat, b: nat)
    requires i + |e| <= |s| && s[i..i + |e|] == e && a <= b <= |e|
    ensures s[i + a..i + b] == e[a..b]
  {
    forall t | 0 <= t < b - a
      ensures s[i + a..i + b][t] == e[a..b][t]
    {
      assert e[a + t] == s[i..i + |e|][a + t];
    }
  }

  lemma FunEndStep(s: seq<Byte>, i: nat, k: int)
    requires k >= 1 && i < |s|
    ensures FunEnd(s, i, k) == FunEnd(s, i + 1, NextStarts(s[i], k))
  {
  }

  /** The scan for the end tag passes over a well-formed encoding without closing an open function. */
  lemma {:induction false} FunEndSkips(s: seq<Byte>, i: nat, k: int, ty: IType)
    requires k >= 1 && WfType(ty) && i + |Encode(ty)| <= |s| && s[i..i + |Encode(ty)|] == Encode(ty)
    ensures FunEnd(s, i, k) == FunEnd(s, i + |Encode(ty)|, k)
    decreases ty, 1
  {
    var e := Encode(ty);
    assert s[i] == e[0];
    FunEndStep(s, i, k);
    match ty
    case Base(tag) =>
    case ListOf(c) =>
      SliceOfSlice(s, i, e, 1, |e|);
      FunEndSkips(s, i + 1, k, c);
    case FuncOf(r, args) =>
      FuncSlices(s, i, r, args);
      FunEndSkipsFunc(s, i, k, r, args);
  }

  /** The parts of a function's encoding: its tag, the return type, the arguments and the end tag. */
  lemma FuncEncodingParts(r: IType, args: seq<IType>)
    ensures var e := Encode(FuncOf(r, args)); var n := |Encode(r)|; var m := |EncodeAll(args)|;
      |e| == n + m + 2 && e[0] == Fun && e[1..1 + n] == Encode(r) &&
      e[1 + n..1 + n + m] == EncodeAll(args) && e[1 + n + m] == EndFun
  {
    var e := Encode(FuncOf(r, args));
    var er := Encode(r);
    var ea := EncodeAll(args);
    assert e == [Fun] + er + ea + [EndFun];
    assert e[1..1 + |er|] == er;
    assert e[1 + |er|..1 + |er| + |ea|] == ea;
  }

  /** Where the parts of a function's encoding lie once the encoding sits at `i`. */
  lemma FuncSlices(s: seq<Byte>, i: nat, r: IType, args: seq<IType>)
    requires i + |Encode(FuncOf(r, args))| <= |s| && s[i..i + |Encode(FuncOf(r, args))|] == Encode(FuncOf(r, args))
    ensures var n := |Encode(r)|; var m := |EncodeAll(args)|;
      |Encode(FuncOf(r, args))| == n + m + 2 &&
      s[i + 1..i + 1 + n] == Encode(r) && s[i + 1 + n..i + 1 + n + m] == EncodeAll(args) && s[i + 1 + n + m] == EndFun
  {
    var e := Encode(FuncOf(r, args));
    FuncEncodingParts(r, args);
    SliceOfSlice(s, i, e, 1, 1 + |Encode(r)|);
    SliceOfSlice(s, i, e, 1 + |Encode(r)|, 1 + |Encode(r)| + |EncodeAll(args)|);
    assert s[i + 1 + |Encode(r)| + |EncodeAll(args)|] == e[1 + |Encode(r)| + |EncodeAll(args)|];
  }

  /** The scan passes over a function's return type and arguments and stops after its end tag. */
  lemma {:induction false} FunEndSkipsFunc(s: seq<Byte>, i: nat, k: int, r: IType, args: seq<IType>)
    requires k >= 1 && WfType(r) && forall a :: a in args ==> WfType(a)
    requires var n := |Encode(r)|; var m := |EncodeAll(args)|;
      i + 1 + n + m < |s| &&
      s[i + 1..i + 1 + n] == Encode(r) && s[i + 1 + n..i + 1 + n + m] == EncodeAll(args) && s[i + 1 + n + m] == EndFun
    ensures FunEnd(s, i + 1, k + 1) == FunEnd(s, i + 2 + |Encode(r)| + |EncodeAll(args)|, k)
    decreases FuncOf(r, args), 0
  {
    var n := |Encode(r)|;
    var m := |EncodeAll(args)|;
    FunEndSkips(s, i + 1, k + 1, r);
    FunEndSkipsAll(s, i + 1 + n, k + 1, args);
    FunEndStep(s, i + 1 + n + m, k + 1);
  }

  lemma {:induction false} FunEndSkipsAll(s: seq<Byte>, i: nat, k: int, args: seq<IType>)
    requires k >= 1 && (forall a :: a in args ==> WfType(a))
    requires i + |EncodeAll(args)| <= |s| && s[i..i + |EncodeAll(args)|] == EncodeAll(args)
    ensures FunEnd(s, i, k) == FunEnd(s, i + |EncodeAll(args)|, k)
    decreases args, 0
  {
    if args != [] {
      var e0 := Encode(args[0]);
      assert s[i..i + |e0|] == EncodeAll(args)[..|e0|];
      FunEndSkips(s, i, k, args[0]);
      assert s[i + |e0|..i + |e0| + |EncodeAll(args[1..])|] == EncodeAll(args)[|e0|..];
      FunEndSkipsAll(s, i + |e0|, k, args[1..]);
    }
  }

  /** `ift_get_flat_size` of an encoding followed by anything is the encoding's length. */
  lemma {:induction false} FlatSizeOfEncoding(ty: IType, rest: seq<Byte>)
    requires WfType(ty)
    ensures FlatSize(Encode(ty) + rest) == |Encode(ty)|
    decreases ty
  {
    var s := Encode(ty) + rest;
    match ty
    case Base(tag) =>
    case ListOf(c) =>
      assert s[1..] == Encode(c) + rest;
      FlatSizeOfEncoding(c, rest);
    case FuncOf(r, args) =>
      var j := 1 + |Encode(r)|;
      assert s[1..j] == Encode(r);
      FunEndSkips(s, 1, 1, r);
      assert s[j..j + |EncodeAll(args)|] == EncodeAll(args);
      FunEndSkipsAll(s, j, 1, args);
  }

  /** A function encoding answers, from the end of its return type, exactly its arguments. */
  lemma {:induction false} ArgsFromEncoding(s: seq<Byte>, i: nat, args: seq<IType>)
    requires forall a :: a in args ==> WfType(a)
    requires i <= |s| && s == s[..i] + EncodeAll(args) + [EndFun]
    ensures ArgsFrom(s, i) == |args|
    ensures forall k :: 0 <= k < |args| ==> ArgAt(s, i, k).Some?
    ensures ArgAt(s, i, |args|).None?
    decreases args
  {
    if args != [] {
      var e0 := Encode(args[0]);
      assert s[i..] == e0 + (EncodeAll(args[1..]) + [EndFun]);
      FlatSizeOfEncoding(args[0], EncodeAll(args[1..]) + [EndFun]);
      assert s == s[..i + |e0|] + EncodeAll(args[1..]) + [EndFun];
      ArgsFromEncoding(s, i + |e0|, args[1..]);
      forall k | 0 <= k < |args|
        ensures ArgAt(s, i, k).Some?
      {
        if k > 0 {
          assert ArgAt(s, i, k) == ArgAt(s, i + |e0|, k - 1);
        }
      }
    }
  }

  /** The argument found at `k` is the encoding of the `k`-th argument. */
  lemma {:induction false} ArgAtEncoding(s: seq<Byte>, i: nat, args: seq<IType>, k: nat)
    requires forall a :: a in args ==> WfType(a)
    requires i <= |s| && s == s[..i] + EncodeAll(args) + [EndFun] && k < |args|
    ensures ArgAt(s, i, k).Some?
    ensures var at := ArgAt(s, i, k).value; at.0 + at.1 <= |s| && s[at.0..at.0 + at.1] == Encode(args[k])
    decreases args
  {
    var e0 := Encode(args[0]);
    assert s[i..] == e0 + (EncodeAll(args[1..]) + [EndFun]);
    FlatSizeOfEncoding(args[0], EncodeAll(args[1..]) + [EndFun]);
    if k == 0 {
      assert s[i..i + |e0|] == e0;
    } else {
      assert s == s[..i + |e0|] + EncodeAll(args[1..]) + [EndFun];
      ArgAtEncoding(s, i + |e0|, args[1..], k - 1);
    }
  }

  /**
   * On the tags of a function built by `ift_func` and `ift_func_add_arg`, the
   * return type comes first and `ift_func_arg_count` is the number of
   * arguments added.
   */
  lemma FunctionEncodingReads(r: IType, args: seq<IType>)
    requires WfType(FuncOf(r, args))
    ensures var s := Encode(FuncOf(r, args));
      FlatSize(s[1..]) == |Encode(r)| && s[1..1 + |Encode(r)|] == Encode(r) &&
      ArgsFrom(s, 1 + |Encode(r)|) == |args| && ArgAt(s, 1 + |Encode(r)|, |args|).None?
  {
    var s := Encode(FuncOf(r, args));
    FunctionEncodingSplit(r, args);
    FlatSizeOfEncoding(r, EncodeAll(args) + [EndFun]);
    ArgsFromEncoding(s, 1 + |Encode(r)|, args);
  }

  /** ... and `ift_func_get_arg` at `k` finds the tags of the `k`-th argument added. */
  lemma FunctionEncodingArg(r: IType, args: seq<IType>, k: nat)
    requires WfType(FuncOf(r, args)) && k < |args|
    ensures var s := Encode(FuncOf(r, args));
      FlatSize(s[1..]) == |Encode(r)| && ArgAt(s, 1 + |Encode(r)|, k).Some? &&
      var at := ArgAt(s, 1 + |Encode(r)|, k).value; at.0 + at.1 <= |s| && s[at.0..at.0 + at.1] == Encode(args[k])
  {
    var s := Encode(FuncOf(r, args));
    FunctionEncodingSplit(r, args);
    FlatSizeOfEncoding(r, EncodeAll(args) + [EndFun]);
    ArgAtEncoding(s, 1 + |Encode(r)|, args, k);
  }

  lemma FunctionEncodingSplit(r: IType, args: seq<IType>)
    ensures var s := Encode(FuncOf(r, args));
      s[1..] == Encode(r) + (EncodeAll(args) + [EndFun]) &&
      s == s[..1 + |Encode(r)|] + EncodeAll(args) + [EndFun]
  {
    var s := Encode(FuncOf(r, args));
    assert s[1..] == Encode(r) + (EncodeAll(args) + [EndFun]);
    assert s == s[..1 + |Encode(r)|] + EncodeAll(args) + [EndFun];
  }

  /** Adding an argument to a built function extends the encoded argument list by one. */
  lemma AddArgEncodes(r: IType, args: seq<IType>, a: IType)
    ensures Encode(FuncOf(r, args))[..|Encode(FuncOf(r, args))| - 1] + Encode(a) + [EndFun] == Encode(FuncOf(r, args + [a]))
  {
    EncodeAllSnoc(args, a);
  }

  /** A list built by `ift_list` gives its content back. */
  lemma ListEncodes(c: IType)
    ensures ([Lst] + Encode(c))[1..] == Encode(c) && Encode(ListOf(c)) == [Lst] + Encode(c)
  {
  }
}
