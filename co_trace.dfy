/**
 * `co_trace.h`: the compiler's trace, a growable list of messages each with
 * a kind, the source path current when it was made, a location and a text
 * of at most `TRACE_MSG_MAX_LEN` characters, and a count of the messages
 * that are errors.
 */
module CoTrace {
  import opened Wrappers
  import opened CoTypes
  import ShUtils
  import CoUtils
  import CoCres

  /** `trace_msg_t`: the kind, path and location are fixed when the message is made; the text grows. */
  class TraceMsg {
    const kind: TraceMsgType
    const sourcePath: Option<seq<char>>
    const location: SrcRef
    var length: nat
    const message: array<char>
    /** Everything ever appended, of which the message keeps the first `TRACE_MSG_MAX_LEN` characters. */
    ghost var requested: seq<char>

    ghost predicate Valid()
      reads this
    {
      message.Length == TraceMsgMaxLen && length <= message.Length
    }

    function Text(): seq<char>
      reads this, message
      requires Valid()
    {
      message[..length]
    }

    /** The text is the longest prefix of what was appended that fits. */
    ghost predicate Truncates()
      reads this, message
      requires Valid()
    {
      Text() == ShUtils.Take(requested, TraceMsgMaxLen)
    }

    constructor (kind: TraceMsgType, sourcePath: Option<seq<char>>, location: SrcRef)
      ensures Valid() && Truncates() && length == 0 && requested == [] && fresh(message)
      ensures this.kind == kind && this.sourcePath == sourcePath && this.location == location
    {
      this.kind := kind;
      this.sourcePath := sourcePath;
      this.location := location;
      length := 0;
      message := new char[TraceMsgMaxLen](_ => '\0');
      requested := [];
    }
  }

  /**
   * `trace_msg_append`: nothing for a NULL message; otherwise as many of the
   * first `slen` characters of `str` as there is room for, answering how many.
   */
  method MsgAppend(msg: TraceMsg?, str: seq<char>, slen: nat) returns (written: nat)
    requires msg != null ==> msg.Valid() && msg.Truncates()
    requires slen <= |str|
    modifies if msg == null then {} else {msg, msg.message}
    ensures msg == null ==> written == 0
    ensures msg != null ==> msg.Valid() && msg.Truncates() && written <= slen
    ensures msg != null ==> msg.Text() == old(msg.Text()) + str[..written]
    ensures msg != null ==> msg.requested == old(msg.requested) + str[..slen]
    ensures msg != null && old(msg.length) < TraceMsgMaxLen ==>
      written == |ShUtils.Take(str[..slen], TraceMsgMaxLen - old(msg.length))|
    ensures msg != null && old(msg.length) >= TraceMsgMaxLen ==> written == 0
  {
    if msg == null {
      return 0;
    }
    msg.requested := msg.requested + str[..slen];
    CoCres.TakeConcat(old(msg.requested), str[..slen], TraceMsgMaxLen);
    var remaining := TraceMsgMaxLen - msg.length;
    if remaining <= 0 || slen == 0 {
      return 0;
    }
    written := if slen < remaining then slen else remaining;
    var i := 0;
    while i < written
      invariant 0 <= i <= written && msg.length == old(msg.length)
      invariant msg.message[..msg.length] == old(msg.Text())
      invariant forall k :: 0 <= k < i ==> msg.message[msg.length + k] == str[k]
      invariant msg.requested == old(msg.requested) + str[..slen]
    {
      msg.message[msg.length + i] := str[i];
      i := i + 1;
    }
    msg.length := msg.length + written;
    assert msg.Text() == old(msg.Text()) + str[..written];
  }

  /** `trace_msg_append_srcref`: the referenced characters; a reference without a source reads through NULL when there is something to copy. */
  method MsgAppendSrcRef(msg: TraceMsg?, r: SrcRef) returns (res: Result<nat, Abort>)
    requires msg != null ==> msg.Valid() && msg.Truncates()
    modifies if msg == null then {} else {msg, msg.message}
    ensures msg != null ==> msg.Valid() && msg.Truncates()
    ensures res.Err? <==> msg != null && r.source.None? && CoUtils.Len(r) > 0 && old(msg.length) < TraceMsgMaxLen
    ensures res.Err? ==> res.error == NullDereference
    ensures msg != null && res.Ok? ==> msg.requested == old(msg.requested) + CoUtils.Chars(r)
  {
    if msg != null && r.source.None? && CoUtils.Len(r) > 0 && msg.length < TraceMsgMaxLen {
      return Err(NullDereference);
    }
    var w := MsgAppend(msg, CoUtils.Chars(r), CoUtils.Len(r));
    assert CoUtils.Chars(r)[..CoUtils.Len(r)] == CoUtils.Chars(r);
    res := Ok(w);
  }

  /** `trace_msg_append_token_type_name`: the names of the compilation result, and names for the import and export keywords. */
  function TokenTypeName(t: TokenType): (name: string)
    ensures |name| > 0
  {
    match t
    case TtImport => "from host to script import"
    case TtExport => "from script to host export"
    case _ => CoCres.TokenTypeName(t)
  }

  /** The two tables differ only on the import and export keywords, which the compilation result calls unknown. */
  lemma TokenTypeNamesAgree(t: TokenType)
    ensures t != TtImport && t != TtExport ==> TokenTypeName(t) == CoCres.TokenTypeName(t)
    ensures t == TtImport || t == TtExport ==> CoCres.TokenTypeName(t) == "unknown" != TokenTypeName(t)
  {
  }

  /** `trace_msg_append_token_type_name`. */
  method MsgAppendTokenTypeName(msg: TraceMsg?, t: TokenType) returns (written: nat)
    requires msg != null ==> msg.Valid() && msg.Truncates()
    modifies if msg == null then {} else {msg, msg.message}
    ensures msg != null ==> msg.Valid() && msg.Truncates() && msg.requested == old(msg.requested) + TokenTypeName(t)
  {
    var name := TokenTypeName(t);
    written := MsgAppend(msg, name, |name|);
  }

  /** The number of messages of `ms` that are errors. */
  function ErrorsIn(ms: seq<TraceMsg?>): (n: nat)
    ensures n <= |ms|
  {
    if ms == [] then 0
    else ErrorsIn(ms[..|ms| - 1]) + (if ms[|ms| - 1] != null && IsErrorKind(ms[|ms| - 1].kind) then 1 else 0)
  }

  /** `trace_t`. */
  class Trace {
    var messages: array<TraceMsg?>
    var count: nat
    var capacity: nat
    var currentSourcePath: Option<seq<char>>
    var errorCount: nat
    /** Out-of-memory reports counted as errors although they lie outside the messages. */
    ghost var unlisted: nat

    /** The messages are all present, and the error count counts the errors among them and the unlisted reports. */
    ghost predicate Valid()
      reads this, messages
    {
      capacity == messages.Length && count <= capacity &&
      (forall i :: 0 <= i < count ==> messages[i] != null) &&
      errorCount == ErrorsIn(messages[..count]) + unlisted
    }

    function Messages(): seq<TraceMsg?>
      reads this, messages
      requires Valid()
    {
      messages[..count]
    }

    /** `trace_init`. */
    constructor (capacity: nat)
      ensures Valid() && Messages() == [] && errorCount == 0 && unlisted == 0
      ensures this.capacity == capacity && currentSourcePath == None
    {
      messages := new TraceMsg?[capacity];
      count := 0;
      this.capacity := capacity;
      currentSourcePath := None;
      errorCount := 0;
      unlisted := 0;
    }

    /** `trace_destroy`: the trace is zeroed. */
    method Destroy()
      modifies this
      ensures Valid() && Messages() == [] && capacity == 0 && errorCount == 0 && currentSourcePath == None
    {
      messages := new TraceMsg?[0];
      count := 0;
      capacity := 0;
      currentSourcePath := None;
      errorCount := 0;
      unlisted := 0;
    }

    /** `trace_set_current_source_path`. */
    method SetCurrentSourcePath(path: Option<seq<char>>)
      modifies this
      ensures currentSourcePath == path
      ensures messages == old(messages) && count == old(count) && capacity == old(capacity)
      ensures errorCount == old(errorCount) && unlisted == old(unlisted)
    {
      currentSourcePath := path;
    }

    /**
     * `trace_create_message`: when the next message would fill the block, it
     * is resized to twice the message count, then the message is made in the
     * next slot with the current source path and an empty text. With no
     * message yet and a capacity of at most one the new block is empty, and
     * the write misses it.
     */
    method CreateMessage(kind: TraceMsgType, loc: SrcRef) returns (r: Result<TraceMsg, Abort>)
      requires Valid()
      modifies this, messages
      ensures Valid() && currentSourcePath == old(currentSourcePath) && unlisted == old(unlisted)
      ensures r.Err? <==> old(count) == 0 && old(capacity) <= 1
      ensures r.Err? ==> r.error == OutOfBounds && Messages() == old(Messages()) && errorCount == old(errorCount)
      ensures r.Ok? ==> Messages() == old(Messages()) + [r.value] && fresh(r.value) && fresh(r.value.message)
      ensures r.Ok? ==> r.value.Valid() && r.value.Truncates() && r.value.length == 0 && r.value.requested == []
      ensures r.Ok? ==> r.value.kind == kind && r.value.sourcePath == old(currentSourcePath) && r.value.location == loc
      ensures r.Ok? ==> errorCount == old(errorCount) + (if IsErrorKind(kind) then 1 else 0)
      ensures old(count) + 1 >= old(capacity) ==> capacity == old(count) * 2
      ensures old(count) + 1 < old(capacity) ==> capacity == old(capacity) && messages == old(messages)
      ensures messages == old(messages) || fresh(messages)
    {
      if count + 1 >= capacity {
        Resize(count * 2);
      }
      if count >= capacity {
        return Err(OutOfBounds);
      }
      var msg := new TraceMsg(kind, currentSourcePath, loc);
      Push(msg);
      r := Ok(msg);
    }

    /** The `realloc` of `trace_create_message`: a block of `newCap` slots holding the messages. */
    method Resize(newCap: nat)
      requires Valid() && count <= newCap
      modifies this
      ensures Valid() && Messages() == old(Messages()) && capacity == newCap && fresh(messages)
      ensures errorCount == old(errorCount) && unlisted == old(unlisted) && currentSourcePath == old(currentSourcePath)
    {
      messages := CoUtils.Realloc(messages, count, newCap);
      capacity := newCap;
    }

    /** The message goes into the next slot, and is counted if it is an error. */
    method Push(msg: TraceMsg)
      requires Valid() && count < capacity
      modifies this, messages
      ensures Valid() && Messages() == old(Messages()) + [msg] && messages == old(messages) && capacity == old(capacity)
      ensures errorCount == old(errorCount) + (if IsErrorKind(msg.kind) then 1 else 0)
      ensures unlisted == old(unlisted) && currentSourcePath == old(currentSourcePath)
    {
      ghost var before := messages[..count];
      messages[count] := msg;
      count := count + 1;
      assert messages[..count] == before + [msg];
      assert messages[..count][..count - 1] == before;
      if IsErrorKind(msg.kind) {
        errorCount := errorCount + 1;
      }
    }

    /**
     * `trace_out_of_memory_error`: an out-of-memory message while the block
     * has room for one more; otherwise the slot after the last message is
     * retyped as an out-of-memory report and counted as an error, though it
     * is not among the messages.
     */
    method OutOfMemoryError() returns (r: Result<(), Abort>)
      requires Valid()
      modifies this, messages
      ensures Valid() && currentSourcePath == old(currentSourcePath)
      ensures old(count) + 1 < old(capacity) ==>
        r.Ok? && |Messages()| == old(count) + 1 && Messages()[..old(count)] == old(Messages()) &&
        Messages()[old(count)].kind == TmOutOfMemory && errorCount == old(errorCount) + 1
      ensures old(count) + 1 >= old(capacity) && old(count) < old(capacity) ==>
        r.Ok? && Messages() == old(Messages()) && errorCount == old(errorCount) + 1 &&
        count == old(count) && count < messages.Length && messages[count] != null && messages[count].kind == TmOutOfMemory
      ensures old(count) >= old(capacity) ==> r == Err(OutOfBounds) && Messages() == old(Messages())
    {
      if count + 1 < capacity {
        var m := CreateMessage(TmOutOfMemory, NoRef);
        return Ok(());
      }
      if count >= capacity {
        return Err(OutOfBounds);
      }
      ghost var before := messages[..count];
      messages[count] := new TraceMsg(TmOutOfMemory, None, NoRef);
      assert messages[..count] == before;
      errorCount := errorCount + 1;
      unlisted := unlisted + 1;
      r := Ok(());
    }

    /**
     * `trace_not_implemented`: an internal error whose text is the location
     * (at most 227 characters of it) and a fixed suffix.
     */
    method NotImplemented(location: seq<char>) returns (r: Result<TraceMsg, Abort>)
      requires Valid()
      modifies this, messages
      ensures Valid() && (r.Err? <==> old(count) == 0 && old(capacity) <= 1)
      ensures r.Ok? ==> Messages() == old(Messages()) + [r.value] && r.value.kind == TmInternalError
      ensures r.Ok? ==> r.value.Valid()
      ensures r.Ok? ==> r.value.requested == ShUtils.Take(ShUtils.CStr(location), TraceMsgMaxLen - 29) + " --- NOT IMPLEMENTED (YET)."
      ensures r.Ok? ==> errorCount == old(errorCount) + 1
    {
      r := CreateMessage(TmInternalError, NoRef);
      if r.Err? {
        return;
      }
      AppendNotImplemented(r.value, location);
    }

    /** `trace_get_error_count`. */
    function ErrorCount(): nat
      reads this
    {
      errorCount
    }

    /** `trace_get_message_count`. */
    function MessageCount(): nat
      reads this
    {
      count
    }

    /** `trace_clear`: no messages and no errors; the block is kept. */
    method Clear()
      requires Valid()
      modifies this
      ensures Valid() && Messages() == [] && errorCount == 0 && capacity == old(capacity) && messages == old(messages)
      ensures currentSourcePath == old(currentSourcePath)
    {
      errorCount := 0;
      count := 0;
      unlisted := 0;
    }
  }

  /** The text of `trace_not_implemented` appended to a new message. */
  method AppendNotImplemented(m: TraceMsg, location: seq<char>)
    requires m.Valid() && m.Truncates() && m.requested == []
    modifies m, m.message
    ensures m.Valid() && m.Truncates()
    ensures m.requested == ShUtils.Take(ShUtils.CStr(location), TraceMsgMaxLen - 29) + " --- NOT IMPLEMENTED (YET)."
  {
    var n := CoUtils.StrNLen(location, TraceMsgMaxLen - 29);
    var w := MsgAppend(m, location, n);
    assert location[..n] == ShUtils.Take(ShUtils.CStr(location), TraceMsgMaxLen - 29);
    w := MsgAppend(m, " --- NOT IMPLEMENTED (YET).", 27);
    assert " --- NOT IMPLEMENTED (YET)."[..27] == " --- NOT IMPLEMENTED (YET).";
  }

  /** While no report went unlisted, the error count is the number of error messages. */
  lemma ErrorCountCountsErrors(t: Trace)
    requires t.Valid() && t.unlisted == 0
    ensures t.ErrorCount() == ErrorsIn(t.Messages()) <= t.MessageCount()
  {
  }

  /** `trace_fprint_location`: the same text as `cres_fprint_location`. */
  method FprintLocation(r: SrcRef, filepath: Option<seq<char>>) returns (n: nat, out: string)
    ensures out == CoCres.LocationText(r, filepath) && n == |out|
    ensures r.source.None? <==> out == []
  {
    n, out := CoCres.FprintLocation(r, filepath);
  }
}
