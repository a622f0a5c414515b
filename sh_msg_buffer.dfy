/**
 * `sh_msg_buffer.h`: a bounded buffer of fixed-size messages with a title.
 * Every operation ignores a NULL buffer. The capacity
 * `VM_MSG_BUFFER_MSG_MAX_COUNT` is the length of the `messages` array.
 */
module ShMsgBuffer {
  import opened Wrappers
  import opened ShUtils

  class MsgBuffer {
    var title: Sstr
    const messages: array<Sstr>
    var count: nat

    ghost predicate Valid()
      reads this
    {
      count <= messages.Length
    }

    /** The messages appended since the last init or clear, oldest first. */
    ghost function Contents(): seq<Sstr>
      reads this, messages
      requires Valid()
    {
      messages[..count]
    }

    /** A buffer with room for `maxCount` messages. */
    constructor (maxCount: nat)
      ensures Valid() && messages.Length == maxCount && count == 0 && fresh(messages)
    {
      title := EmptySstr();
      messages := new Sstr[maxCount](_ => EmptySstr());
      count := 0;
    }
  }

  /** `sh_msg_buffer_init`: the title as an `sstr`, no messages, every slot zeroed. */
  method Init(buf: MsgBuffer?, title: seq<char>) returns (res: Result<(), Abort>)
    modifies if buf == null then {} else {buf, buf.messages}
    ensures buf != null ==> (res.Ok? <==> MakeSstr(title).Ok?)
    ensures buf != null && res.Ok? ==>
      buf.Valid() && buf.title == MakeSstr(title).value && buf.count == 0 &&
      forall i :: 0 <= i < buf.messages.Length ==> buf.messages[i] == EmptySstr()
  {
    if buf == null {
      return Ok(());
    }
    var t := MakeSstr(title);
    if t.Err? {
      return Err(t.error);
    }
    buf.title := t.value;
    buf.count := 0;
    var i := 0;
    while i < buf.messages.Length
      invariant 0 <= i <= buf.messages.Length && buf.count == 0 && buf.title == t.value
      invariant forall j :: 0 <= j < i ==> buf.messages[j] == EmptySstr()
    {
      buf.messages[i] := EmptySstr();
      i := i + 1;
    }
    res := Ok(());
  }

  /** `sh_msg_buffer_append`: the message goes into the next slot while one is free, and is dropped otherwise. */
  method Append(buf: MsgBuffer?, msg: Sstr)
    requires buf != null ==> buf.Valid()
    modifies if buf == null then {} else {buf, buf.messages}
    ensures buf != null ==> buf.Valid() && buf.title == old(buf.title)
    ensures buf != null && old(buf.count) < buf.messages.Length ==> buf.Contents() == old(buf.Contents()) + [msg]
    ensures buf != null && old(buf.count) >= buf.messages.Length ==>
      buf.count == old(buf.count) && buf.messages[..] == old(buf.messages[..])
  {
    if buf == null {
      return;
    }
    if buf.count >= buf.messages.Length {
      return;
    }
    buf.messages[buf.count] := msg;
    buf.count := buf.count + 1;
  }

  /** `sh_msg_buffer_clear`: no messages; the slots keep their old contents. */
  method Clear(buf: MsgBuffer?)
    requires buf != null ==> buf.Valid()
    modifies buf
    ensures buf != null ==> buf.Valid() && buf.count == 0 && buf.Contents() == [] && buf.title == old(buf.title)
  {
    if buf == null {
      return;
    }
    buf.count := 0;
  }
}
