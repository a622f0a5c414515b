/**
 * `vm_msg_buffer.h`: the runtime's bounded buffer of fixed-size messages.
 * Unlike `ShMsgBuffer` its operations take a buffer that is never NULL.
 */
module VmMsgBuffer {
  import opened Wrappers
  import opened ShUtils

  class MsgBuffer {
    var title: Sstr
    const messages: array<Sstr>
    var count: nat

    ghost predicate Valid()
      reads this
    {
      count <= messages.Length
    }

    ghost function Contents(): seq<Sstr>
      reads this, messages
      requires Valid()
    {
      messages[..count]
    }

    /** A buffer with room for `maxCount` messages (`VM_MSG_BUFFER_MSG_MAX_COUNT`). */
    constructor (maxCount: nat)
      ensures Valid() && messages.Length == maxCount && count == 0 && fresh(messages)
    {
      title := EmptySstr();
      messages := new Sstr[maxCount](_ => EmptySstr());
      count := 0;
    }

    /** `vm_msg_buffer_init`: the title as an `sstr`, no messages, every slot zeroed. */
    method Init(title: seq<char>) returns (res: Result<(), Abort>)
      modifies this, messages
      ensures res.Ok? <==> MakeSstr(title).Ok?
      ensures res.Ok? ==>
        Valid() && this.title == MakeSstr(title).value && count == 0 &&
        forall i :: 0 <= i < messages.Length ==> messages[i] == EmptySstr()
    {
      var t := MakeSstr(title);
      if t.Err? {
        return Err(t.error);
      }
      this.title := t.value;
      count := 0;
      var i := 0;
      while i < messages.Length
        invariant 0 <= i <= messages.Length && count == 0 && this.title == t.value
        invariant forall j :: 0 <= j < i ==> messages[j] == EmptySstr()
      {
        messages[i] := EmptySstr();
        i := i + 1;
      }
      res := Ok(());
    }

    /**
     * `vm_msg_buffer_append`: ignored when full; otherwise the message lands at
     * index `count` and the earlier messages stay.
     */
    method Append(msg: Sstr)
      requires Valid()
      modifies this, messages
      ensures Valid() && title == old(title)
      ensures old(count) < messages.Length ==>
        count == old(count) + 1 && messages[old(count)] == msg &&
        messages[..old(count)] == old(messages[..count]) && Contents() == old(Contents()) + [msg]
      ensures old(count) >= messages.Length ==> count == old(count) && messages[..] == old(messages[..])
    {
      if count >= messages.Length {
        return;
      }
      messages[count] := msg;
      count := count + 1;
    }

    /** `vm_msg_buffer_clear`. */
    method Clear()
      requires Valid()
      modifies this
      ensures Valid() && count == 0 && Contents() == [] && title == old(title)
    {
      count := 0;
    }
  }
}
