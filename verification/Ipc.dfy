/** The per-process message ring of `src/kernel/ipc.rs`. */
module Ipc {
  import opened Prelude
  import opened Alignment
  import opened Labels

  datatype MessagePayload = MessagePayload(securityClass: SecurityClass, data: seq<byte>)

  datatype Message = Message(sender: ProcessId, receiver: ProcessId, sequence: nat, payload: MessagePayload)

  datatype MessageQueueError = Full

  /** The ring position `i` places after `head`. */
  function Slot(head: nat, i: nat, n: nat): nat
    requires head < n && i <= n
  {
    if head + i < n then head + i else head + i - n
  }

  lemma WrapIsSlot(head: nat, i: nat, n: nat)
    requires head < n && i <= n
    ensures (head + i) % n == Slot(head, i, n)
  {
    if head + i < n {
      ModUnique(head + i, n, 0, head + i);
    } else {
      ModUnique(head + i, n, 1, head + i - n);
    }
  }

  /** One place before the slot behind the last message is the last message. */
  lemma StepBack(head: nat, len: nat, n: nat)
    requires head < n && 0 < len <= n
    ensures var tail := if len < n then Slot(head, len, n) else head;
            (tail + n - 1) % n == Slot(head, len - 1, n)
  {
    WrapIsSlot(if len < n then Slot(head, len, n) else head, n - 1, n);
  }

  /** Exactly the `len` slots from `head` on are filled. */
  ghost predicate RingOk(slots: seq<Option<Message>>, head: nat, len: nat) {
    var n := |slots|;
    && len <= n
    && (if n == 0 then head == 0 else head < n)
    && (forall i :: 0 <= i < n ==> slots[i].Some? == (head <= i < head + len || i + n < head + len))
  }

  /** The queued messages, oldest first. */
  ghost function RingContents(slots: seq<Option<Message>>, head: nat, len: nat): (q: seq<Message>)
    requires RingOk(slots, head, len)
    ensures |q| == len
    ensures forall i :: 0 <= i < len ==> q[i] == slots[Slot(head, i, |slots|)].value
  {
    seq(len, i requires 0 <= i < len => slots[Slot(head, i, |slots|)].value)
  }

  lemma PushAppends(slots: seq<Option<Message>>, head: nat, len: nat, m: Message)
    requires RingOk(slots, head, len) && len < |slots|
    ensures var after := slots[Slot(head, len, |slots|) := Some(m)];
            RingOk(after, head, len + 1) && RingContents(after, head, len + 1) == RingContents(slots, head, len) + [m]
  {
    var after := slots[Slot(head, len, |slots|) := Some(m)];
    assert RingOk(after, head, len + 1);
    var q, r := RingContents(slots, head, len) + [m], RingContents(after, head, len + 1);
    assert forall i :: 0 <= i <= len ==> r[i] == q[i];
  }

  lemma PopDrops(slots: seq<Option<Message>>, head: nat, len: nat)
    requires RingOk(slots, head, len) && len > 0
    ensures var after, next := slots[head := None], Slot(head, 1, |slots|);
            && slots[head].Some? && RingOk(after, next, len - 1)
            && RingContents(slots, head, len) == [slots[head].value] + RingContents(after, next, len - 1)
  {
    var after, next := slots[head := None], Slot(head, 1, |slots|);
    assert RingOk(after, next, len - 1);
    hide RingOk, RingContents;
    var q, r := RingContents(slots, head, len), [slots[head].value] + RingContents(after, next, len - 1);
    assert forall i :: 0 < i < len ==> Slot(next, i - 1, |slots|) == Slot(head, i, |slots|) != head;
    assert forall i :: 0 < i < len ==> r[i] == after[Slot(next, i - 1, |slots|)].value;
    assert forall i :: 0 <= i < len ==> q[i] == r[i];
  }

  lemma RollbackDrops(slots: seq<Option<Message>>, head: nat, len: nat)
    requires RingOk(slots, head, len) && len > 0
    ensures var last := Slot(head, len - 1, |slots|);
            var after := slots[last := None];
            && slots[last].Some? && RingOk(after, head, len - 1)
            && RingContents(slots, head, len) == RingContents(after, head, len - 1) + [slots[last].value]
  {
    var last := Slot(head, len - 1, |slots|);
    var after := slots[last := None];
    assert RingOk(after, head, len - 1);
    var q, r := RingContents(slots, head, len), RingContents(after, head, len - 1) + [slots[last].value];
    assert forall i :: 0 <= i < len ==> q[i] == r[i];
  }

  class MessageQueue {
    const buffer: array<Option<Message>>
    var head: nat
    var tail: nat
    var len: nat

    /** The ring is filled from `head` on, and `tail` is the slot behind its last message. */
    ghost predicate Valid()
      reads this, buffer
    {
      && RingOk(buffer[..], head, len)
      && tail == if buffer.Length == 0 then 0 else if len < buffer.Length then Slot(head, len, buffer.Length) else head
    }

    ghost function Contents(): (q: seq<Message>)
      requires Valid()
      reads this, buffer
    {
      RingContents(buffer[..], head, len)
    }

    constructor (depth: nat)
      ensures Valid() && fresh(buffer) && buffer.Length == depth && Contents() == []
    {
      buffer := new Option<Message>[depth](i => None);
      head, tail, len := 0, 0, 0;
    }

    method Push(message: Message) returns (r: Result<(), MessageQueueError>)
      requires Valid()
      modifies this`tail, this`len, buffer
      ensures Valid()
      ensures r.Err? <==> old(len) == buffer.Length
      ensures Contents() == if r.Ok? then old(Contents()) + [message] else old(Contents())
    {
      if len == buffer.Length {
        return Err(Full);
      }
      PushAppends(buffer[..], head, len, message);
      WrapIsSlot(tail, 1, buffer.Length);
      hide RingOk, RingContents;
      ghost var before := buffer[..];
      buffer[tail] := Some(message);
      tail := (tail + 1) % buffer.Length;
      len := len + 1;
      assert buffer[..] == before[old(tail) := Some(message)];
      return Ok(());
    }

    method Pop() returns (r: Option<Message>)
      requires Valid()
      modifies this`head, this`len, buffer
      ensures Valid()
      ensures r.None? <==> old(Contents()) == []
      ensures r.Some? ==> old(Contents()) == [r.value] + Contents()
      ensures r.None? ==> Contents() == old(Contents())
    {
      if len == 0 {
        return None;
      }
      PopDrops(buffer[..], head, len);
      WrapIsSlot(head, 1, buffer.Length);
      hide RingOk, RingContents;
      ghost var before := buffer[..];
      r := buffer[head];
      buffer[head] := None;
      head := (head + 1) % buffer.Length;
      len := len - 1;
      assert buffer[..] == before[old(head) := None];
    }

    /** Takes the newest message off again; right after a push it restores the ring. */
    method RollbackLastPush() returns (r: Option<Message>)
      requires Valid()
      modifies this`tail, this`len, buffer
      ensures Valid()
      ensures r.None? <==> old(Contents()) == []
      ensures r.Some? ==> old(Contents()) == Contents() + [r.value]
      ensures r.None? ==> Contents() == old(Contents())
    {
      if len == 0 {
        return None;
      }
      RollbackDrops(buffer[..], head, len);
      StepBack(head, len, buffer.Length);
      hide RingOk, RingContents;
      ghost var before := buffer[..];
      tail := (tail + buffer.Length - 1) % buffer.Length;
      r := buffer[tail];
      buffer[tail] := None;
      len := len - 1;
      assert buffer[..] == before[tail := None];
    }

    method Clear()
      modifies this, buffer
      ensures Valid() && Contents() == []
    {
      head, tail, len := 0, 0, 0;
      var idx := 0;
      while idx < buffer.Length
        invariant idx <= buffer.Length && head == tail == len == 0
        invariant forall i :: 0 <= i < idx ==> buffer[i].None?
      {
        buffer[idx] := None;
        idx := idx + 1;
      }
    }
  }
}
