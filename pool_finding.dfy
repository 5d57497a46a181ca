/** delete_message as written decrements the pool counter whatever handle
    it is given. Deleting a null pointer is well defined and frees nothing,
    yet the counter still drops; when it was zero, the unsigned counter
    wraps to its largest value and the pool refuses every later allocation.
    MessageSpec.DeleteMessage is the corrected release (a null handle is
    ignored), which the rest of the model uses. */
module PoolFinding {
  import opened MessageTypes
  import opened MessageSpec

  /** Largest value of the pool counter, taking size_t to be 64 bits wide
      (on a narrower target it wraps to 2^32 - 1, with the same effect). */
  const SIZE_MAX: nat := 0x1_0000_0000_0000_0000 - 1

  /** delete_message as written: the counter is decremented modulo 2^64
      (a 64-bit size_t) whether or not the handle is null. */
  function DeleteMessageAsWritten(s: State, msg: Option<Message>): (r: State)
    requires s.created <= SIZE_MAX
    ensures r.queues == s.queues
    ensures r.created == if s.created == 0 then SIZE_MAX else s.created - 1
  {
    s.(created := (s.created - 1) % (SIZE_MAX + 1))
  }

  /** A null delete on a fresh library wraps the counter: the state is no
      longer valid, no buffer is outstanding, and allocation fails. */
  lemma NullDeleteExhaustsPool()
    ensures var s := DeleteMessageAsWritten(Initial(), None);
            s.created == SIZE_MAX && !Valid(s) &&
            Held(s) > MAX_MSGS &&
            NewMessage(s).handle.None? && NewMessage(s).next == s
  {
  }

  /** A null delete on a full pool lets one more buffer be allocated than
      MAX_MSGS, although none was returned. */
  lemma NullDeleteOverAllocates(s: State)
    requires Valid(s) && s.created == MAX_MSGS
    ensures var t := NewMessage(DeleteMessageAsWritten(s, None));
            NewMessage(s).handle.None? &&
            t.handle.Some? && t.next.created == MAX_MSGS
  {
  }

  /** The corrected release leaves the state alone on a null handle, so the
      counter equals the buffers held by callers plus those queued, and the
      pool invariant holds after any release. */
  lemma {:induction false} CorrectedDeleteIgnoresNull(s: State)
    requires Valid(s)
    ensures DeleteMessage(s, None) == s
    ensures Valid(DeleteMessage(s, None))
    ensures DeleteMessageAsWritten(s, None) != s
  {
  }
}
