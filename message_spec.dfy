/** The message pool and the destination registry as a state machine.
    A state holds the pool's counter of outstanding buffers and one FIFO
    queue per destination; each library call is a function from the state
    before the call to the state after it and the call's results. */
module MessageSpec {
  import opened MessageTypes

  /** Status codes returned by send and recv. */
  const OK: int := 0
  const ERR: int := -1

  /** The library's global state: the counter of outstanding message
      buffers and the queue of each destination, head first. */
  datatype State = State(created: nat, queues: seq<seq<Message>>)

  datatype Allocation = Allocation(next: State, handle: Option<Message>)
  datatype Delivery = Delivery(next: State, status: int)
  datatype Receipt = Receipt(next: State, status: int, slot: Option<Message>)

  /** Number of messages waiting in all queues together. */
  function TotalQueued(qs: seq<seq<Message>>): nat
  {
    if qs == [] then 0 else |qs[0]| + TotalQueued(qs[1..])
  }

  /** Replacing one queue changes the total by the difference in length. */
  lemma {:induction false} TotalQueuedUpdate(qs: seq<seq<Message>>, i: nat, q: seq<Message>)
    requires i < |qs|
    ensures TotalQueued(qs[i := q]) + |qs[i]| == TotalQueued(qs) + |q|
  {
    if i == 0 {
      assert qs[i := q][1..] == qs[1..];
    } else {
      assert qs[i := q][1..] == qs[1..][i - 1 := q];
      TotalQueuedUpdate(qs[1..], i - 1, q);
    }
  }

  /** Queues that are all empty hold no message. */
  lemma {:induction false} TotalQueuedEmpty(qs: seq<seq<Message>>)
    requires forall i :: 0 <= i < |qs| ==> qs[i] == []
    ensures TotalQueued(qs) == 0
  {
    if qs != [] {
      TotalQueuedEmpty(qs[1..]);
    }
  }

  /** Every queued message is an outstanding pool buffer, and the pool
      never has more than MAX_MSGS of them. */
  ghost predicate Valid(s: State)
  {
    |s.queues| == MAX_SIZE &&
    TotalQueued(s.queues) <= s.created <= MAX_MSGS
  }

  /** Buffers handed out by the pool that no queue holds: those the
      callers own. */
  function Held(s: State): int
  {
    s.created - TotalQueued(s.queues)
  }

  /** The state at program start: counter zero, every queue empty. */
  function Initial(): (s: State)
    ensures Valid(s) && s.created == 0 && Held(s) == 0
    ensures forall i :: 0 <= i < MAX_SIZE ==> s.queues[i] == []
  {
    var qs := seq(MAX_SIZE, _ => []);
    TotalQueuedEmpty(qs);
    State(0, qs)
  }

  /** new_message: a zeroed buffer while fewer than MAX_MSGS are
      outstanding, otherwise null and no change. */
  function NewMessage(s: State): (r: Allocation)
    ensures r.handle.None? <==> s.created >= MAX_MSGS
    ensures r.handle.None? ==> r.next == s
    ensures r.handle.Some? ==> r.handle.value == ZeroMessage() &&
                               r.next == s.(created := s.created + 1)
    ensures Valid(s) ==> Valid(r.next)
    ensures Valid(s) && r.handle.Some? ==> Held(r.next) == Held(s) + 1
  {
    if s.created < MAX_MSGS then
      Allocation(s.(created := s.created + 1), Some(ZeroMessage()))
    else
      Allocation(s, None)
  }

  /** delete_message: returns a caller-owned buffer to the pool. A null
      handle releases nothing and leaves the counter alone. */
  function DeleteMessage(s: State, msg: Option<Message>): (r: State)
    requires Valid(s)
    requires msg.Some? ==> Held(s) > 0
    ensures Valid(r)
    ensures msg.Some? ==> r == s.(created := s.created - 1) && Held(r) == Held(s) - 1
    ensures msg.None? ==> r == s
  {
    if msg.Some? then s.(created := s.created - 1) else s
  }

  /** send: appends a caller-owned buffer to the tail of one queue. A null
      message or an identifier outside the registry fails with no change. */
  function Send(s: State, destinationId: uint8, msg: Option<Message>): (r: Delivery)
    requires Valid(s)
    requires msg.Some? && IsValidId(destinationId) ==> Held(s) > 0
    ensures r.status == OK <==> msg.Some? && IsValidId(destinationId)
    ensures r.status != OK ==> r.status == ERR && r.next == s
    ensures r.status == OK ==>
              var d := destinationId as int;
              r.next.created == s.created &&
              r.next.queues == s.queues[d := s.queues[d] + [msg.value]]
    ensures r.status == OK ==>
              forall j :: 0 <= j < MAX_SIZE && j != destinationId as int ==> r.next.queues[j] == s.queues[j]
    ensures Valid(r.next)
    ensures r.status == OK ==> Held(r.next) == Held(s) - 1
  {
    if msg.None? || !IsValidId(destinationId) then
      Delivery(s, ERR)
    else
      var d := destinationId as int;
      var q := s.queues[d] + [msg.value];
      TotalQueuedUpdate(s.queues, d, q);
      Delivery(State(s.created, s.queues[d := q]), OK)
  }

  /** recv: copies the head of one queue into the caller's slot, returns
      the head's buffer to the pool and pops it. A null slot, an identifier
      outside the registry or an empty queue fails with no change, and the
      slot keeps what it held. */
  function Recv(s: State, receiverId: uint8, slot: Option<Message>): (r: Receipt)
    requires Valid(s)
    ensures r.status == OK <==> slot.Some? && IsValidId(receiverId) && s.queues[receiverId as int] != []
    ensures r.status != OK ==> r.status == ERR && r.next == s && r.slot == slot
    ensures r.status == OK ==>
              var d := receiverId as int;
              r.slot == Some(s.queues[d][0]) &&
              r.next.created == s.created - 1 &&
              r.next.queues == s.queues[d := s.queues[d][1..]]
    ensures r.status == OK ==>
              forall j :: 0 <= j < MAX_SIZE && j != receiverId as int ==> r.next.queues[j] == s.queues[j]
    ensures Valid(r.next)
    ensures Held(r.next) == Held(s)
  {
    if slot.None? || !IsValidId(receiverId) then
      Receipt(s, ERR, slot)
    else
      var d := receiverId as int;
      if s.queues[d] == [] then
        Receipt(s, ERR, slot)
      else
        var q := s.queues[d][1..];
        TotalQueuedUpdate(s.queues, d, q);
        Receipt(State(s.created - 1, s.queues[d := q]), OK, Some(s.queues[d][0]))
  }
}
