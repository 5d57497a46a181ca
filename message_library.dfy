/** The library's global state as an object: the counter of outstanding
    message buffers and the array of per-destination queues, updated in
    place by new_message, delete_message, send and recv. Each method is
    proved to take the state exactly where the matching function of
    MessageSpec takes it. */
module MessageLibrary {
  import opened MessageTypes
  import MessageSpec

  /** Storage a caller owns and hands to recv to be filled in. */
  class MessageSlot {
    var contents: Message

    constructor ()
      ensures contents == ZeroMessage()
    {
      contents := ZeroMessage();
    }
  }

  /** The view recv has of an out-parameter: null, or the message it holds. */
  ghost function SlotView(slot: MessageSlot?): Option<Message>
    reads slot
  {
    if slot == null then None else Some(slot.contents)
  }

  class Library {
    /** created_message_counter */
    var created: nat
    /** thread_queues: one FIFO per destination, head first */
    var queues: array<seq<Message>>

    ghost function Model(): MessageSpec.State
      reads this, queues
    {
      MessageSpec.State(created, queues[..])
    }

    ghost predicate Valid()
      reads this, queues
    {
      queues.Length == MAX_SIZE && MessageSpec.Valid(Model())
    }

    /** Static initialisation: the counter is zero and every queue empty. */
    constructor ()
      ensures Valid() && fresh(queues)
      ensures Model() == MessageSpec.Initial()
    {
      created := 0;
      queues := new seq<Message>[MAX_SIZE](_ => []);
      new;
      assert queues[..] == MessageSpec.Initial().queues;
    }

    method NewMessage() returns (m: Option<Message>)
      requires Valid()
      modifies this`created
      ensures Valid()
      ensures MessageSpec.Allocation(Model(), m) == MessageSpec.NewMessage(old(Model()))
    {
      if created < MAX_MSGS {
        created := created + 1;
        m := Some(ZeroMessage());
      } else {
        m := None;
      }
    }

    /** Returns a buffer the caller owns to the pool; a null handle is
        ignored (see PoolFinding for the code as written). */
    method DeleteMessage(msg: Option<Message>)
      requires Valid()
      requires msg.Some? ==> MessageSpec.Held(Model()) > 0
      modifies this`created
      ensures Valid()
      ensures Model() == MessageSpec.DeleteMessage(old(Model()), msg)
    {
      if msg.Some? {
        created := created - 1;
      }
    }

    method Send(destinationId: uint8, msg: Option<Message>) returns (status: int)
      requires Valid()
      requires msg.Some? && IsValidId(destinationId) ==> MessageSpec.Held(Model()) > 0
      modifies queues
      ensures Valid()
      ensures MessageSpec.Delivery(Model(), status) == MessageSpec.Send(old(Model()), destinationId, msg)
    {
      if msg.None? || destinationId as int >= MAX_SIZE {
        return MessageSpec.ERR;
      }
      ghost var before := Model();
      queues[destinationId] := queues[destinationId] + [msg.value];
      assert Model() == MessageSpec.Send(before, destinationId, msg).next;
      status := MessageSpec.OK;
    }

    method Recv(receiverId: uint8, slot: MessageSlot?) returns (status: int)
      requires Valid()
      modifies this`created, queues, slot
      ensures Valid()
      ensures MessageSpec.Receipt(Model(), status, SlotView(slot))
           == MessageSpec.Recv(old(Model()), receiverId, old(SlotView(slot)))
    {
      if slot == null || receiverId as int >= MAX_SIZE {
        return MessageSpec.ERR;
      }
      if queues[receiverId] == [] {
        return MessageSpec.ERR;
      }
      ghost var before := Model();
      slot.contents := queues[receiverId][0];
      // delete_message on the head's buffer: it goes back to the pool
      MessageSpec.TotalQueuedUpdate(before.queues, receiverId as int, queues[receiverId][1..]);
      created := created - 1;
      queues[receiverId] := queues[receiverId][1..];
      assert Model() == MessageSpec.Recv(before, receiverId, Some(slot.contents)).next;
      status := MessageSpec.OK;
    }
  }
}
