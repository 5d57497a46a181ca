# Embedded message sharing: a Dafny model

This project models a small in-process message-passing library for threads.
It has two parts:

- a **message pool**, which hands out zeroed fixed-size messages while fewer
  than `MAX_MSGS` (2048) are outstanding and counts them back in when they
  are released;
- a **destination registry**, an array of `MAX_SIZE` (254) FIFO queues
  indexed directly by a one-byte identifier. `send` appends a message to the
  tail of one queue. `recv` copies the head of one queue into a slot the
  caller owns, returns the head's buffer to the pool and pops it. Both fail
  with `-1` and change nothing on a null pointer or an identifier of 254 or
  more, and `recv` also fails on an empty queue.

Layout:

- `message_types.dfy` (module `MessageTypes`, from `message.hpp`): the
  constants, a `uint8` newtype, a `Payload` type of exactly 255 bytes, and the
  `Message` value (`len`, `data`).
- `message_spec.dfy` (module `MessageSpec`): the library as a state machine.
  A `State` holds the pool counter and the queues. `NewMessage`,
  `DeleteMessage`, `Send` and `Recv` are functions from the state before a
  call to the state after it and the call's results, and their contracts
  state what each call does. `Valid` is the pool invariant: every queued
  message is an outstanding buffer, and at most `MAX_MSGS` are outstanding.
- `message_library.dfy` (module `MessageLibrary`): the global state as a
  class `Library` with the fields `created: nat` and
  `queues: array<seq<Message>>`, updated in place. Each method is proved to
  keep `Valid()` and to take the state where the matching `MessageSpec`
  function takes it. `MessageSlot` is the caller-owned storage that `recv`
  writes through its pointer argument.
- `message_properties.dfy` (module `MessageProperties`): properties over
  several calls. These are strict FIFO order per destination, exhaustion and
  recovery of the pool, the content round trip, and a capacity invariant over
  any sequence of calls. The library's five self-test scenarios are stated
  as lemmas from the start state.
- `pool_finding.dfy` (module `PoolFinding`): `delete_message` as written, and
  what it does on a null pointer.

Pointers to messages are modelled as `Option<Message>` values: `None` is the
null pointer. A message is a plain struct, so `*msg = *front` in `recv` is a
full value copy. The pool never identifies its buffers, only counts them. The
model follows that: the buffers the callers hold number
`Held(s) = created - (messages queued)`. Sending or releasing a buffer
requires `Held(s) > 0`: the caller must hold at least one outstanding buffer.
This is a counting approximation of "the pointer came from `new_message` and
was not yet handed on". Releasing a foreign or already-released pointer is
undefined behaviour. The precondition rules out only those bad releases that
would leave fewer outstanding buffers than queued ones. Releasing one buffer
twice while another is still held meets it, and the model treats that as an
ordinary release.

## Model

| member | source | states |
|---|---|---|
| `MessageTypes.ZeroMessage` | message.cpp:52-54 | a freshly allocated message has `len == 0` and every one of its payload bytes is 0 |
| `MessageTypes.Contents` | message.hpp:22-23 | the valid bytes of a message number `len`, never more than the 255-byte capacity, and are the first `len` payload bytes |
| `MessageTypes.IsValidId` | message.hpp:7 | an identifier is valid exactly when it is below `MAX_SIZE`; the only invalid one-byte identifiers are 254 and 255 |
| `MessageSpec.Initial` | message.cpp:29-31 | at program start the counter is 0, every queue is empty and the pool invariant holds |
| `MessageSpec.NewMessage` | message.cpp:49-62 | allocation fails exactly when the counter is already at or above `MAX_MSGS`, and then changes nothing; otherwise it returns a zeroed message and raises the counter by exactly one; the pool invariant is preserved |
| `MessageSpec.DeleteMessage` | message.cpp:74-77 | releasing a caller-owned buffer lowers the counter by exactly one and keeps the invariant; a null handle changes nothing (corrected, see Findings) |
| `MessageSpec.Send` | message.cpp:90-99 | succeeds exactly when the message is non-null and the identifier is valid; then the message is appended to the tail of that queue, every other queue and the counter are unchanged, and the status is 0; otherwise the status is -1 and nothing changes |
| `MessageSpec.Recv` | message.cpp:112-124 | succeeds exactly when the slot is non-null, the identifier is valid and the queue is non-empty; then the slot receives the head message, the head alone is removed, the counter drops by one and the status is 0; otherwise the status is -1, nothing changes and the slot keeps its contents |
| `MessageLibrary.Library.constructor` | message.cpp:29-31 | the global queues and counter start in the initial state |
| `MessageLibrary.Library.NewMessage` | message.cpp:49-62 | updates the counter in place exactly as `MessageSpec.NewMessage` and keeps the pool invariant |
| `MessageLibrary.Library.DeleteMessage` | message.cpp:74-77 | updates the counter in place exactly as `MessageSpec.DeleteMessage` and keeps the pool invariant |
| `MessageLibrary.Library.Send` | message.cpp:90-99 | pushes onto the queue array in place exactly as `MessageSpec.Send` and keeps the pool invariant |
| `MessageLibrary.Library.Recv` | message.cpp:112-124 | writes the head message through the slot, decrements the counter and pops the queue exactly as `MessageSpec.Recv`; keeps the pool invariant |
| `MessageProperties.SendAll` | message.cpp:186-191 | sending a sequence of messages to one destination appends them, in order, to that queue and leaves the counter and the other queues unchanged |
| `MessageProperties.RecvAll` | message.cpp:193-201 | n receives from one destination copy out exactly its first n messages in queue order, drop them from the queue and lower the counter by n |
| `MessageProperties.FifoOrder` | message.cpp:182-201 | strict FIFO: after sending ms to a destination, draining it yields the messages already waiting followed by ms in send order, empties it and leaves every other queue as it was |
| `MessageProperties.RoundTrip` | message.cpp:138-157 | a message sent to an empty queue and received from it comes back with the same length and bytes, and the queues and counter return to where they were before its allocation was counted |
| `MessageProperties.AllocateAll` | message.cpp:213-220 | n allocations that stay within the cap all succeed with zeroed messages and raise the counter by n |
| `MessageProperties.PoolExhaustion` | message.cpp:209-227 | from any valid state, the allocations up to `MAX_MSGS` succeed and the next one fails and changes nothing |
| `MessageProperties.PoolRecovery` | message.cpp:49-77 | on a full pool allocation fails; releasing one buffer lets exactly one further allocation succeed, after which it fails again |
| `MessageProperties.RunKeepsCapacity` | message.cpp:49-124 | no sequence of calls that keeps to the ownership contract takes the counter above `MAX_MSGS` or below the number of queued messages |
| `MessageProperties.Filled` | message.cpp:142-145 | a caller setting a message's length and leading bytes gets a message whose valid bytes are exactly those, with the rest of the payload kept |
| `MessageProperties.BasicSendReceive` | message.cpp:138-157 | a message of length 3 holding "ABC", sent to destination 0 and received from it, comes back with length 3 and bytes "ABC", leaving the library in its initial state |
| `MessageProperties.RecvEmpty` | message.cpp:165-174 | receiving on destination 1 of a fresh library fails with -1, changes nothing and leaves the slot untouched |
| `MessageProperties.FifoScenario` | message.cpp:182-201 | messages 'X', 'Y', 'Z' sent to destination 2 are received as 'X', 'Y', 'Z' |
| `MessageProperties.PoolExhaustionScenario` | message.cpp:209-231 | on a fresh library 2048 allocations succeed, the next fails, and releasing all of them brings the counter back to 0 |
| `MessageProperties.ReleaseAll` | message.cpp:231 | releasing k caller-owned buffers lowers the counter by k and leaves the queues alone |
| `MessageProperties.InvalidThreadId` | message.cpp:239-252 | sending to identifier `MAX_SIZE + 1` (255) fails with -1 and changes nothing |
| `PoolFinding.DeleteMessageAsWritten` | message.cpp:74-77 | as written, the counter is decremented modulo 2^64 (a 64-bit `size_t`) whether or not the handle is null |
| `PoolFinding.NullDeleteExhaustsPool` | message.cpp:74-77 | with a 64-bit `size_t`, a null delete on a fresh library wraps the counter to 2^64 - 1, breaks the pool invariant and makes every allocation fail |
| `PoolFinding.NullDeleteOverAllocates` | message.cpp:74-77 | on a full pool, a null delete (which returns no buffer) lets one more allocation succeed |
| `PoolFinding.CorrectedDeleteIgnoresNull` | message.cpp:74-77 | the corrected release leaves the state alone on a null handle, where the code as written does not |

## Findings

| source | as written | input that shows it | evidently intended | confidence | as-written member | corrected member |
|---|---|---|---|---|---|---|
| message.cpp:74-77 | `delete_message` decrements `created_message_counter` even when `msg` is null, although deleting a null pointer frees nothing | `delete_message(nullptr)` on a fresh library: the counter wraps to 2^64 - 1 with a 64-bit `size_t` (2^32 - 1 with a 32-bit one) and every later `new_message` returns null; on a full pool it lets a 2049th buffer be allocated | the counter counts live buffers, so a null handle should leave it unchanged | medium, not executed | `PoolFinding.DeleteMessageAsWritten` (shown by `PoolFinding.NullDeleteExhaustsPool`, `PoolFinding.NullDeleteOverAllocates`) | `MessageSpec.DeleteMessage` (invariant proved in its contract and in `MessageProperties.RunKeepsCapacity`) |

## Left out

- The per-destination mutexes and `lock_guard`s: each call is modelled as atomic. The unsynchronised update of the counter by concurrent threads and every multi-threaded property are not modelled.
- The `try`/`catch` blocks: a failed heap allocation in `new_message` or in a queue push, and a failing mutex, are environment faults that the model does not produce. The calls never fail for those reasons here.
- Console output, the test routines as code, and `main`. Their scenarios appear as lemmas in `MessageProperties`.
- Pointer identity and aliasing: messages are values. The model does not capture a caller writing to a buffer after sending it, or the same pointer being sent twice. Ownership is tracked by count (`Held`), not by buffer.
- `MessageSpec.Send`: requires `Held(s) > 0` on the success path. The code accepts any pointer, but one that is not an outstanding pool buffer makes the later `recv`'s `delete` undefined.
- `MessageSpec.DeleteMessage`: requires `Held(s) > 0` for a non-null handle. Deleting a foreign or already-released pointer is undefined behaviour.
- The counter is a `nat` bounded by `MAX_MSGS` in the model. Its `size_t` wrap-around matters only in the null-delete finding, where it is written out for a 64-bit `size_t`. A 32-bit target wraps to 2^32 - 1 with the same effect.
- `MessageLibrary.MessageSlot.constructor` zero-fills the slot. A C++ local `message_t` starts with indeterminate bytes, and `recv` overwrites the whole slot or leaves it as it was.
