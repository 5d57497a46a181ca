/** Properties of the library that relate several calls: per-destination
    FIFO order, the pool cap and its recovery, the content round trip, and
    the scenarios the library's self-tests exercise. */
module MessageProperties {
  import opened MessageTypes
  import opened MessageSpec

  /** Result of several recv calls on one destination. */
  datatype Drain = Drain(next: State, received: seq<Message>)

  /** Result of several new_message calls. */
  datatype Batch = Batch(next: State, handles: seq<Option<Message>>)

  /** Sends the messages of ms, in order, to one destination. */
  function SendAll(s: State, d: uint8, ms: seq<Message>): (r: State)
    requires Valid(s) && IsValidId(d) && Held(s) >= |ms|
    ensures Valid(r) && r.created == s.created && Held(r) == Held(s) - |ms|
    ensures r.queues == s.queues[d as int := s.queues[d as int] + ms]
    decreases |ms|
  {
    if ms == [] then
      assert s.queues[d as int] + ms == s.queues[d as int];
      s
    else
      var t := Send(s, d, Some(ms[0])).next;
      assert s.queues[d as int] + [ms[0]] + ms[1..] == s.queues[d as int] + ms;
      SendAll(t, d, ms[1..])
  }

  /** Calls recv n times on one destination, each time with a fresh slot,
      and collects what the successful calls copied out. */
  function RecvAll(s: State, d: uint8, n: nat): (r: Drain)
    requires Valid(s) && IsValidId(d) && n <= |s.queues[d as int]|
    ensures Valid(r.next)
    ensures r.received == s.queues[d as int][..n]
    ensures r.next.created == s.created - n
    ensures r.next.queues == s.queues[d as int := s.queues[d as int][n..]]
    decreases n
  {
    if n == 0 then
      assert s.queues[d as int := s.queues[d as int][0..]] == s.queues;
      Drain(s, [])
    else
      var rc := Recv(s, d, Some(ZeroMessage()));
      var rest := RecvAll(rc.next, d, n - 1);
      assert s.queues[d as int][1..][n - 1..] == s.queues[d as int][n..];
      assert [s.queues[d as int][0]] + s.queues[d as int][1..][..n - 1] == s.queues[d as int][..n];
      Drain(rest.next, [rc.slot.value] + rest.received)
  }

  /** Strict FIFO per destination: after sending ms to d, draining d yields
      what was already waiting there followed by ms, in send order, and
      leaves d empty and every other queue as it was. */
  lemma FifoOrder(s: State, d: uint8, ms: seq<Message>)
    requires Valid(s) && IsValidId(d) && Held(s) >= |ms|
    ensures var t := SendAll(s, d, ms);
            var r := RecvAll(t, d, |s.queues[d as int]| + |ms|);
            r.received == s.queues[d as int] + ms &&
            r.next.queues[d as int] == [] &&
            (forall j :: 0 <= j < MAX_SIZE && j != d as int ==> r.next.queues[j] == s.queues[j]) &&
            r.next.created == s.created - |s.queues[d as int]| - |ms|
  {
    var q := s.queues[d as int];
    var t := SendAll(s, d, ms);
    var n := |q| + |ms|;
    assert t.queues[d as int] == q + ms;
    assert (q + ms)[..n] == q + ms && (q + ms)[n..] == [];
    var r := RecvAll(t, d, n);
    assert r.next.queues == t.queues[d as int := []];
    assert t.queues[d as int := []] == s.queues[d as int := []];
  }

  /** Content round trip: a message sent to an empty queue and received
      from it comes back whole, and its buffer is back in the pool. */
  lemma {:induction false} RoundTrip(s: State, d: uint8, m: Message, slot: Message)
    requires Valid(s) && IsValidId(d) && Held(s) > 0 && s.queues[d as int] == []
    ensures var sent := Send(s, d, Some(m));
            var got := Recv(sent.next, d, Some(slot));
            sent.status == OK && got.status == OK && got.slot == Some(m) &&
            got.next.queues == s.queues && got.next.created == s.created - 1
  {
    var sent := Send(s, d, Some(m));
    assert sent.next.queues[d as int] == [m];
    assert s.queues[d as int] + [m] == [m];
    assert sent.next.queues[d as int] == [m];
    var got := Recv(sent.next, d, Some(slot));
    assert [m][1..] == [];
    assert got.status == OK;
    assert got.next.queues == sent.next.queues[d as int := []];
    assert sent.next.queues[d as int := []] == s.queues;
  }

  /** Calls new_message n times. */
  function AllocateAll(s: State, n: nat): (r: Batch)
    requires s.created + n <= MAX_MSGS
    ensures |r.handles| == n && r.next.created == s.created + n && r.next.queues == s.queues
    ensures forall i :: 0 <= i < n ==> r.handles[i] == Some(ZeroMessage())
    ensures Valid(s) ==> Valid(r.next)
    decreases n
  {
    if n == 0 then
      Batch(s, [])
    else
      var a := NewMessage(s);
      var rest := AllocateAll(a.next, n - 1);
      Batch(rest.next, [a.handle] + rest.handles)
  }

  /** The pool cap: from any state, the allocations that bring the counter
      up to MAX_MSGS all succeed with zeroed messages, and the one after
      them fails and changes nothing. */
  lemma PoolExhaustion(s: State)
    requires Valid(s)
    ensures var b := AllocateAll(s, MAX_MSGS - s.created);
            var last := NewMessage(b.next);
            b.next.created == MAX_MSGS && last.handle.None? && last.next == b.next
  {
  }

  /** Recovery after exhaustion: releasing one buffer of a full pool lets
      exactly one further allocation succeed. */
  lemma {:induction false} PoolRecovery(s: State, m: Message)
    requires Valid(s) && s.created == MAX_MSGS && Held(s) > 0
    ensures var freed := DeleteMessage(s, Some(m));
            var again := NewMessage(freed);
            var more := NewMessage(again.next);
            NewMessage(s).handle.None? &&
            freed.created == MAX_MSGS - 1 &&
            again.handle == Some(ZeroMessage()) &&
            more.handle.None? && again.next == s
  {
  }

  /** One call of the library's interface, with its arguments. */
  datatype Call =
    | New
    | Delete(msg: Option<Message>)
    | SendTo(destinationId: uint8, msg: Option<Message>)
    | RecvFrom(receiverId: uint8, slot: Option<Message>)

  /** Whether a call keeps to the library's contract: a buffer that is
      released or sent must be one the caller owns. */
  predicate Permitted(s: State, c: Call)
  {
    match c
    case New => true
    case Delete(msg) => msg.Some? ==> Held(s) > 0
    case SendTo(d, msg) => msg.Some? && IsValidId(d) ==> Held(s) > 0
    case RecvFrom(_, _) => true
  }

  function Step(s: State, c: Call): State
    requires Valid(s) && Permitted(s, c)
  {
    match c
    case New => NewMessage(s).next
    case Delete(msg) => DeleteMessage(s, msg)
    case SendTo(d, msg) => Send(s, d, msg).next
    case RecvFrom(d, slot) => Recv(s, d, slot).next
  }

  /** Runs calls in order, stopping before the first one that breaks the
      contract (its effect would be undefined). */
  function Run(s: State, calls: seq<Call>): State
    requires Valid(s)
    decreases |calls|
  {
    if calls == [] || !Permitted(s, calls[0]) then s
    else Run(Step(s, calls[0]), calls[1..])
  }

  /** The capacity invariant: no sequence of calls takes the counter past
      MAX_MSGS or below the number of queued messages. */
  lemma {:induction false} RunKeepsCapacity(s: State, calls: seq<Call>)
    requires Valid(s)
    ensures Valid(Run(s, calls))
    ensures Run(s, calls).created <= MAX_MSGS
    decreases |calls|
  {
    if calls != [] && Permitted(s, calls[0]) {
      RunKeepsCapacity(Step(s, calls[0]), calls[1..]);
    }
  }

  // ---- The library's self-test scenarios, stated from the start state ----

  /** What a caller does to a buffer before sending it: sets the length
      and writes bytes at the front of the payload, keeping the rest. */
  function Filled(m: Message, bytes: seq<uint8>): (r: Message)
    requires |bytes| <= PAYLOAD_CAPACITY
    ensures Contents(r) == bytes
    ensures r.data[|bytes|..] == m.data[|bytes|..]
  {
    Message(|bytes| as uint8, bytes + m.data[|bytes|..])
  }

  /** Basic send and receive: a fresh message given length 3 and payload
      "ABC", sent to destination 0 and received from it. */
  lemma BasicSendReceive()
    ensures var a := NewMessage(Initial());
            a.handle.Some? &&
            var m := Filled(a.handle.value, ['A' as uint8, 'B' as uint8, 'C' as uint8]);
            var sent := Send(a.next, 0, Some(m));
            var got := Recv(sent.next, 0, Some(ZeroMessage()));
            sent.status == OK && got.status == OK &&
            got.slot.value.len == 3 && Contents(got.slot.value) == ['A' as uint8, 'B' as uint8, 'C' as uint8] &&
            got.next == Initial()
  {
    var a := NewMessage(Initial());
    var m := Filled(a.handle.value, ['A' as uint8, 'B' as uint8, 'C' as uint8]);
    RoundTrip(a.next, 0, m, ZeroMessage());
  }

  /** Receiving on a destination nobody has sent to fails and leaves the
      caller's slot as it was. */
  lemma RecvEmpty(slot: Message)
    ensures var got := Recv(Initial(), 1, Some(slot));
            got.status == ERR && got.slot == Some(slot) && got.next == Initial()
  {
  }

  /** FIFO: three messages 'X', 'Y', 'Z' sent to destination 2 come out in
      that order. */
  lemma FifoScenario()
    ensures var b := AllocateAll(Initial(), 3);
            var ms := [Filled(ZeroMessage(), ['X' as uint8]), Filled(ZeroMessage(), ['Y' as uint8]), Filled(ZeroMessage(), ['Z' as uint8])];
            RecvAll(SendAll(b.next, 2, ms), 2, 3).received == ms
  {
    var b := AllocateAll(Initial(), 3);
    var ms := [Filled(ZeroMessage(), ['X' as uint8]), Filled(ZeroMessage(), ['Y' as uint8]), Filled(ZeroMessage(), ['Z' as uint8])];
    FifoOrder(b.next, 2, ms);
  }

  /** Pool exhaustion from the start state: MAX_MSGS allocations succeed,
      the next fails, and releasing them all brings the counter to zero. */
  lemma PoolExhaustionScenario()
    ensures var b := AllocateAll(Initial(), MAX_MSGS);
            NewMessage(b.next).handle.None? &&
            ReleaseAll(b.next, b.handles).created == 0
  {
    var b := AllocateAll(Initial(), MAX_MSGS);
    PoolExhaustion(Initial());
  }

  /** Calls delete_message on each handle of hs. */
  function ReleaseAll(s: State, hs: seq<Option<Message>>): (r: State)
    requires Valid(s) && Held(s) >= |hs|
    requires forall i :: 0 <= i < |hs| ==> hs[i].Some?
    ensures Valid(r) && r.created == s.created - |hs| && r.queues == s.queues
    decreases |hs|
  {
    if hs == [] then s else ReleaseAll(DeleteMessage(s, hs[0]), hs[1..])
  }

  /** Sending to identifier MAX_SIZE + 1 (255) fails and changes nothing. */
  lemma InvalidThreadId(s: State, m: Message)
    requires Valid(s)
    ensures var sent := Send(s, (MAX_SIZE + 1) as uint8, Some(m));
            sent.status == ERR && sent.next == s
  {
  }
}
