/** The bounded message queue of queue.c, over all interleavings of senders and receivers. Each stretch
    between two waits of a call is one step; a blocked call may be woken for any reason, and looks
    again. */
module QueueSpec {
  import opened SchedSpec

  /** What data_ptr refers to: NULL for a message without data. */
  datatype Msg = NoData | Data(bytes: seq<bv8>)

  /** `stored` is the message list from head to tail: new messages go in front. */
  datatype Queue = Queue(free: nat, max: nat, size: nat, stored: seq<Msg>)

  /** create_queue */
  function NewQueue(slots: nat, size: nat): Queue {
    Queue(slots, slots, size, [])
  }

  /** The copy that queue_send keeps of a caller's message. */
  function Kept(msg: Msg, size: nat): Msg
    requires msg.Data? ==> |msg.bytes| >= size
  {
    if msg.Data? then Data(msg.bytes[..size]) else NoData
  }

  /** A message goes in (add_head and free_slots--). */
  function Accept(q: Queue, m: Msg): Queue
    requires q.free > 0
  {
    Queue(q.free - 1, q.max, q.size, [m] + q.stored)
  }

  /** The oldest message goes out (remove_tail and free_slots++). */
  function Deliver(q: Queue): Queue
    requires q.stored != []
  {
    Queue(q.free + 1, q.max, q.size, q.stored[..|q.stored| - 1])
  }

  function Oldest(q: Queue): Msg
    requires q.stored != []
  {
    q.stored[|q.stored| - 1]
  }

  /** The receiver's buffer after queue_recv: a message without data leaves it as it was. */
  function Filled(buf: seq<bv8>, m: Msg, size: nat): seq<bv8>
    requires |buf| >= size
  {
    if m.Data? then m.bytes + buf[size..] else buf
  }

  /** A call that is waiting to be woken. */
  datatype Call = Sending(m: Msg) | Receiving

  /** The queue with the calls blocked on it, and what has gone in and come out so far. */
  datatype State = State(q: Queue, calls: map<Tid, Call>, sent: seq<Msg>, received: seq<Msg>)

  /** Calls by task t, or by a handler that has interrupted it, which must not block. */
  datatype Op = Send(t: Tid, m: Msg, blocking: bool) | Recv(t: Tid, blocking: bool) | Retry(t: Tid)

  function Put(s: State, m: Msg): State
    requires s.q.free > 0
  {
    s.(q := Accept(s.q, m), sent := s.sent + [m])
  }

  function Take(s: State): State
    requires s.q.stored != []
  {
    s.(q := Deliver(s.q), received := s.received + [Oldest(s.q)])
  }

  /** The tests as the code makes them, on free_slots. */
  predicate Full(q: Queue) {
    q.free == 0
  }

  predicate Empty(q: Queue) {
    q.free >= q.max
  }

  ghost predicate Step(s: State, op: Op, s': State) {
    match op
    case Send(t, m, blocking) =>
      (blocking ==> t !in s.calls) &&
      if !Full(s.q) then s' == Put(s, m)
      else s' == if blocking then s.(calls := s.calls[t := Sending(m)]) else s
    case Recv(t, blocking) =>
      (blocking ==> t !in s.calls) &&
      if !Empty(s.q) then s.q.stored != [] && s' == Take(s)
      else s' == if blocking then s.(calls := s.calls[t := Receiving]) else s
    case Retry(t) =>
      t in s.calls &&
      match s.calls[t] {
        case Sending(m) => if Full(s.q) then s' == s else s' == Put(s.(calls := s.calls - {t}), m)
        case Receiving =>
          if s.q.free == s.q.max then s' == s else s.q.stored != [] && s' == Take(s.(calls := s.calls - {t}))
      }
  }

  function Reversed<T>(s: seq<T>): (r: seq<T>)
    ensures |r| == |s|
  {
    if s == [] then [] else Reversed(s[1..]) + [s[0]]
  }

  lemma {:induction false} ReversedSplit<T>(s: seq<T>)
    requires s != []
    ensures Reversed(s) == [s[|s| - 1]] + Reversed(s[..|s| - 1])
  {
    if |s| > 1 {
      ReversedSplit(s[1..]);
      assert s[1..][..|s| - 2] == s[..|s| - 1][1..];
    }
  }

  /** Free slots and stored messages add up to the capacity, and everything sent has either been
      received or is stored, in the order of sending. */
  ghost predicate Inv(s: State) {
    s.q.free + |s.q.stored| == s.q.max && s.sent == s.received + Reversed(s.q.stored)
  }

  lemma PutKeeps(s: State, m: Msg)
    requires Inv(s) && s.q.free > 0
    ensures Inv(Put(s, m))
  {
    assert ([m] + s.q.stored)[1..] == s.q.stored;
  }

  lemma TakeKeeps(s: State)
    requires Inv(s) && s.q.stored != []
    ensures Inv(Take(s)) && |s.received| < |s.sent| && Oldest(s.q) == s.sent[|s.received|]
  {
    ReversedSplit(s.q.stored);
    assert (s.received + [Oldest(s.q)]) + Reversed(s.q.stored[..|s.q.stored| - 1]) == s.sent;
  }

  /** Every step keeps the queue in order; on free_slots alone it tells full and empty correctly, so
      remove_tail never meets an empty list. */
  lemma StepKeeps(s: State, op: Op, s': State)
    requires Inv(s) && Step(s, op, s')
    ensures Inv(s')
    ensures Full(s.q) <==> |s.q.stored| == s.q.max
    ensures Empty(s.q) <==> s.q.stored == []
    ensures s.q.free == s.q.max <==> s.q.stored == []
  {
    match op
    case Send(t, m, blocking) =>
      if !Full(s.q) { PutKeeps(s, m); }
    case Recv(t, blocking) =>
      if !Empty(s.q) { TakeKeeps(s); }
    case Retry(t) =>
      var s1 := s.(calls := s.calls - {t});
      if s.calls[t].Sending? {
        if !Full(s.q) { PutKeeps(s1, s.calls[t].m); }
      } else if s.q.free != s.q.max {
        TakeKeeps(s1);
      }
  }

  /** The step relation is never stuck: every call can be made in every state. */
  lemma StepTotal(s: State, op: Op) returns (s': State)
    requires Inv(s) && (if op.Retry? then op.t in s.calls else op.blocking ==> op.t !in s.calls)
    ensures Step(s, op, s')
  {
    match op
    case Send(t, m, blocking) =>
      s' := if !Full(s.q) then Put(s, m) else if blocking then s.(calls := s.calls[t := Sending(m)]) else s;
    case Recv(t, blocking) =>
      s' := if !Empty(s.q) then Take(s) else if blocking then s.(calls := s.calls[t := Receiving]) else s;
    case Retry(t) =>
      var s1 := s.(calls := s.calls - {t});
      s' := if s.calls[t].Sending? then if Full(s.q) then s else Put(s1, s.calls[t].m)
            else if s.q.free == s.q.max then s else Take(s1);
  }

  ghost predicate Run(states: seq<State>, ops: seq<Op>, slots: nat, size: nat) {
    |states| == |ops| + 1 && states[0] == State(NewQueue(slots, size), map[], [], [])
    && forall i :: 0 <= i < |ops| ==> Step(states[i], ops[i], states[i + 1])
  }

  /** Over every interleaving: never more than the capacity is stored, and what has been received is
      a prefix of what was sent: nothing is lost, duplicated or reordered. */
  lemma {:induction false} Fifo(states: seq<State>, ops: seq<Op>, slots: nat, size: nat, n: nat)
    requires Run(states, ops, slots, size) && n <= |ops|
    ensures Inv(states[n]) && states[n].q.max == slots && states[n].q.size == size
    ensures |states[n].q.stored| <= slots
    ensures states[n].received <= states[n].sent && |states[n].sent| - |states[n].received| == |states[n].q.stored|
  {
    if n > 0 {
      Fifo(states, ops, slots, size, n - 1);
      assert Step(states[n - 1], ops[n - 1], states[n]);
      StepKeeps(states[n - 1], ops[n - 1], states[n]);
    }
  }

  /** A call's message: its own for a send, the sender's for a retry. */
  function Sent(s: State, op: Op): seq<Msg> {
    match op
    case Send(t, m, _) => if Full(s.q) then [] else [m]
    case Recv(_, _) => []
    case Retry(t) => if t in s.calls && s.calls[t].Sending? && !Full(s.q) then [s.calls[t].m] else []
  }

  /** The messages that the calls of a run have put in, in the order in which they got in. */
  function AllSent(states: seq<State>, ops: seq<Op>, n: nat): seq<Msg>
    requires n <= |ops| < |states|
  {
    if n == 0 then [] else AllSent(states, ops, n - 1) + Sent(states[n - 1], ops[n - 1])
  }

  /** `sent` is that history: a message gets in once per successful call, and by nothing else. */
  lemma {:induction false} SentIsWhatCallsPutIn(states: seq<State>, ops: seq<Op>, slots: nat, size: nat, n: nat)
    requires Run(states, ops, slots, size) && n <= |ops|
    ensures states[n].sent == AllSent(states, ops, n)
  {
    if n > 0 {
      SentIsWhatCallsPutIn(states, ops, slots, size, n - 1);
      assert Step(states[n - 1], ops[n - 1], states[n]);
    }
  }

  /** The call that a step leaves waiting. */
  predicate Blocks(s: State, op: Op, c: Call) {
    match op
    case Send(_, m, blocking) => blocking && Full(s.q) && c == Sending(m)
    case Recv(_, blocking) => blocking && Empty(s.q) && c == Receiving
    case Retry(_) => false
  }

  /** The call that task t has waiting was left so by one step of the run, and has waited ever since: a
      second look is at the message of the call that blocked, not at another. */
  lemma {:induction false} WaitsSince(states: seq<State>, ops: seq<Op>, slots: nat, size: nat, n: nat, t: Tid)
    returns (i: nat)
    requires Run(states, ops, slots, size) && n <= |ops| && t in states[n].calls
    ensures i < n && ops[i].t == t && Blocks(states[i], ops[i], states[n].calls[t])
    ensures forall k :: i < k <= n ==> t in states[k].calls && states[k].calls[t] == states[n].calls[t]
  {
    assert Step(states[n - 1], ops[n - 1], states[n]);
    if t in states[n - 1].calls && states[n - 1].calls[t] == states[n].calls[t] {
      i := WaitsSince(states, ops, slots, size, n - 1, t);
    } else {
      i := n - 1;
    }
  }

  /** A call waits on exactly until its own second look finds room, or a message. */
  lemma WaitsUntilServed(s: State, op: Op, s': State, t: Tid)
    requires Inv(s) && Step(s, op, s') && t in s.calls
    ensures t !in s'.calls <==>
            op == Retry(t) && if s.calls[t].Sending? then |s.q.stored| < s.q.max else s.q.stored != []
    ensures t in s'.calls ==> s'.calls[t] == s.calls[t]
  {
  }

  /** The call takes a message out. */
  predicate Gets(s: State, op: Op) {
    match op
    case Send(_, _, _) => false
    case Recv(_, _) => !Empty(s.q)
    case Retry(t) => t in s.calls && s.calls[t].Receiving? && s.q.free != s.q.max
  }

  /** Number of messages taken out by the first n calls of a run. */
  function Taken(states: seq<State>, ops: seq<Op>, n: nat): nat
    requires n <= |ops| < |states|
  {
    if n == 0 then 0 else Taken(states, ops, n - 1) + if Gets(states[n - 1], ops[n - 1]) then 1 else 0
  }

  lemma {:induction false} TakenIsReceived(states: seq<State>, ops: seq<Op>, slots: nat, size: nat, n: nat)
    requires Run(states, ops, slots, size) && n <= |ops|
    ensures Taken(states, ops, n) == |states[n].received|
  {
    if n > 0 {
      TakenIsReceived(states, ops, slots, size, n - 1);
      assert Step(states[n - 1], ops[n - 1], states[n]);
    }
  }

  /** The call that put in the i-th message. */
  lemma {:induction false} SentBy(states: seq<State>, ops: seq<Op>, n: nat, i: nat) returns (j: nat)
    requires n <= |ops| < |states| && i < |AllSent(states, ops, n)|
    ensures j < n && |AllSent(states, ops, j)| == i && Sent(states[j], ops[j]) == [AllSent(states, ops, n)[i]]
  {
    if i < |AllSent(states, ops, n - 1)| {
      j := SentBy(states, ops, n - 1, i);
    } else {
      j := n - 1;
    }
  }

  /** Over every run, the i-th receive fills its buffer from the i-th successful send, call j: with the
      bytes that call was given, or not at all if it was given none; behind them the buffer is left
      alone. */
  lemma BytesArrive(states: seq<State>, ops: seq<Op>, slots: nat, size: nat, n: nat, buf: seq<bv8>) returns (j: nat)
    requires Run(states, ops, slots, size) && n < |ops| && Gets(states[n], ops[n]) && |buf| >= size
    ensures states[n].q.stored != [] && j < n && |AllSent(states, ops, j)| == Taken(states, ops, n)
    ensures states[n].q.size == size
    ensures var out := Filled(buf, Oldest(states[n].q), size);
            forall msg: Msg | msg.Data? ==> |msg.bytes| >= size ::
              Sent(states[j], ops[j]) == [Kept(msg, size)] ==>
                out == (if msg.Data? then msg.bytes[..size] else buf[..size]) + buf[size..]
    ensures Sent(states[j], ops[j]) == [Oldest(states[n].q)]
  {
    Fifo(states, ops, slots, size, n);
    assert Step(states[n], ops[n], states[n + 1]);
    TakenIsReceived(states, ops, slots, size, n);
    SentIsWhatCallsPutIn(states, ops, slots, size, n);
    TakeKeeps(states[n]);
    j := SentBy(states, ops, n, Taken(states, ops, n));
    assert buf == buf[..size] + buf[size..];
  }
}
