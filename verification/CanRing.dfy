/**
  The 64-slot single-producer single-consumer CAN ring (bare_metal_foc/src/can_sim.c).

  `FifoStep` is the specification: a queue of capacity 63. `CanBus` is the C code called
  from one thread. `State` with `ProducerStep` and `ConsumerStep` is the C code called from
  two threads, one shared-memory access a step, frames copied one byte a step.
 */
module CanRing {
  import opened Words
  import opened Wrappers

  const DEPTH := 64
  const CAPACITY := 63
  const FRAME_BYTES := 13

  function Repeat<T>(x: T, n: nat): (s: seq<T>)
    ensures |s| == n && forall i :: 0 <= i < n ==> s[i] == x
  {
    if n == 0 then [] else [x] + Repeat(x, n - 1)
  }

  const BLANK: seq<byte> := Repeat(0, FRAME_BYTES)

  /** The memory image of a packed `CanFrame_t`. */
  type Frame = f: seq<byte> | |f| == FRAME_BYTES witness BLANK

  type index = i: int | 0 <= i < DEPTH

  /** `(i + 1U) & (CAN_BUS_DEPTH - 1U)`. */
  function Next(i: index): (n: index)
    ensures n == if i == DEPTH - 1 then 0 else i + 1
  {
    (i + 1) % DEPTH
  }

  /** The slot of the k-th frame. */
  function Slot(k: nat): index {
    k % DEPTH
  }

  // ---------------------------------------------------------------------------------
  // The specification: a bounded FIFO
  // ---------------------------------------------------------------------------------

  datatype Event = SendOk(frame: Frame) | SendFull | RecvOk(frame: Frame) | RecvEmpty

  /** The queue after an event, or `None` if a FIFO cannot behave so. */
  function FifoStep(q: seq<Frame>, e: Event): Option<seq<Frame>> {
    match e
    case SendOk(f) => if |q| < CAPACITY then Some(q + [f]) else None
    case SendFull => if |q| == CAPACITY then Some(q) else None
    case RecvOk(f) => if |q| > 0 && q[0] == f then Some(q[1..]) else None
    case RecvEmpty => if |q| == 0 then Some(q) else None
  }

  /** The queue after a whole history of events, starting empty. */
  function FifoRun(trace: seq<Event>): Option<seq<Frame>> {
    if trace == [] then
      Some([])
    else
      match FifoRun(trace[..|trace| - 1])
      case None => None
      case Some(q) => FifoStep(q, trace[|trace| - 1])
  }

  lemma FifoRunAppend(trace: seq<Event>, e: Event)
    ensures FifoRun(trace + [e]) ==
            if FifoRun(trace).None? then None else FifoStep(FifoRun(trace).value, e)
  {
    assert (trace + [e])[..|trace + [e]| - 1] == trace;
  }

  // ---------------------------------------------------------------------------------
  // One thread: the C functions refine the queue call by call
  // ---------------------------------------------------------------------------------

  class CanBus {
    const frames: array<Frame>
    var head: index
    var tail: index

    ghost predicate Valid()
      reads this, frames
    {
      frames.Length == DEPTH
    }

    ghost function Contents(): (q: seq<Frame>)
      requires Valid()
      reads this, frames
      ensures |q| <= CAPACITY
    {
      if tail <= head then frames[tail..head] else frames[tail..] + frames[..head]
    }

    /** `CanBus_init`. */
    constructor ()
      ensures Valid() && fresh(frames) && Contents() == []
    {
      frames := new Frame[DEPTH](i => BLANK);
      head, tail := 0, 0;
    }

    /** `CanBus_send`. */
    method Send(frame: Frame) returns (ret: int)
      requires Valid()
      modifies this`head, frames
      ensures Valid() && ret in {0, -1}
      ensures FifoStep(old(Contents()), if ret == 0 then SendOk(frame) else SendFull) == Some(Contents())
    {
      var next := Next(head);
      if next == tail { return -1; }
      frames[head] := frame;
      head := next;
      ret := 0;
      assert frames[tail..] + frames[..old(head)] + [frame] == frames[tail..] + frames[..old(head) + 1];
      assert Contents() == old(Contents()) + [frame];
    }

    /** `CanBus_recv`; on -1 the caller's buffer is not written, so `out` is then the old buffer. */
    method Recv(buffer: Frame) returns (ret: int, out: Frame)
      requires Valid()
      modifies this`tail
      ensures Valid() && ret in {0, -1} && (ret == -1 ==> out == buffer)
      ensures FifoStep(old(Contents()), if ret == 0 then RecvOk(out) else RecvEmpty) == Some(Contents())
    {
      if head == tail { return -1, buffer; }
      out := frames[tail];
      tail := Next(tail);
      ret := 0;
      assert Contents() == old(Contents())[1..];
    }
  }

  // ---------------------------------------------------------------------------------
  // Two threads, one memory access at a time
  // ---------------------------------------------------------------------------------

  /** Where the sender is, with its local variables. */
  datatype Producer =
    | PIdle
    | PReadNext(frame: Frame)                                        // about to read head
    | PReadTail(frame: Frame, next: index)                           // about to read tail
    | PReadHead(frame: Frame, next: index)                           // about to read head again
    | PCopy(frame: Frame, next: index, slot: index, done: nat)       // writing the slot
    | PPublish(frame: Frame, next: index)                            // about to write head

  /** Where the receiver is. `wasEmpty` records the queue at the moment head was read. */
  datatype Consumer =
    | CIdle
    | CReadHead
    | CReadTail(h: index, wasEmpty: bool)                            // about to compare with tail
    | CLoadSlot                                                      // about to read tail again
    | CCopy(slot: index, partial: seq<byte>)                         // reading the slot
    | CReadNext(buffer: Frame)                                       // about to read tail
    | CPublish(buffer: Frame, next: index)                           // about to write tail

  /**
    Shared memory, both threads, and the history: the frames of the completed sends and
    receives, and the events in the order in which they take effect.
   */
  datatype State = State(
    slots: seq<seq<byte>>, head: index, tail: index,
    p: Producer, c: Consumer,
    sent: seq<Frame>, received: seq<Frame>, trace: seq<Event>
  )

  ghost const INITIAL := State(Repeat(BLANK, DEPTH), 0, 0, PIdle, CIdle, [], [], [])

  ghost predicate Shape(s: State) {
    && |s.slots| == DEPTH
    && (forall i :: 0 <= i < DEPTH ==> |s.slots[i]| == FRAME_BYTES)
    && (s.p.PCopy? ==> s.p.done < FRAME_BYTES)
    && (s.c.CCopy? ==> |s.c.partial| < FRAME_BYTES)
  }

  /** One access by the sender; an idle sender calls `CanBus_send` with `f`. */
  ghost function ProducerStep(s: State, f: Frame): State
    requires Shape(s)
  {
    match s.p
    case PIdle => s.(p := PReadNext(f))
    case PReadNext(frame) => s.(p := PReadTail(frame, Next(s.head)))
    case PReadTail(frame, next) =>
      if next == s.tail then
        s.(p := PIdle, trace := s.trace + [SendFull])
      else
        s.(p := PReadHead(frame, next))
    case PReadHead(frame, next) => s.(p := PCopy(frame, next, s.head, 0))
    case PCopy(frame, next, slot, done) =>
      var written := s.(slots := s.slots[slot := s.slots[slot][done := frame[done]]]);
      written.(p := if done + 1 == FRAME_BYTES then PPublish(frame, next) else PCopy(frame, next, slot, done + 1))
    case PPublish(frame, next) =>
      s.(head := next, p := PIdle, sent := s.sent + [frame], trace := s.trace + [SendOk(frame)])
  }

  /** One access by the receiver; an idle receiver calls `CanBus_recv`. */
  ghost function ConsumerStep(s: State): State
    requires Shape(s)
  {
    match s.c
    case CIdle => s.(c := CReadHead)
    case CReadHead =>
      var empty := |s.sent| == |s.received|;
      s.(c := CReadTail(s.head, empty), trace := if empty then s.trace + [RecvEmpty] else s.trace)
    case CReadTail(h, wasEmpty) => s.(c := if h == s.tail then CIdle else CLoadSlot)
    case CLoadSlot => s.(c := CCopy(s.tail, []))
    case CCopy(slot, buffer) =>
      var b := buffer + [s.slots[slot][|buffer|]];
      s.(c := if |b| == FRAME_BYTES then CReadNext(b) else CCopy(slot, b))
    case CReadNext(buffer) => s.(c := CPublish(buffer, Next(s.tail)))
    case CPublish(buffer, next) =>
      s.(tail := next, c := CIdle, received := s.received + [buffer], trace := s.trace + [RecvOk(buffer)])
  }

  datatype Move = Producer(frame: Frame) | Consumer

  /** The frames that have been sent and not yet received. */
  ghost function InFlight(sent: seq<Frame>, received: seq<Frame>): (q: seq<Frame>)
    requires |received| <= |sent|
    ensures |q| == |sent| - |received|
  {
    sent[|received|..]
  }

  /** What every reachable state satisfies. */
  ghost predicate Inv(s: State) {
    && Shape(s)
    && RingInv(s.slots, s.head, s.tail, s.sent, s.received)
    && ProducerInv(s.p, s.slots, s.head, |s.sent| - |s.received|)
    && ConsumerInv(s.c, s.slots, s.tail, |s.sent| - |s.received|)
    && FifoRun(s.trace) == Some(InFlight(s.sent, s.received))
  }

  /** The indices count sends and receives modulo 64, and the slots between them hold the queue. */
  ghost predicate RingInv(slots: seq<seq<byte>>, head: index, tail: index, sent: seq<Frame>, received: seq<Frame>): (b: bool)
    ensures b ==> |received| <= |sent| <= |received| + CAPACITY
    ensures b ==> head == Slot(|sent|) && tail == Slot(|received|)
    ensures b ==> |slots| == DEPTH
  {
    && |slots| == DEPTH
    && |received| <= |sent| <= |received| + CAPACITY
    && received == sent[..|received|]
    && head == Slot(|sent|) && tail == Slot(|received|)
    && (forall k :: |received| <= k < |sent| ==> slots[Slot(k)] == sent[k])
  }

  /** `n` frames are in flight; the sender has room from its test until it publishes. */
  ghost predicate ProducerInv(p: Producer, slots: seq<seq<byte>>, head: index, n: int)
    requires |slots| == DEPTH && |slots[head]| == FRAME_BYTES
  {
    match p
    case PIdle => true
    case PReadNext(_) => true
    case PReadTail(_, next) => next == Next(head)
    case PReadHead(_, next) => next == Next(head) && n < CAPACITY
    case PCopy(frame, next, slot, done) =>
      && next == Next(head) && n < CAPACITY && slot == head
      && done < FRAME_BYTES && slots[head][..done] == frame[..done]
    case PPublish(frame, next) => next == Next(head) && n < CAPACITY && slots[head] == frame
  }

  /** The receiver has a frame from its test until it publishes. */
  ghost predicate ConsumerInv(c: Consumer, slots: seq<seq<byte>>, tail: index, n: int)
    requires |slots| == DEPTH && |slots[tail]| == FRAME_BYTES
  {
    match c
    case CIdle => true
    case CReadHead => true
    case CReadTail(h, wasEmpty) => (wasEmpty <==> h == tail) && (wasEmpty || n > 0)
    case CLoadSlot => n > 0
    case CCopy(slot, partial) =>
      n > 0 && slot == tail && |partial| < FRAME_BYTES && partial == slots[tail][..|partial|]
    case CReadNext(buffer) => n > 0 && buffer == slots[tail]
    case CPublish(buffer, next) => n > 0 && buffer == slots[tail] && next == Next(tail)
  }

  /** Counts up to 63 apart have different slots. */
  lemma SlotsDiffer(a: nat, b: nat)
    requires a <= b <= a + CAPACITY
    ensures Slot(a) == Slot(b) <==> a == b
  {
    var qa, qb := a / DEPTH, b / DEPTH;
    assert a == DEPTH * qa + Slot(a) && b == DEPTH * qb + Slot(b);
  }

  lemma SlotAfter(a: nat)
    ensures Slot(a + 1) == Next(Slot(a))
  {
  }

  /** The full test and the empty test of the C code, in terms of the counts. */
  lemma FullAndEmpty(received: nat, sent: nat)
    requires received <= sent <= received + CAPACITY
    ensures Next(Slot(sent)) == Slot(received) <==> sent - received == CAPACITY
    ensures Slot(sent) == Slot(received) <==> sent == received
  {
    SlotsDiffer(received, sent);
    SlotAfter(sent);
    if sent - received == CAPACITY {
      assert sent + 1 == received + DEPTH;
    } else {
      SlotsDiffer(received, sent + 1);
    }
  }

  /** Writing the slot at the head disturbs neither the queue nor the receiver. */
  lemma CopyKeepsInv(s: State)
    requires Inv(s) && s.p.PCopy?
    ensures Inv(ProducerStep(s, s.p.frame))
  {
    hide Slot, Next, FifoRun;
    var t := ProducerStep(s, s.p.frame);
    var frame, slot, done := s.p.frame, s.p.slot, s.p.done;
    assert t.slots[slot][..done + 1] == s.slots[slot][..done] + [frame[done]];
    assert frame[..done + 1] == frame[..done] + [frame[done]];
    assert frame[..FRAME_BYTES] == frame && t.slots[slot][..FRAME_BYTES] == t.slots[slot];
    forall k | |s.received| <= k < |s.sent|
      ensures t.slots[Slot(k)] == s.sent[k]
    {
      SlotsDiffer(k, |s.sent|);
    }
    SlotsDiffer(|s.received|, |s.sent|);
  }

  lemma PublishKeepsRing(slots: seq<seq<byte>>, head: index, tail: index, sent: seq<Frame>, received: seq<Frame>,
                         frame: Frame)
    requires RingInv(slots, head, tail, sent, received)
    requires |sent| - |received| < CAPACITY && slots[head] == frame
    ensures RingInv(slots, Next(head), tail, sent + [frame], received)
    ensures InFlight(sent + [frame], received) == InFlight(sent, received) + [frame]
  {
    hide Slot, Next;
    SlotAfter(|sent|);
  }

  lemma ReceiveKeepsRing(slots: seq<seq<byte>>, head: index, tail: index, sent: seq<Frame>, received: seq<Frame>,
                         frame: Frame)
    requires RingInv(slots, head, tail, sent, received)
    requires |sent| > |received| && slots[tail] == frame
    ensures RingInv(slots, head, Next(tail), sent, received + [frame])
    ensures InFlight(sent, received)[0] == frame
    ensures InFlight(sent, received + [frame]) == InFlight(sent, received)[1..]
  {
    hide Slot, Next;
    SlotAfter(|received|);
    assert slots[Slot(|received|)] == sent[|received|];
  }

  lemma ProducerKeepsInv(s: State, f: Frame)
    requires Inv(s)
    ensures Inv(ProducerStep(s, f))
  {
    hide RingInv, InFlight, FifoRun, Next;
    match s.p
    case PIdle =>
    case PReadNext(_) =>
    case PReadTail(_, _) =>
      FifoRunAppend(s.trace, SendFull);
      FullAndEmpty(|s.received|, |s.sent|);
    case PReadHead(_, _) =>
    case PCopy(_, _, _, _) => CopyKeepsInv(s);
    case PPublish(frame, _) =>
      FifoRunAppend(s.trace, SendOk(frame));
      PublishKeepsRing(s.slots, s.head, s.tail, s.sent, s.received, frame);
  }

  lemma ConsumerKeepsInv(s: State)
    requires Inv(s)
    ensures Inv(ConsumerStep(s))
  {
    hide RingInv, InFlight, FifoRun, Next;
    match s.c
    case CIdle =>
    case CReadHead =>
      FifoRunAppend(s.trace, RecvEmpty);
      FullAndEmpty(|s.received|, |s.sent|);
    case CReadTail(_, _) =>
    case CLoadSlot =>
    case CCopy(slot, partial) =>
      assert s.slots[slot][..|partial| + 1] == s.slots[slot][..|partial|] + [s.slots[slot][|partial|]];
      assert s.slots[slot][..FRAME_BYTES] == s.slots[slot];
    case CReadNext(_) =>
    case CPublish(buffer, _) =>
      FifoRunAppend(s.trace, RecvOk(buffer));
      ReceiveKeepsRing(s.slots, s.head, s.tail, s.sent, s.received, buffer);
  }

  /** One move of either thread keeps the invariant. */
  ghost function Advance(s: State, m: Move): (t: State)
    requires Inv(s)
    ensures Inv(t)
  {
    match m
    case Producer(f) => ProducerKeepsInv(s, f); ProducerStep(s, f)
    case Consumer => ConsumerKeepsInv(s); ConsumerStep(s)
  }

  /** The state after a schedule: any interleaving of the two threads, any frames. */
  ghost function Run(schedule: seq<Move>): (s: State)
    ensures Inv(s)
  {
    if schedule == [] then INITIAL else Advance(Run(schedule[..|schedule| - 1]), schedule[|schedule| - 1])
  }

  /**
    Every interleaving behaves like one FIFO of capacity 63: the events are a legal FIFO
    history ending in the frames in flight, and what has been received is, frame for frame
    and untorn, a prefix of what has been sent.
   */
  lemma RingIsFifo(schedule: seq<Move>)
    ensures var s := Run(schedule);
            && FifoRun(s.trace) == Some(s.sent[|s.received|..])
            && s.received <= s.sent
            && |s.sent| - |s.received| <= CAPACITY
  {
    assert Inv(Run(schedule));
  }

  /** While the sender writes a slot and the receiver reads one, the slots differ. */
  lemma NeverTheSameSlot(schedule: seq<Move>)
    ensures var s := Run(schedule);
            s.p.PCopy? && s.c.CCopy? ==> s.p.slot != s.c.slot
  {
    var s := Run(schedule);
    SlotsDiffer(|s.received|, |s.sent|);
  }

  /** `CanBus_send` gives up exactly if 63 frames are in flight when it reads the other side's index. */
  lemma SendRefusesWhenFull(schedule: seq<Move>)
    ensures var s := Run(schedule);
            s.p.PReadTail? ==> (ProducerStep(s, s.p.frame).p.PIdle? <==> |s.sent| - |s.received| == CAPACITY)
  {
    var s := Run(schedule);
    FullAndEmpty(|s.received|, |s.sent|);
  }

  /** `CanBus_recv` gives up exactly if no frame was in flight when it read the other side's index. */
  lemma RecvRefusesWhenEmpty(schedule: seq<Move>)
    ensures var s := Run(schedule);
            s.c.CReadTail? ==> (ConsumerStep(s).c.CIdle? <==> s.c.wasEmpty)
  {
    assert Inv(Run(schedule));
  }

  // ---------------------------------------------------------------------------------
  // Every call returns
  // ---------------------------------------------------------------------------------

  /** The accesses of a call so far. */
  function Sending(p: Producer): nat {
    match p
    case PIdle => 0
    case PReadNext(_) => 1
    case PReadTail(_, _) => 2
    case PReadHead(_, _) => 3
    case PCopy(_, _, _, done) => 4 + done
    case PPublish(_, _) => 17
  }

  function Receiving(c: Consumer): nat {
    match c
    case CIdle => 0
    case CReadHead => 1
    case CReadTail(_, _) => 2
    case CLoadSlot => 3
    case CCopy(_, partial) => 4 + |partial|
    case CReadNext(_) => 17
    case CPublish(_, _) => 18
  }

  /** An access of the sender is one more of the same call for the same frame, or ends it with one event. */
  lemma SenderAdvances(s: State, f: Frame)
    requires Inv(s)
    ensures var t := ProducerStep(s, f);
            && t.c == s.c && t.tail == s.tail && t.received == s.received
            && (!t.p.PIdle? ==> Sending(t.p) == Sending(s.p) + 1 && t.trace == s.trace && t.sent == s.sent
                                && t.p.frame == if s.p.PIdle? then f else s.p.frame)
            && (t.p.PIdle? ==> !s.p.PIdle?
                               && (|| (t.trace == s.trace + [SendFull] && t.sent == s.sent)
                                   || (t.trace == s.trace + [SendOk(s.p.frame)] && t.sent == s.sent + [s.p.frame])))
  {
    hide RingInv, FifoRun, InFlight, Next;
  }

  /** The same for the receiver, whose event on an empty queue falls on the access that finds it empty. */
  lemma ReceiverAdvances(s: State)
    requires Inv(s)
    ensures var t := ConsumerStep(s);
            && t.p == s.p && t.head == s.head && t.sent == s.sent && t.slots == s.slots
            && (!t.c.CIdle? ==> Receiving(t.c) == Receiving(s.c) + 1 && t.received == s.received
                                && t.trace == if t.c.CReadTail? && t.c.wasEmpty then s.trace + [RecvEmpty] else s.trace)
            && (t.c.CIdle? ==> !s.c.CIdle?
                               && (|| (s.c.CReadTail? && s.c.wasEmpty && t.trace == s.trace && t.received == s.received)
                                   || (s.c.CPublish? && t.trace == s.trace + [RecvOk(s.c.buffer)]
                                       && t.received == s.received + [s.c.buffer])))
  {
    hide RingInv, FifoRun, InFlight, Next;
  }

  function SendEvents(trace: seq<Event>): nat {
    if trace == [] then 0
    else
      var e := trace[|trace| - 1];
      SendEvents(trace[..|trace| - 1]) + if e.SendOk? || e.SendFull? then 1 else 0
  }

  function RecvEvents(trace: seq<Event>): nat {
    if trace == [] then 0
    else
      var e := trace[|trace| - 1];
      RecvEvents(trace[..|trace| - 1]) + if e.RecvOk? || e.RecvEmpty? then 1 else 0
  }

  function ProducerMoves(schedule: seq<Move>): nat {
    if schedule == [] then 0
    else ProducerMoves(schedule[..|schedule| - 1]) + if schedule[|schedule| - 1].Producer? then 1 else 0
  }

  lemma EventsAppend(trace: seq<Event>, e: Event)
    ensures SendEvents(trace + [e]) == SendEvents(trace) + if e.SendOk? || e.SendFull? then 1 else 0
    ensures RecvEvents(trace + [e]) == RecvEvents(trace) + if e.RecvOk? || e.RecvEmpty? then 1 else 0
  {
    assert (trace + [e])[..|trace + [e]| - 1] == trace;
  }

  /** What a pending receive that has found the queue empty has already accounted for. */
  function Prepaid(c: Consumer): nat {
    if c.CReadTail? && c.wasEmpty then 19 else 0
  }

  /**
    Neither side waits for the other: whatever the other thread does, a send returns after at
    most 18 accesses of its own and a receive after at most 19, so the number of accesses is
    bounded by the number of completed calls.
   */
  lemma {:induction false} CallsReturn(schedule: seq<Move>)
    ensures var s := Run(schedule);
            && ProducerMoves(schedule) <= 18 * SendEvents(s.trace) + Sending(s.p)
            && |schedule| - ProducerMoves(schedule) + Prepaid(s.c) <= 19 * RecvEvents(s.trace) + Receiving(s.c)
            && Sending(s.p) <= 17 && Receiving(s.c) <= 18
  {
    hide Inv, ProducerStep, ConsumerStep, SendEvents, RecvEvents, Sending, Receiving;
    if schedule == [] {
      NothingSent();
    } else {
      var n := |schedule| - 1;
      var s := Run(schedule[..n]);
      CallsReturn(schedule[..n]);
      CallsBounded(Run(schedule));
      CallsBounded(s);
      match schedule[n] {
        case Producer(f) =>
          SenderAdvances(s, f);
          EventsAppend(s.trace, SendFull);
          if s.p != PIdle {
            EventsAppend(s.trace, SendOk(s.p.frame));
          }
        case Consumer =>
          ReceiverAdvances(s);
          EventsAppend(s.trace, RecvEmpty);
          if s.c.CPublish? {
            EventsAppend(s.trace, RecvOk(s.c.buffer));
          }
      }
    }
  }

  lemma NothingSent()
    ensures SendEvents([]) == 0 && RecvEvents([]) == 0 && Sending(PIdle) == 0 && Receiving(CIdle) == 0
  {
  }

  lemma CallsBounded(s: State)
    requires Inv(s)
    ensures Sending(s.p) <= 17 && Receiving(s.c) <= 18
    ensures s.p.PIdle? ==> Sending(s.p) == 0
    ensures s.c.CIdle? ==> Receiving(s.c) == 0
    ensures s.c.CReadTail? ==> Receiving(s.c) == 2
  {
  }
}
