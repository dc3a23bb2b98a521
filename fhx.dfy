/** The single-writer arbiter of the FHX expander (crates/daisy-garden/src/fhx.rs).

    Every CV and gate handle holds only a sender into one static channel of
    capacity 5; one worker task owns the FHX driver, receives the messages in
    FIFO order and turns each into one driver call. The cooperative
    scheduler is replaced by sequential interleavings of `Send` and
    `WorkerStep`, and the driver by the log of calls it receives. */
module Fhx {
  import opened Words

  /** Capacity of `FHX_CHANNEL`. */
  const QUEUE_CAPACITY: nat := 5

  // The driver's address and channel enums are numbered here.
  type CvAddress = nat
  type CvChannel = nat
  type GtAddress = nat
  type GtChannel = nat

  /** `FhxSetMessage`. */
  datatype Message =
    | CvPolarity(cvAddress: CvAddress, polarity: U8)
    | Cv(cvAddress: CvAddress, cvChannel: CvChannel, value: U16)
    | Gate(gtAddress: GtAddress, gtChannel: GtChannel, high: bool)

  /** A call the worker makes on the FHX driver. */
  datatype DriverCall =
    | SetCvPolarity(cvAddress: CvAddress, polarity: U8)
    | SetCvRaw(cvAddress: CvAddress, cvChannel: CvChannel, value: U16)
    | GateHigh(gtAddress: GtAddress, gtChannel: GtChannel)
    | GateLow(gtAddress: GtAddress, gtChannel: GtChannel)

  /** The worker's `match msg`: one driver call per message, chosen by tag. */
  function Dispatch(m: Message): (c: DriverCall)
    ensures m.CvPolarity? <==> c.SetCvPolarity?
    ensures m.Cv? <==> c.SetCvRaw?
    ensures m.Gate? ==> (c.GateHigh? <==> m.high) && (c.GateLow? <==> !m.high)
    ensures m.CvPolarity? ==> c.cvAddress == m.cvAddress && c.polarity == m.polarity
    ensures m.Cv? ==> c.cvAddress == m.cvAddress && c.cvChannel == m.cvChannel && c.value == m.value
    ensures m.Gate? ==> c.gtAddress == m.gtAddress && c.gtChannel == m.gtChannel
  {
    match m
    case CvPolarity(a, p) => SetCvPolarity(a, p)
    case Cv(a, ch, v) => SetCvRaw(a, ch, v)
    case Gate(a, ch, high) => if high then GateHigh(a, ch) else GateLow(a, ch)
  }

  /** The message a driver call was dispatched from. */
  function Origin(c: DriverCall): Message
  {
    match c
    case SetCvPolarity(a, p) => CvPolarity(a, p)
    case SetCvRaw(a, ch, v) => Cv(a, ch, v)
    case GateHigh(a, ch) => Gate(a, ch, true)
    case GateLow(a, ch) => Gate(a, ch, false)
  }

  /** Dispatch loses nothing: each call names its message, and every driver
      call the worker can make comes from exactly one message. */
  lemma DispatchBijective(m: Message, c: DriverCall)
    ensures Origin(Dispatch(m)) == m
    ensures Dispatch(Origin(c)) == c
    ensures Dispatch(m) == c <==> m == Origin(c)
  {
  }

  /** The driver calls for a sequence of messages, in order. */
  function DispatchAll(ms: seq<Message>): (cs: seq<DriverCall>)
    ensures |cs| == |ms|
    ensures forall i :: 0 <= i < |ms| ==> cs[i] == Dispatch(ms[i])
  {
    if ms == [] then [] else [Dispatch(ms[0])] + DispatchAll(ms[1..])
  }

  lemma {:induction false} DispatchAllAppend(a: seq<Message>, b: seq<Message>)
    ensures DispatchAll(a + b) == DispatchAll(a) + DispatchAll(b)
  {
    if a != [] {
      assert (a + b)[1..] == a[1..] + b;
      DispatchAllAppend(a[1..], b);
    }
  }

  /** The driver log determines the messages: two message sequences with the
      same calls are the same sequence. */
  lemma {:induction false} DispatchAllInjective(a: seq<Message>, b: seq<Message>)
    requires DispatchAll(a) == DispatchAll(b)
    ensures a == b
  {
    if a != [] {
      assert Origin(Dispatch(a[0])) == a[0] && Origin(Dispatch(b[0])) == b[0];
      assert DispatchAll(a[1..]) == DispatchAll(a)[1..];
      assert DispatchAll(b[1..]) == DispatchAll(b)[1..];
      DispatchAllInjective(a[1..], b[1..]);
    }
  }

  /** `FHX_CHANNEL` together with the worker's driver. `sent` and `received`
      record every message ever enqueued and dequeued. */
  class Bus {
    var queue: seq<Message>
    var log: seq<DriverCall>
    ghost var sent: seq<Message>
    ghost var received: seq<Message>

    /** The queue is bounded, holds exactly what was sent and not yet
        received, in order, and the driver saw exactly the received messages. */
    ghost predicate Valid()
      reads this
    {
      |queue| <= QUEUE_CAPACITY &&
      sent == received + queue &&
      log == DispatchAll(received)
    }

    /** `Channel::new()` and the worker's freshly given driver. */
    constructor ()
      ensures Valid()
      ensures queue == [] && log == [] && sent == [] && received == []
    {
      queue, log := [], [];
      sent, received := [], [];
    }

    /** `send(msg).await` once there is room: a full channel suspends the
        sender until the worker receives, and never drops. */
    method Send(m: Message)
      requires Valid() && |queue| < QUEUE_CAPACITY
      modifies this
      ensures Valid()
      ensures queue == old(queue) + [m] && sent == old(sent) + [m]
      ensures log == old(log) && received == old(received)
    {
      queue := queue + [m];
      sent := sent + [m];
    }

    /** One turn of `fhx_worker`'s loop: receive the oldest message and make
        its driver call before receiving the next. */
    method WorkerStep() returns (m: Message)
      requires Valid() && queue != []
      modifies this
      ensures Valid()
      ensures m == old(queue)[0] && queue == old(queue)[1..]
      ensures log == old(log) + [Dispatch(m)]
      ensures sent == old(sent) && received == old(received) + [m]
    {
      m := queue[0];
      queue := queue[1..];
      received := received + [m];
      DispatchAllAppend(old(received), [m]);
      log := log + [Dispatch(m)];
    }

    /** `fhx_worker` running until `receive` would suspend on an empty
        channel: it dispatches every queued message, oldest first. */
    method RunWorker()
      requires Valid()
      modifies this
      ensures Valid() && queue == []
      ensures log == old(log) + DispatchAll(old(queue))
      ensures sent == old(sent)
    {
      ghost var taken: seq<Message> := [];
      while queue != []
        invariant Valid() && sent == old(sent)
        invariant old(queue) == taken + queue
        invariant log == old(log) + DispatchAll(taken)
        decreases |queue|
      {
        var m := WorkerStep();
        DispatchAllAppend(taken, [m]);
        taken := taken + [m];
      }
      assert taken == old(queue);
    }
  }

  /** At every point of every interleaving, the driver log followed by the
      dispatch of what is still queued is the dispatch of everything sent. */
  lemma LogThenQueueIsAllSent(b: Bus)
    requires b.Valid()
    ensures b.log + DispatchAll(b.queue) == DispatchAll(b.sent)
  {
    DispatchAllAppend(b.received, b.queue);
  }

  /** Hence the driver calls are exactly a prefix of the sent messages,
      dispatched in enqueue order. */
  lemma LogIsSentPrefix(b: Bus)
    requires b.Valid()
    ensures |b.log| <= |b.sent|
    ensures b.log == DispatchAll(b.sent[..|b.log|])
  {
    assert b.sent[..|b.log|] == b.received;
  }

  /** `FhxCv`: a sender plus an address and channel fixed at construction. */
  class CvHandle {
    const bus: Bus
    const address: CvAddress
    const channel: CvChannel

    constructor (bus: Bus, address: CvAddress, channel: CvChannel)
      ensures this.bus == bus && this.address == address && this.channel == channel
    {
      this.bus, this.address, this.channel := bus, address, channel;
    }

    /** `FhxCv::set_value`: enqueues exactly one `Cv` message with the
        handle's own address and channel. */
    method SetValue(value: U16)
      requires bus.Valid() && |bus.queue| < QUEUE_CAPACITY
      modifies bus
      ensures bus.Valid()
      ensures bus.queue == old(bus.queue) + [Cv(address, channel, value)]
      ensures bus.sent == old(bus.sent) + [Cv(address, channel, value)]
      ensures bus.log == old(bus.log)
    {
      bus.Send(Cv(address, channel, value));
    }
  }

  /** `FhxGate`: a sender plus an address and channel fixed at construction. */
  class GateHandle {
    const bus: Bus
    const address: GtAddress
    const channel: GtChannel

    constructor (bus: Bus, address: GtAddress, channel: GtChannel)
      ensures this.bus == bus && this.address == address && this.channel == channel
    {
      this.bus, this.address, this.channel := bus, address, channel;
    }

    /** `FhxGate::set_high`: enqueues exactly one `Gate { value: true }`. */
    method SetHigh()
      requires bus.Valid() && |bus.queue| < QUEUE_CAPACITY
      modifies bus
      ensures bus.Valid()
      ensures bus.queue == old(bus.queue) + [Gate(address, channel, true)]
      ensures bus.sent == old(bus.sent) + [Gate(address, channel, true)]
      ensures bus.log == old(bus.log)
    {
      bus.Send(Gate(address, channel, true));
    }

    /** `FhxGate::set_low`: enqueues exactly one `Gate { value: false }`. */
    method SetLow()
      requires bus.Valid() && |bus.queue| < QUEUE_CAPACITY
      modifies bus
      ensures bus.Valid()
      ensures bus.queue == old(bus.queue) + [Gate(address, channel, false)]
      ensures bus.sent == old(bus.sent) + [Gate(address, channel, false)]
      ensures bus.log == old(bus.log)
    {
      bus.Send(Gate(address, channel, false));
    }
  }

  /** Two producers sharing the bus: a CV task and a gate task interleave
      their sends with the worker, and the driver sees the calls in the one
      global enqueue order, each producer's own calls in its send order. */
  method TwoProducers()
  {
    var bus := new Bus();
    var cv := new CvHandle(bus, 0, 2);
    var gate := new GateHandle(bus, 1, 3);
    cv.SetValue(100);
    gate.SetHigh();
    var first := bus.WorkerStep();
    assert first == Cv(0, 2, 100);
    cv.SetValue(200);
    gate.SetLow();
    bus.RunWorker();
    assert bus.log == [SetCvRaw(0, 2, 100), GateHigh(1, 3), SetCvRaw(0, 2, 200), GateLow(1, 3)];
  }
}
