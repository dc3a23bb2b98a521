/** `clock_forward` (crates/dg-clock/src/lib.rs): wait for an input edge, then
    emit one pulse of the fixed duration, forever.

    The input is the test double `MockClockIn` and the output `MockClockOut`
    (module MockEdges). The task never returns; here it runs until `wait`
    becomes `pending()`, after which nothing more can happen. */
module Forward {
  import opened Signals
  import opened MockEdges

  /** The pulses `clock_forward` emits when started at `now` on the heap
      `events`, read off the heap in ascending order: an event at or before
      the current time is skipped, a later one starts a pulse, and the
      current time then jumps to that pulse's end. */
  function ForwardTrace(events: seq<int>, now: int, duration: nat): (ps: seq<Pulse>)
    ensures |ps| <= |events|
  {
    if events == [] then []
    else if events[0] <= now then ForwardTrace(events[1..], now, duration)
    else [Pulse(events[0], duration)] + ForwardTrace(events[1..], events[0] + duration, duration)
  }

  /** The clock's time when `clock_forward` has run out of edges, read off
      the heap as `ForwardTrace` is. */
  function ForwardEnd(events: seq<int>, now: int, duration: nat): (t: int)
    ensures t >= now
  {
    if events == [] then now
    else if events[0] <= now then ForwardEnd(events[1..], now, duration)
    else ForwardEnd(events[1..], events[0] + duration, duration)
  }

  /** That time is the end of the last pulse emitted, or the start time
      when no pulse is emitted. */
  lemma {:induction false} ForwardEndIsLastPulseEnd(events: seq<int>, now: int, duration: nat)
    ensures ForwardTrace(events, now, duration) == [] ==> ForwardEnd(events, now, duration) == now
    ensures ForwardTrace(events, now, duration) != [] ==>
      var ps := ForwardTrace(events, now, duration);
      ForwardEnd(events, now, duration) == ps[|ps| - 1].time + duration
    decreases |events|
  {
    if events != [] {
      if events[0] <= now {
        ForwardEndIsLastPulseEnd(events[1..], now, duration);
      } else {
        ForwardEndIsLastPulseEnd(events[1..], events[0] + duration, duration);
      }
    }
  }

  /** One turn of the loop, `wait` then `emit_pulse`, as an equation on
      traces: the trace is empty exactly when `wait` stays pending, and
      otherwise starts with a pulse at the edge `wait` returns, followed by
      the trace of the rest of the heap from that pulse's end. */
  lemma {:induction false} ForwardTraceStep(events: seq<int>, now: int, duration: nat)
    ensures NextEdge(events, now).None? ==>
      ForwardTrace(events, now, duration) == [] && ForwardEnd(events, now, duration) == now
    ensures NextEdge(events, now).Some? ==>
      var t := NextEdge(events, now).value;
      ForwardTrace(events, now, duration) ==
        [Pulse(t, duration)] + ForwardTrace(AfterWait(events, now), t + duration, duration) &&
      ForwardEnd(events, now, duration) == ForwardEnd(AfterWait(events, now), t + duration, duration)
  {
    if events != [] {
      if events[0] <= now {
        ForwardTraceStep(events[1..], now, duration);
        WaitDropsPastHead(events, now);
      } else {
        WaitTakesFutureHead(events, now);
      }
    }
  }

  /** At most one pulse per edge; every pulse has the fixed duration and
      starts at one of the edges after `now`. */
  lemma {:induction false} ForwardPulsesFromEdges(events: seq<int>, now: int, duration: nat)
    ensures |ForwardTrace(events, now, duration)| <= |events|
    ensures forall p :: p in ForwardTrace(events, now, duration) ==>
      p.duration == duration && p.time > now && p.time in events
    decreases |events|
  {
    if events != [] {
      var ps := ForwardTrace(events, now, duration);
      if events[0] <= now {
        ForwardPulsesFromEdges(events[1..], now, duration);
      } else {
        ForwardPulsesFromEdges(events[1..], events[0] + duration, duration);
      }
      forall p | p in ps ensures p.time in events {
        if p.time != events[0] {
          assert p.time in events[1..];
        }
      }
    }
  }

  /** What `assert_shortly_after` checks in the two forwarding tests, for
      every heap: each pulse starts shortly after some edge later than
      `now` (in this model at the very instant of the edge). */
  lemma ForwardPulsesShortlyAfterEdges(events: seq<int>, now: int, duration: nat)
    ensures forall p :: p in ForwardTrace(events, now, duration) ==>
      exists e :: e in events && e > now && ShortlyAfter(p, e)
  {
    ForwardPulsesFromEdges(events, now, duration);
    forall p | p in ForwardTrace(events, now, duration)
      ensures exists e :: e in events && e > now && ShortlyAfter(p, e)
    {
      assert ShortlyAfter(p, p.time);
    }
  }

  /** Each pulse starts only after the previous one has ended: at most one
      pulse is in flight. */
  lemma {:induction false} ForwardSequential(events: seq<int>, now: int, duration: nat)
    ensures Sequential(ForwardTrace(events, now, duration))
    decreases |events|
  {
    if events != [] {
      if events[0] <= now {
        ForwardSequential(events[1..], now, duration);
      } else {
        var t := events[0];
        var tail := ForwardTrace(events[1..], t + duration, duration);
        var ps := [Pulse(t, duration)] + tail;
        ForwardSequential(events[1..], t + duration, duration);
        ForwardPulsesFromEdges(events[1..], t + duration, duration);
        forall i | 0 <= i < |ps| - 1
          ensures ps[i].time + ps[i].duration < ps[i + 1].time
        {
          assert ps[i + 1] == tail[i] && tail[i] in tail;
          if i > 0 {
            assert ps[i] == tail[i - 1];
          }
        }
      }
    }
  }

  /** No edge goes unaccounted for: on the heap, every edge after `now`
      either starts a pulse or arrives while one is in flight (and is then
      dropped). */
  lemma {:induction false} ForwardAccountsForEveryEdge(events: seq<int>, now: int, duration: nat, e: int)
    requires Sorted(events) && e in events && e > now
    ensures exists p :: p in ForwardTrace(events, now, duration) && p.time <= e <= p.time + duration
    decreases |events|
  {
    var ps := ForwardTrace(events, now, duration);
    if events[0] <= now {
      assert e != events[0] && e in events[1..];
      SortedTail(events);
      ForwardAccountsForEveryEdge(events[1..], now, duration, e);
    } else {
      var t := events[0];
      var tail := ForwardTrace(events[1..], t + duration, duration);
      SortedHeadIsLeast(events, e);
      if e <= t + duration {
        assert Pulse(t, duration) in ps;
      } else {
        assert e in events[1..];
        SortedTail(events);
        ForwardAccountsForEveryEdge(events[1..], t + duration, duration, e);
        var p :| p in tail && p.time <= e <= p.time + duration;
        assert p in ps;
      }
    }
  }

  /** Driving a pin with the forwarded pulses gives a trace whose time never
      runs back: the pin's high intervals never overlap. */
  lemma ForwardWaveformOrdered(events: seq<int>, now: int, duration: nat)
    ensures Ordered(Waveform(ForwardTrace(events, now, duration)))
  {
    ForwardSequential(events, now, duration);
    SequentialWaveformOrdered(ForwardTrace(events, now, duration));
  }

  /** `clock_forward(gate_in, gate_out, duration)`: one `wait` then one
      `emit_pulse` per turn, the returned edge time discarded (the pulse
      starts at the clock's time once `wait` returns). The loop ends when
      `wait` is pending for good, and by then every event has been popped
      and the clock stands at `ForwardEnd`. */
  method ClockForward(source: MockEdgeSource, sink: MockPulseSink, clock: Clock, duration: nat)
    requires source.Valid()
    modifies source, sink, clock
    ensures source.Valid() && source.events == []
    ensures sink.pulses == old(sink.pulses) + ForwardTrace(old(source.events), old(clock.now), duration)
    ensures clock.now == ForwardEnd(old(source.events), old(clock.now), duration)
  {
    var pending := false;
    ghost var expected := ForwardTrace(source.events, clock.now, duration);
    ghost var end := ForwardEnd(source.events, clock.now, duration);
    while !pending
      invariant source.Valid()
      invariant !pending ==> old(sink.pulses) + expected == sink.pulses + ForwardTrace(source.events, clock.now, duration)
      invariant pending ==> source.events == [] && sink.pulses == old(sink.pulses) + expected
      invariant !pending ==> ForwardEnd(source.events, clock.now, duration) == end
      invariant pending ==> clock.now == end
      decreases if pending then 0 else |source.events| + 1
    {
      ghost var before := sink.pulses;
      ForwardTraceStep(source.events, clock.now, duration);
      var edge := source.Wait(clock);
      if edge.None? {
        pending := true;
      } else {
        ghost var tail := ForwardTrace(source.events, edge.value + duration, duration);
        sink.EmitPulse(clock, duration);
        assert sink.pulses + tail == before + ([Pulse(edge.value, duration)] + tail);
      }
    }
  }

  /** `test_clock_forward`: edges at 10 and 20 with 5 ms pulses give exactly
      two 5 ms pulses, each within 3 ms after its edge. */
  lemma ForwardTwoEdges()
    ensures ForwardTrace([10, 20], 0, 5) == [Pulse(10, 5), Pulse(20, 5)]
    ensures ShortlyAfter(ForwardTrace([10, 20], 0, 5)[0], 10)
    ensures ShortlyAfter(ForwardTrace([10, 20], 0, 5)[1], 20)
  {
  }

  /** `test_clock_forward_drops_pulse`: edges at 10, 20 and 30 with 15 ms
      pulses give two pulses, at 10 and 30; the edge at 20 falls inside the
      first pulse and is lost. */
  lemma ForwardDropsPulse()
    ensures ForwardTrace([10, 20, 30], 0, 15) == [Pulse(10, 15), Pulse(30, 15)]
    ensures ShortlyAfter(ForwardTrace([10, 20, 30], 0, 15)[0], 10)
    ensures ShortlyAfter(ForwardTrace([10, 20, 30], 0, 15)[1], 30)
  {
    assert [10, 20, 30][1..] == [20, 30] && [20, 30][1..] == [30];
    assert ForwardTrace([20, 30], 25, 15) == ForwardTrace([30], 25, 15);
  }

  /** `test_clock_forward_drops_pulse` run on the loop itself: the sink
      records the two pulses, and the source ends empty. */
  method ClockForwardDropsPulse() returns (pulses: seq<Pulse>, drained: bool)
    ensures pulses == [Pulse(10, 15), Pulse(30, 15)] && drained
  {
    var source, clock := NewTestSource();
    var sink := new MockPulseSink();
    ClockForward(source, sink, clock, 15);
    pulses := sink.pulses;
    assert pulses == [Pulse(10, 15), Pulse(30, 15)] by {
      ForwardDropsPulse();
    }
    drained := source.IsEmpty();
  }
}
