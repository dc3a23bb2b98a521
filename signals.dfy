/** Logical time and the shape of output pulses, shared by the pulse sinks
    and the forwarding loop. Time is a logical clock that the timers advance
    (milliseconds in the tests); nothing here reads a real clock. */
module Signals {

  /** `Instant::now()`: the one clock every task and timer shares. */
  class Clock {
    var now: int

    constructor (start: int)
      ensures now == start
    {
      now := start;
    }

    /** `Timer::after(d).await`: the waiting task resumes `d` later. */
    method Sleep(d: nat)
      modifies this
      ensures now == old(now) + d
    {
      now := now + d;
    }
  }

  /** A pulse as the test sinks record it: when it began, and its duration. */
  datatype Pulse = Pulse(time: int, duration: nat)

  datatype Level = Low | High

  /** One transition of an output pin. */
  datatype Transition = Transition(time: int, level: Level)

  /** The transitions a pin makes to emit the pulses `ps`, in order: high at
      each start, low one duration later. */
  function Waveform(ps: seq<Pulse>): (w: seq<Transition>)
    ensures |w| == 2 * |ps|
  {
    if ps == [] then []
    else [Transition(ps[0].time, High), Transition(ps[0].time + ps[0].duration, Low)] + Waveform(ps[1..])
  }

  /** Transition `i` of the waveform belongs to pulse `i / 2`: its rising
      edge when `i` is even, its falling edge when `i` is odd. */
  lemma {:induction false} WaveformAt(ps: seq<Pulse>, i: nat)
    requires i < 2 * |ps|
    ensures Waveform(ps)[i] ==
      if i % 2 == 0 then Transition(ps[i / 2].time, High)
      else Transition(ps[i / 2].time + ps[i / 2].duration, Low)
  {
    if i >= 2 {
      WaveformAt(ps[1..], i - 2);
      assert (i - 2) / 2 == i / 2 - 1 && (i - 2) % 2 == i % 2;
    }
  }

  lemma {:induction false} WaveformAppend(a: seq<Pulse>, b: seq<Pulse>)
    ensures Waveform(a + b) == Waveform(a) + Waveform(b)
  {
    if a != [] {
      assert (a + b)[0] == a[0];
      assert (a + b)[1..] == a[1..] + b;
      WaveformAppend(a[1..], b);
      var head := [Transition(a[0].time, High), Transition(a[0].time + a[0].duration, Low)];
      assert Waveform(a + b) == head + Waveform(a[1..] + b);
      assert head + (Waveform(a[1..]) + Waveform(b)) == (head + Waveform(a[1..])) + Waveform(b);
    } else {
      assert a + b == b;
    }
  }

  /** Each pulse begins only after the previous one has ended. */
  predicate Sequential(ps: seq<Pulse>)
  {
    forall i :: 0 <= i < |ps| - 1 ==> ps[i].time + ps[i].duration < ps[i + 1].time
  }

  /** Any waveform alternates high and low, starting high. */
  predicate Alternates(w: seq<Transition>)
  {
    forall i :: 0 <= i < |w| ==> w[i].level == (if i % 2 == 0 then High else Low)
  }

  /** Time never runs back along a trace. */
  predicate Ordered(w: seq<Transition>)
  {
    forall i :: 0 <= i < |w| - 1 ==> w[i].time <= w[i + 1].time
  }

  lemma WaveformAlternates(ps: seq<Pulse>)
    ensures Alternates(Waveform(ps))
  {
    forall i | 0 <= i < |Waveform(ps)|
      ensures Waveform(ps)[i].level == (if i % 2 == 0 then High else Low)
    {
      WaveformAt(ps, i);
    }
  }

  /** Each high interval of the waveform lasts exactly its pulse's duration. */
  lemma WaveformHighIntervals(ps: seq<Pulse>)
    ensures forall i :: 0 <= i < |ps| ==>
      Waveform(ps)[2 * i + 1].time - Waveform(ps)[2 * i].time == ps[i].duration
  {
    forall i | 0 <= i < |ps|
      ensures Waveform(ps)[2 * i + 1].time - Waveform(ps)[2 * i].time == ps[i].duration
    {
      WaveformPulse(ps, i);
    }
  }

  /** The two transitions of pulse `i` sit at positions `2 i` and `2 i + 1`. */
  lemma {:induction false} WaveformPulse(ps: seq<Pulse>, i: nat)
    requires i < |ps|
    ensures Waveform(ps)[2 * i] == Transition(ps[i].time, High)
    ensures Waveform(ps)[2 * i + 1] == Transition(ps[i].time + ps[i].duration, Low)
  {
    if i > 0 {
      WaveformPulse(ps[1..], i - 1);
    }
  }

  /** Pulses emitted one after another on one pin give a trace whose time
      never runs back: no two pulses overlap on the pin. */
  lemma SequentialWaveformOrdered(ps: seq<Pulse>)
    requires Sequential(ps)
    ensures Ordered(Waveform(ps))
  {
    var w := Waveform(ps);
    forall i | 0 <= i < |w| - 1
      ensures w[i].time <= w[i + 1].time
    {
      WaveformAt(ps, i);
      WaveformAt(ps, i + 1);
      if i % 2 == 1 {
        assert (i + 1) / 2 == i / 2 + 1;
      }
    }
  }
}
