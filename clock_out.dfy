/** Pulse sinks over output pins (crates/dg-types/src/clock_out.rs).

    `Pin` raises its output, waits the pulse duration and lowers it again;
    a pair or triple of pins emits the same pulse on every member at once
    (the futures are joined, so all members go high at the same instant,
    each awaits its own timer of the same duration, and all go low together).
    Besides the pin's level, `transitions` logs every `set_high` and `set_low`
    call, not only real transitions: raising a pin that is already high adds
    an entry too. */
module ClockOut {
  import opened Signals

  /** `Pin<T: OutputPin>`: an output line and the log of level commands
      it was given. */
  class Pin {
    var level: Level
    var transitions: seq<Transition>

    constructor ()
      ensures level == Low && transitions == []
    {
      level, transitions := Low, [];
    }

    /** `OutputPin::set_high`; `unwrap()` keeps only the success path. */
    method SetHigh(clock: Clock)
      modifies this
      ensures level == High && transitions == old(transitions) + [Transition(clock.now, High)]
    {
      level := High;
      transitions := transitions + [Transition(clock.now, High)];
    }

    /** `OutputPin::set_low`. */
    method SetLow(clock: Clock)
      modifies this
      ensures level == Low && transitions == old(transitions) + [Transition(clock.now, Low)]
    {
      level := Low;
      transitions := transitions + [Transition(clock.now, Low)];
    }

    /** `Pin::emit_pulse`: high, wait `duration`, low; exactly those two
        transitions, so the pin ends low with one high interval of length
        `duration`. */
    method EmitPulse(clock: Clock, duration: nat)
      modifies this, clock
      ensures level == Low
      ensures transitions == old(transitions) + Waveform([Pulse(old(clock.now), duration)])
      ensures clock.now == old(clock.now) + duration
    {
      SetHigh(clock);
      clock.Sleep(duration);
      SetLow(clock);
    }
  }

  /** The `ClockOut` impl for a pair of pins. */
  class PinPair {
    const first: Pin
    const second: Pin

    /** The two members are distinct: the tuple owns each one `&mut`. */
    constructor (first: Pin, second: Pin)
      requires first != second
      ensures this.first == first && this.second == second
    {
      this.first, this.second := first, second;
    }

    /** `join(self.0.emit_pulse(d), self.1.emit_pulse(d))`: both members
        emit a pulse of the same duration, and the call completes only when
        both have ended low. */
    method EmitPulse(clock: Clock, duration: nat)
      requires first != second
      modifies first, second, clock
      ensures first.level == Low && second.level == Low
      ensures first.transitions == old(first.transitions) + Waveform([Pulse(old(clock.now), duration)])
      ensures second.transitions == old(second.transitions) + Waveform([Pulse(old(clock.now), duration)])
      ensures clock.now == old(clock.now) + duration
    {
      first.SetHigh(clock);
      second.SetHigh(clock);
      clock.Sleep(duration);
      first.SetLow(clock);
      second.SetLow(clock);
    }
  }

  /** The `ClockOut` impl for a triple of pins. */
  class PinTriple {
    const first: Pin
    const second: Pin
    const third: Pin

    constructor (first: Pin, second: Pin, third: Pin)
      requires first != second && first != third && second != third
      ensures this.first == first && this.second == second && this.third == third
    {
      this.first, this.second, this.third := first, second, third;
    }

    /** `join3` of the three members' `emit_pulse(d)`: all three emit the same
        pulse and the call completes when all three have ended low. */
    method EmitPulse(clock: Clock, duration: nat)
      requires first != second && first != third && second != third
      modifies first, second, third, clock
      ensures first.level == Low && second.level == Low && third.level == Low
      ensures first.transitions == old(first.transitions) + Waveform([Pulse(old(clock.now), duration)])
      ensures second.transitions == old(second.transitions) + Waveform([Pulse(old(clock.now), duration)])
      ensures third.transitions == old(third.transitions) + Waveform([Pulse(old(clock.now), duration)])
      ensures clock.now == old(clock.now) + duration
    {
      first.SetHigh(clock);
      second.SetHigh(clock);
      third.SetHigh(clock);
      clock.Sleep(duration);
      first.SetLow(clock);
      second.SetLow(clock);
      third.SetLow(clock);
    }
  }
}
