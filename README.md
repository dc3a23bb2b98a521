# daisy-garden core, modelled in Dafny

daisy-garden is firmware for the patch.Init Eurorack module, written in Rust
on the embassy async runtime. This project models five pieces of it and
proves properties about them:

- **ADC parameters** (`Params`, with the integer helpers in `Words`).
  - `AdcIntParameter::get` maps one raw 16-bit ADC sample into a caller range
    `[min, max]`. It first inverts and doubles the reading, then splits the
    16-bit scale into `max - min + 1` equal buckets. The arithmetic is i64 with
    Rust's truncating `/` and a final `as i32`.
  - `AdcFloatParameter::new` is modelled for its validation only.
- **The FHX arbiter** (`Fhx`).
  - CV and gate handles enqueue `FhxSetMessage`s onto one static channel of
    capacity 5.
  - A single worker receives them in FIFO order and turns each message into
    exactly one call on the expander driver.
  - The driver is the log of calls it receives.
  - The scheduler is replaced by sequential interleavings of sends and
    worker steps.
- **Pulse outputs** (`Signals`, `ClockOut`). `Pin::emit_pulse` sets the pin
  high, waits, then sets it low. The pair and triple implementations fan one
  pulse out to every member. Time is a logical clock; a pin keeps the log of level
  commands it was given.
- **Clock forwarding** (`MockEdges`, `Forward`).
  - `clock_forward` waits for an input edge, then emits one fixed-duration
    pulse, forever.
  - Its input is the test double `MockClockIn` (`MockGateIn` in the
    `dg-clock-mult` twin). It is a min-heap of edge times that drops every
    edge at or before the current time before popping the next one.
  - The heap is the ascending sequence of its elements.
  - `ForwardTrace` is the trace of pulses, defined independently of the loop.
    `ClockForward` is the loop itself, proved to produce exactly that trace.
- **Noise** (`Noise`).
  - The white generator keeps bits 16..31 of one 64-bit draw of an abstract
    RNG stream.
  - The red generator draws one white sample per output sample and updates
    its accumulator. It then clamps and truncates the shaped accumulator to
    16 bits. Its double-precision arithmetic is a function supplied at
    construction.

Inputs that come from hardware are parameters: the ADC sample `raw`, the RNG
stream, and the clock's start time. Every `.dfy` file is given to Dafny
together; modules import one another by name.

## Model

| member | source | states |
|---|---|---|
| Words.TruncDiv | crates/daisy-garden/src/params.rs:57 | i64 `/` by a positive divisor rounds toward zero: the remainder has the dividend's sign and is smaller than the divisor in magnitude |
| Words.TruncDivMonotone | crates/daisy-garden/src/params.rs:57 | a larger dividend never gives a smaller truncated quotient |
| Words.WrapI32 | crates/daisy-garden/src/params.rs:59 | `as i32` keeps the value modulo 2^32 in the i32 range, and is the identity on values that already fit |
| Params.NewIntParam | crates/daisy-garden/src/params.rs:22-24 | construction succeeds exactly when `min <= max`, equal bounds included; otherwise it panics with the min-above-max reason |
| Params.Corrected | crates/daisy-garden/src/params.rs:51 | the corrected reading is even and in [-65534, 65536]; it is non-negative iff `raw <= 32768`, zero iff `raw = 32768`, and 65536 iff `raw = 0` |
| Params.Buckets | crates/daisy-garden/src/params.rs:53-55 | `max - min + 1` is between 1 and 2^32 for every valid parameter |
| Params.Map64 | crates/daisy-garden/src/params.rs:51-57 | the i64 result is `min` plus the product of the bucket count and the corrected reading divided by 65536 rounded toward zero: the remainder has the product's sign and is smaller than 65536 in size |
| Params.Get | crates/daisy-garden/src/params.rs:57-59 | `get` equals the i64 result wherever that result fits in i32 |
| Params.MapNoOverflow | crates/daisy-garden/src/params.rs:51-57 | no intermediate of `get` leaves i64, and the i64 result lies in [min - range, max + 1] |
| Params.MapInRange | crates/daisy-garden/src/params.rs:36-43 | for `raw` in [1, 32768], the i64 result lies in [min, max] |
| Params.GetInRange | crates/daisy-garden/src/params.rs:57-59 | on that range the `as i32` cast is lossless and `get` lies in [min, max] |
| Params.GetAtCentre | crates/daisy-garden/src/params.rs:51-59 | `raw = 32768` gives exactly `min` |
| Params.GetAtEndStop | crates/daisy-garden/src/params.rs:51-59 | `raw = 0` gives `max + 1`, one past the range; it wraps to -2^31 when `max` is the largest i32 |
| Params.MapAboveCentre | crates/daisy-garden/src/params.rs:51-57 | for `raw > 32768` the result lies in [2·min - max, min], and is exactly `min` while the product is below 65536 in magnitude |
| Params.TruncationMatters | crates/daisy-garden/src/params.rs:57 | at `raw = 32769` with a one-value range at 0, truncating division gives 0 where Euclidean division gives -1 |
| Params.MapMonotone | crates/daisy-garden/src/params.rs:51-57 | the i64 result is non-increasing in `raw` over the whole 16-bit scale |
| Params.GetMonotone | crates/daisy-garden/src/params.rs:57-59 | `get` is non-increasing in `raw` over [1, 32768] |
| Params.GetIntendedAgrees | crates/daisy-garden/src/params.rs:51-59 | the corrected map equals `get` as written for every `raw >= 1` |
| Params.GetIntended | crates/daisy-garden/src/params.rs:51-57 | the corrected `get`: equal to `get` as written wherever the i64 result does not exceed `max`, and `max` itself where it does (the end stop) |
| Params.GetIntendedInRange | crates/daisy-garden/src/params.rs:36-43 | the corrected map stays in [min, max] on the whole pot range [0, 32768], end stop included |
| Params.GetIntendedMonotone | crates/daisy-garden/src/params.rs:51-57 | the corrected map is non-increasing in `raw` on [0, 32768] |
| Params.NewFloatParam | crates/daisy-garden/src/params.rs:81-94 | construction succeeds exactly when `min <= max` and, on a log scale, `min > 0`; the panic reason is min-above-max iff `min <= max` fails; a log-scale parameter stores `log10` of both bounds |
| Fhx.Dispatch | crates/daisy-garden/src/fhx.rs:111-133 | each message tag maps to its driver call: polarity to `set_cv_polarity`, CV to `set_cv_raw`, gate true or false to `gate_high` or `gate_low`; address, channel and value carry over |
| Fhx.DispatchBijective | crates/daisy-garden/src/fhx.rs:111-133 | dispatch is a bijection between messages and driver calls; `Origin` is its inverse on both sides |
| Fhx.DispatchAll | crates/daisy-garden/src/fhx.rs:108-110 | the calls for a message sequence are one per message, in order |
| Fhx.DispatchAllAppend | crates/daisy-garden/src/fhx.rs:108-110 | dispatching a concatenation is the concatenation of the dispatches |
| Fhx.DispatchAllInjective | crates/daisy-garden/src/fhx.rs:111-133 | the driver log determines the message sequence it came from |
| Fhx.Bus.constructor | crates/daisy-garden/src/fhx.rs:8 | the channel starts empty, with nothing sent, received or dispatched |
| Fhx.Bus.Send | crates/daisy-garden/src/fhx.rs:8 | a send with room appends exactly its message to the queue and the sent history; the driver log is unchanged |
| Fhx.Bus.WorkerStep | crates/daisy-garden/src/fhx.rs:107-111 | the worker removes the oldest message and appends exactly its dispatch to the log |
| Fhx.Bus.RunWorker | crates/daisy-garden/src/fhx.rs:107-134 | the worker loop drains the queue; the log grows by the dispatch of the old queue, oldest first |
| Fhx.LogThenQueueIsAllSent | crates/daisy-garden/src/fhx.rs:107-110 | at every point, the driver log followed by the dispatch of the queue is the dispatch of everything sent |
| Fhx.LogIsSentPrefix | crates/daisy-garden/src/fhx.rs:97-110 | the driver calls are the dispatch of a prefix of the sent messages, in enqueue order |
| Fhx.CvHandle.constructor | crates/daisy-garden/src/fhx.rs:16-23 | a CV handle keeps its address and channel, fixed for its lifetime |
| Fhx.CvHandle.SetValue | crates/daisy-garden/src/fhx.rs:24-32 | `set_value(v)` enqueues exactly one `Cv` message with the handle's address and channel and value `v` |
| Fhx.GateHandle.constructor | crates/daisy-garden/src/fhx.rs:43-50 | a gate handle keeps its address and channel, fixed for its lifetime |
| Fhx.GateHandle.SetHigh | crates/daisy-garden/src/fhx.rs:52-60 | `set_high` enqueues exactly one `Gate` message with value true |
| Fhx.GateHandle.SetLow | crates/daisy-garden/src/fhx.rs:62-70 | `set_low` enqueues exactly one `Gate` message with value false |
| Signals.Clock.constructor | crates/dg-clock/tests/clock_forward.rs:105 | the clock starts at the given instant |
| Signals.Clock.Sleep | crates/dg-types/src/clock_out.rs:14 | `Timer::after(d)` resumes exactly `d` later |
| Signals.Waveform | crates/dg-types/src/clock_out.rs:12-16 | a pin emitting `n` pulses makes exactly `2n` transitions |
| Signals.WaveformAt | crates/dg-types/src/clock_out.rs:12-16 | transition `i` is the rising edge of pulse `i/2` when `i` is even, and its falling edge, one duration later, when odd |
| Signals.WaveformAppend | crates/dg-types/src/clock_out.rs:12-16 | emitting pulses one after another concatenates their transitions |
| Signals.WaveformAlternates | crates/dg-types/src/clock_out.rs:13-15 | the pin's transitions alternate high and low, starting high |
| Signals.WaveformHighIntervals | crates/dg-types/src/clock_out.rs:12-16 | each high interval lasts exactly its pulse's duration |
| Signals.WaveformPulse | crates/dg-types/src/clock_out.rs:12-16 | pulse `i` rises at transition `2i`, at its start, and falls at transition `2i + 1`, one duration later |
| Signals.SequentialWaveformOrdered | crates/dg-types/src/clock_out.rs:12-16 | pulses that do not overlap give transitions whose time never runs back |
| ClockOut.Pin.constructor | crates/dg-types/src/clock_out.rs:9 | a pin starts low with no transitions |
| ClockOut.Pin.SetHigh | crates/dg-types/src/clock_out.rs:13 | `set_high` makes the pin high and records one rising transition at the current time |
| ClockOut.Pin.SetLow | crates/dg-types/src/clock_out.rs:15 | `set_low` makes the pin low and records one falling transition at the current time |
| ClockOut.Pin.EmitPulse | crates/dg-types/src/clock_out.rs:12-16 | `emit_pulse` makes exactly the two transitions of one pulse starting now, leaves the pin low, and takes `duration` |
| ClockOut.PinPair.constructor | crates/dg-types/src/clock_out.rs:19-23 | a pair holds two distinct pins |
| ClockOut.PinPair.EmitPulse | crates/dg-types/src/clock_out.rs:24-27 | both pins emit the same pulse starting now, and the call completes when both are low again |
| ClockOut.PinTriple.constructor | crates/dg-types/src/clock_out.rs:30-35 | a triple holds three distinct pins |
| ClockOut.PinTriple.EmitPulse | crates/dg-types/src/clock_out.rs:36-43 | all three pins emit the same pulse starting now, and the call completes when all are low again |
| MockEdges.Push | crates/dg-clock/tests/clock_forward.rs:54 | pushing keeps the heap ascending, adds exactly one copy of the element, and puts the smaller of it and the old head in front |
| MockEdges.Collect | crates/dg-clock/tests/clock_forward.rs:52-56 | the heap built from any event list is ascending with exactly those events |
| MockEdges.SortedUnique | crates/dg-clock/tests/clock_forward.rs:48 | two ascending sequences with the same elements are equal, so the heap's pop order is determined by its contents |
| MockEdges.CollectOrderIndependent | crates/dg-clock-mult/tests/clock_forward.rs:50-54 | the heap does not depend on the order the events were given in |
| MockEdges.PastCount | crates/dg-clock/tests/clock_forward.rs:66-72 | the drop loop pops a prefix of the heap and stops before the first event after now |
| MockEdges.PastCountPrefix | crates/dg-clock-mult/tests/clock_forward.rs:63-70 | every popped event is at or before now, an event exactly at now included |
| MockEdges.NextEdge | crates/dg-clock/tests/clock_forward.rs:74-80 | `wait` returns only an event strictly after the time it was called at |
| MockEdges.NextEdgeIsEarliestFuture | crates/dg-clock/tests/clock_forward.rs:65-80 | on the heap, `wait` returns the earliest event after now, one of the heap's events, and stays pending exactly when no event is after now |
| MockEdges.AfterWait | crates/dg-clock-mult/tests/clock_forward.rs:72-78 | a pending `wait` empties the heap, and a returning one makes it strictly smaller |
| MockEdges.AfterWaitSorted | crates/dg-clock/tests/clock_forward.rs:74 | what `wait` leaves is still ascending |
| MockEdges.AfterWaitContents | crates/dg-clock/tests/clock_forward.rs:65-76 | `wait` loses exactly the events up to the one it returns: the heap is the dropped past events, the returned edge and what is left, in that order (so a duplicate of the returned edge stays); what is left came from the heap, and every later event is kept |
| MockEdges.MockEdgeSource.constructor | crates/dg-clock/tests/clock_forward.rs:52-56 | the heap holds exactly the given events in ascending order, and is the given list itself when that list is already ascending |
| MockEdges.MockEdgeSource.IsEmpty | crates/dg-clock/tests/clock_forward.rs:58-60 | reports exactly whether the heap is empty |
| MockEdges.MockEdgeSource.Wait | crates/dg-clock/tests/clock_forward.rs:64-81 | the `wait` loop returns `NextEdge` of the old heap, leaves `AfterWait` of it, and sleeps until the returned event; a future head is returned and only it is popped |
| MockEdges.MockPulseSink.constructor | crates/dg-clock/tests/clock_forward.rs:89-93 | the recorder starts empty |
| MockEdges.MockPulseSink.EmitPulse | crates/dg-clock/tests/clock_forward.rs:96-100 | `emit_pulse` records exactly one pulse (now, duration), then sleeps `duration` |
| MockEdges.ShortlyAfter | crates/dg-clock/tests/clock_forward.rs:28-36 | is exactly the two asserts of `assert_shortly_after`: the pulse starts no earlier than `t` and at most 3 ms after it |
| MockEdges.WaitTakesFutureHead | crates/dg-clock-mult/tests/clock_forward.rs:72-74 | a head event after now is returned and only it is popped |
| MockEdges.WaitDropsPastHead | crates/dg-clock/tests/clock_forward.rs:66-69 | a head event at or before now is popped without being returned |
| MockEdges.InOrderStates | crates/dg-clock/tests/clock_forward.rs:103-115 | on 10, 20 and 30, the waits at 0, 10 and 20 return 10, 20 and 30 and leave an empty heap |
| MockEdges.LateWaitDropsEdge | crates/dg-clock-mult/tests/clock_forward.rs:115-128 | on the heap {20, 30}, a wait at 25 drops 20, returns 30 and leaves the heap empty |
| MockEdges.NewTestSource | crates/dg-clock-mult/tests/clock_forward.rs:101-108 | the mock built from 10, 20 and 30 at time 0 holds exactly those events, in order |
| MockEdges.MockClockInInOrder | crates/dg-clock/tests/clock_forward.rs:103-115 | three waits on the mock built from 10, 20 and 30 return 10, 20 and 30, in that order |
| MockEdges.MockClockInDropsPastEvent | crates/dg-clock/tests/clock_forward.rs:117-130 | a wait returns 10; after a 15 ms sleep the next wait skips 20, returns 30, and the mock is then empty |
| Forward.ForwardTrace | crates/dg-clock/src/lib.rs:8-11 | reads the pulses off the heap: skips every edge at or before the current time, starts a pulse at the next one, and resumes at that pulse's end; never more pulses than edges |
| Forward.ForwardEnd | crates/dg-clock/src/lib.rs:8-11 | the clock's time once the edges run out, read off the heap as the trace is; never before the start time |
| Forward.ForwardEndIsLastPulseEnd | crates/dg-clock/src/lib.rs:8-11 | that time is the end of the last pulse emitted, or the start time when no pulse is emitted |
| Forward.ForwardTraceStep | crates/dg-clock/src/lib.rs:8-11 | one turn of the loop: the trace is empty (and the end time is now) exactly when `wait` stays pending, and otherwise is the pulse at the returned edge followed by the trace of the remaining heap from that pulse's end, with the same end time |
| Forward.ForwardPulsesFromEdges | crates/dg-clock/src/lib.rs:6-10 | there are at most as many pulses as edges, and every pulse has the fixed duration and starts at an edge after the start time |
| Forward.ForwardPulsesShortlyAfterEdges | crates/dg-clock/tests/clock_forward.rs:160-163 | for every heap, each emitted pulse passes `assert_shortly_after` against some edge later than the start time, the check both forwarding tests make on each pulse (also at lines 196-199) |
| Forward.ForwardSequential | crates/dg-clock/src/lib.rs:9-10 | each pulse starts after the previous one has ended, so at most one pulse is in flight |
| Forward.ForwardAccountsForEveryEdge | crates/dg-clock/tests/clock_forward.rs:167-201 | every edge after the start time either starts a pulse or arrives while a pulse is in flight |
| Forward.ForwardWaveformOrdered | crates/dg-clock/src/lib.rs:8-11 | a pin driven by the forwarded pulses has transitions whose time never runs back |
| Forward.ClockForward | crates/dg-clock/src/lib.rs:3-12 | the wait-then-emit loop records exactly `ForwardTrace` of the initial heap and time, ends with every event popped, and leaves the clock at `ForwardEnd`, the end of the last pulse |
| Forward.ForwardTwoEdges | crates/dg-clock/tests/clock_forward.rs:132-165 | edges at 10 and 20 with 5 ms pulses give exactly two 5 ms pulses, each within 3 ms after its edge |
| Forward.ForwardDropsPulse | crates/dg-clock-mult/tests/clock_forward.rs:165-199 | edges at 10, 20 and 30 with 15 ms pulses give exactly two pulses, at 10 and 30 |
| Forward.ClockForwardDropsPulse | crates/dg-clock/tests/clock_forward.rs:167-201 | running the forwarding loop itself on edges 10, 20 and 30 with 15 ms pulses records exactly the pulses at 10 and 30, and drains the mock |
| Noise.Rng.constructor | crates/dg-noise/src/lib.rs:15-17 | a fresh generator has drawn nothing from its stream |
| Noise.Rng.NextU64 | crates/dg-noise/src/lib.rs:34 | each draw returns the next element of the stream and advances it by exactly one |
| Noise.WhiteSample | crates/dg-noise/src/lib.rs:34 | the sample is the middle 16-bit field of the draw: draw = high·2^32 + sample·2^16 + low |
| Noise.WhiteSampleIsBits16To31 | crates/dg-noise/src/lib.rs:33-35 | any split of the draw into a high part, a 16-bit middle and a 16-bit low part has the sample as its middle |
| Noise.WhiteNoise.constructor | crates/dg-noise/src/lib.rs:27-29 | `new` wraps the RNG without drawing from it |
| Noise.WhiteNoise.Sample | crates/dg-noise/src/lib.rs:33-35 | each white sample takes exactly one draw, bits 16..31 of it, and changes nothing else |
| Noise.Signed | crates/dg-noise/src/lib.rs:66 | the white sample maps into [-1, 1), negative exactly below 32768 |
| Noise.SignedInjective | crates/dg-noise/src/lib.rs:66 | the conversion is strictly increasing, so it loses nothing |
| Noise.Quantize | crates/dg-noise/src/lib.rs:79-80 | the output is the truncation of the shaped value inside [0, 65535], 0 below it and 65535 above |
| Noise.QuantizeMonotone | crates/dg-noise/src/lib.rs:80 | clamping and truncation keep the order of the shaped values |
| Noise.RedNoise.constructor | crates/dg-noise/src/lib.rs:54-60 | the accumulator starts at zero, the sample rate is stored, and no draw happens |
| Noise.RedNoise.Sample | crates/dg-noise/src/lib.rs:64-81 | each red sample takes exactly one white sample and one draw, updates the accumulator once, and outputs the quantized shape of the new accumulator; the sample rate never changes |

## Left out

- Hardware and runtime.
  - The ADC read, the SPI expander driver and the embassy `Output`/`ExtiInput`
    adapters (`clocks.rs`, `gates.rs`, `clock_in.rs`) are left out.
  - The ADC sample is a parameter; the driver is the log of calls it receives.
  - The embassy executor, `select`, `join` and the `Channel` internals are left
    out: the model is sequential, with a logical clock.
- Float parameter mapping: `AdcFloatParameter::get` and its `log10f`/`powf`
  scaling are single-precision libm numerics. Only the constructor's
  validation is modelled, with `log10` a parameter.
- Red-noise arithmetic: the square root, the leak factor and the `tanh` soft
  clip are double-precision numerics.
  - They are the `step` and `shape` functions given at construction.
  - NaN and infinities (a sample rate of 0) are not represented.
- Params.NewFloatParam: the f32 bounds are real numbers; NaN and infinite
  bounds are not represented (a NaN bound fails `min <= max` in Rust too, and
  the contract states the reason through that comparison).
- Noise.Quantize: the cast of a NaN to 0 is not modelled, because values are
  real numbers.
- `SmallRng` and its seeding come from the `rand` crate: the RNG is an
  abstract stream of 64-bit draws.
- The test harness's 50 ms horizon (`end_fut`) is left out: every pulse in the
  two forwarding tests starts before 50 ms, so it cuts nothing.
- Forward.ClockForward: the Rust loop never returns. The model ends the loop
  when `wait` becomes pending for good, which is the last observable event.
- ClockOut.PinPair.EmitPulse and ClockOut.PinTriple.EmitPulse: the members
  are pins. The Rust impls accept any `ClockOut`, nested tuples included.
- Fhx handles take the bus as an argument instead of reaching a static
  channel.
  - The `DynamicSender` is that reference.
  - A send on a full channel suspends the sender. The model requires room
    instead, as the suspended sender resumes only after a worker step.
- `FhxSetMessage::CvPolarity` is dispatched, but no handle in the source sends
  it.
- ClockOut.Pin.SetHigh and ClockOut.Pin.SetLow: the `unwrap` error path is not
  modelled. The embassy output pins used here cannot fail, so a failing pin
  would panic with no recovery.
- Logging (`info!`) is left out.
- `clock_train` and the free-running clock are left out: their bodies are not
  part of this model.
- The constructor's panic message says "min must be less than max", but the
  check is `min <= max`. `Params.NewIntParam` follows the check, so equal
  bounds are accepted.
- Durations are whole milliseconds and instants are integers relative to the
  start of a test.

## Findings

| source | as written | input that shows it | evidently intended | confidence | as-written member | corrected member |
|---|---|---|---|---|---|---|
| crates/daisy-garden/src/params.rs:51-57 | the corrected reading of `raw = 0` is 65536, a whole range of buckets, so `get` returns `max + 1` | any `min <= max` with `raw = 0` (the pot at its end stop), e.g. min 0, max 9 gives 10 | every pot position lands in [min, max], as the bucket diagram at lines 36-43 shows | not executed | Params.GetAtEndStop | Params.GetIntendedInRange |
