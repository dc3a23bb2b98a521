/** The deterministic test doubles of the clock-forwarding tests
    (crates/dg-clock/tests/clock_forward.rs, and its verbatim twin under the
    Gate names in crates/dg-clock-mult/tests/clock_forward.rs).

    `MockClockIn` holds its future edge times in a min-heap
    (`BinaryHeap<Reverse<Instant>>`); the heap is modelled by the ascending
    sequence of its elements, which is the order `pop` returns them in.
    `MockClockOut` records one pulse per `emit_pulse`. */
module MockEdges {
  import opened Signals

  datatype Option<T> = None | Some(value: T)

  predicate Sorted(s: seq<int>)
  {
    forall i, j :: 0 <= i < j < |s| ==> s[i] <= s[j]
  }

  /** The least element of an ascending sequence comes first. */
  lemma SortedHeadIsLeast(s: seq<int>, x: int)
    requires Sorted(s) && x in s
    ensures s[0] <= x
  {
    var j :| 0 <= j < |s| && s[j] == x;
  }

  /** Putting an element no larger than the head in front keeps a sequence
      ascending. */
  lemma SortedCons(h: int, t: seq<int>)
    requires Sorted(t) && (t == [] || h <= t[0])
    ensures Sorted([h] + t)
  {
  }

  /** Popping the head of an ascending sequence leaves it ascending. */
  lemma SortedTail(s: seq<int>)
    requires Sorted(s) && s != []
    ensures Sorted(s[1..])
  {
  }

  /** Inserting one event into the ascending view of the heap. */
  function Push(s: seq<int>, x: int): (r: seq<int>)
    requires Sorted(s)
    ensures Sorted(r) && multiset(r) == multiset(s) + multiset{x}
    ensures |r| == |s| + 1
    ensures r[0] == if s == [] || x <= s[0] then x else s[0]
  {
    if s == [] || x <= s[0] then
      SortedCons(x, s);
      [x] + s
    else
      SortedTail(s);
      var tail := Push(s[1..], x);
      PushBehindHead(s, x, tail);
      [s[0]] + tail
  }

  /** The step of `Push` past a head smaller than `x`: the head stays in
      front of the pushed tail. */
  lemma PushBehindHead(s: seq<int>, x: int, tail: seq<int>)
    requires Sorted(s) && s != [] && s[0] < x
    requires Sorted(tail) && multiset(tail) == multiset(s[1..]) + multiset{x}
    requires tail != [] && (tail[0] == x || (|s| > 1 && tail[0] == s[1]))
    ensures Sorted([s[0]] + tail) && multiset([s[0]] + tail) == multiset(s) + multiset{x}
  {
    SortedCons(s[0], tail);
    assert s == [s[0]] + s[1..];
  }

  /** `events.into_iter().map(Reverse).collect()`: the heap built from the
      events (Rust heapifies them in one go); modelled by inserting them one
      at a time, which gives the same ascending view whatever the order. */
  function Collect(events: seq<int>): (r: seq<int>)
    ensures Sorted(r) && multiset(r) == multiset(events)
  {
    if events == [] then []
    else
      var last := |events| - 1;
      assert events == events[..last] + [events[last]];
      Push(Collect(events[..last]), events[last])
  }

  /** An ascending sequence is determined by its elements. */
  lemma {:induction false} SortedUnique(a: seq<int>, b: seq<int>)
    requires Sorted(a) && Sorted(b) && multiset(a) == multiset(b)
    ensures a == b
  {
    if a == [] {
      assert |b| == |multiset(b)| == 0;
    } else {
      assert |b| == |multiset(b)| == |multiset(a)| == |a|;
      assert a[0] in multiset(b) && b[0] in multiset(a);
      SortedHeadIsLeast(a, b[0]);
      SortedHeadIsLeast(b, a[0]);
      assert a[0] == b[0];
      MultisetTail(a);
      MultisetTail(b);
      SortedUnique(a[1..], b[1..]);
    }
  }

  lemma MultisetTail(s: seq<int>)
    requires s != []
    ensures multiset(s[1..]) == multiset(s) - multiset{s[0]}
  {
    assert s == [s[0]] + s[1..];
  }

  /** Building the heap from any rearrangement of the events gives the same
      heap. */
  lemma CollectOrderIndependent(e1: seq<int>, e2: seq<int>)
    requires multiset(e1) == multiset(e2)
    ensures Collect(e1) == Collect(e2)
  {
    SortedUnique(Collect(e1), Collect(e2));
  }

  /** The `while let` loop of `wait`: the number of events it pops, those at
      or before `now` at the front of the heap (an event exactly at `now` is
      dropped too). */
  function PastCount(s: seq<int>, now: int): (k: nat)
    ensures k <= |s|
    ensures k < |s| ==> s[k] > now
  {
    if s != [] && s[0] <= now then 1 + PastCount(s[1..], now) else 0
  }

  /** Every event the loop pops is at or before `now`. */
  lemma {:induction false} PastCountPrefix(s: seq<int>, now: int)
    ensures forall i :: 0 <= i < PastCount(s, now) ==> s[i] <= now
  {
    if s != [] && s[0] <= now {
      PastCountPrefix(s[1..], now);
      assert forall i :: 1 <= i < PastCount(s, now) ==> s[i] == s[1..][i - 1];
    }
  }

  /** What `wait` returns when called at `now`: the head of the heap once
      the past events are popped, or `None` when nothing is left and `wait`
      never returns. */
  function NextEdge(s: seq<int>, now: int): (t: Option<int>)
    ensures t.Some? ==> t.value > now
  {
    var k := PastCount(s, now);
    if k == |s| then None else Some(s[k])
  }

  /** The heap after `wait` at `now`: the events left once the past ones
      and the returned one are popped. */
  function AfterWait(s: seq<int>, now: int): (r: seq<int>)
    ensures NextEdge(s, now).None? ==> r == []
    ensures NextEdge(s, now).Some? ==> |r| < |s|
  {
    var k := PastCount(s, now);
    if k == |s| then [] else s[k + 1..]
  }

  /** On the heap, `wait` returns the earliest event strictly after `now`,
      and never returns exactly when no event is later than `now`. */
  lemma NextEdgeIsEarliestFuture(s: seq<int>, now: int)
    requires Sorted(s)
    ensures NextEdge(s, now).None? <==> forall x :: x in s ==> x <= now
    ensures NextEdge(s, now).Some? ==> NextEdge(s, now).value in s
    ensures NextEdge(s, now).Some? ==> forall x :: x in s && x > now ==> NextEdge(s, now).value <= x
  {
    var k := PastCount(s, now);
    PastCountPrefix(s, now);
    if k == |s| {
      forall x | x in s ensures x <= now {
        var j :| 0 <= j < |s| && s[j] == x;
      }
    } else {
      assert s[k] in s;
      forall x | x in s && x > now ensures s[k] <= x {
        var j :| 0 <= j < |s| && s[j] == x;
        assert j >= k;
      }
    }
  }

  /** Every suffix of an ascending sequence is ascending. */
  lemma SortedDrop(s: seq<int>, n: nat)
    requires Sorted(s) && n <= |s|
    ensures Sorted(s[n..])
  {
    forall i, j | 0 <= i < j < |s| - n
      ensures s[n..][i] <= s[n..][j]
    {
      assert s[n..][i] == s[n + i] && s[n..][j] == s[n + j];
    }
  }

  /** The heap stays a heap: what `wait` leaves is still ascending. */
  lemma AfterWaitSorted(s: seq<int>, now: int)
    requires Sorted(s)
    ensures Sorted(AfterWait(s, now))
  {
    var k := PastCount(s, now);
    if k < |s| {
      SortedDrop(s, k + 1);
    }
  }

  /** `wait` loses exactly the events up to the one it returns: the heap is
      the dropped past events, then the returned edge, then what is left
      (so a duplicate of the returned edge stays behind); everything left is
      an event no earlier than the returned one, and every event later than
      the returned one is left. */
  lemma AfterWaitContents(s: seq<int>, now: int, x: int)
    requires Sorted(s) && NextEdge(s, now).Some?
    ensures s == s[..PastCount(s, now)] + [NextEdge(s, now).value] + AfterWait(s, now)
    ensures x in AfterWait(s, now) ==> x in s && x >= NextEdge(s, now).value
    ensures x in s && x > NextEdge(s, now).value ==> x in AfterWait(s, now)
  {
    var k := PastCount(s, now);
    assert NextEdge(s, now).value == s[k] && AfterWait(s, now) == s[k + 1..];
    SplitAt(s, k);
    if x in s[k + 1..] {
      AfterIsNotSmaller(s, k, x);
    }
    if x in s && x > s[k] {
      LargerIsAfter(s, k, x);
    }
  }

  /** A sequence around position `k`: the part before it, the element, and
      the part after it. */
  lemma SplitAt(s: seq<int>, k: nat)
    requires k < |s|
    ensures s == s[..k] + [s[k]] + s[k + 1..]
  {
    assert s == s[..k] + s[k..] && s[k..] == [s[k]] + s[k + 1..];
  }

  /** In an ascending sequence, the part after position `k` holds only
      values no smaller than `s[k]` ... */
  lemma AfterIsNotSmaller(s: seq<int>, k: nat, x: int)
    requires Sorted(s) && k < |s| && x in s[k + 1..]
    ensures x in s && x >= s[k]
  {
    var j :| 0 <= j < |s| - k - 1 && s[k + 1..][j] == x;
    assert s[k + 1 + j] == x;
  }

  /** ... and every value larger than `s[k]`. */
  lemma LargerIsAfter(s: seq<int>, k: nat, x: int)
    requires Sorted(s) && k < |s| && x in s && x > s[k]
    ensures x in s[k + 1..]
  {
    assert forall i :: 0 <= i <= k ==> s[i] <= s[k];
    var j :| 0 <= j < |s| && s[j] == x;
    assert s[k + 1..][j - k - 1] == x;
  }

  /** `MockClockIn` / `MockGateIn`. */
  class MockEdgeSource {
    var events: seq<int>

    ghost predicate Valid()
      reads this
    {
      Sorted(events)
    }

    /** `MockClockIn::new`: builds the heap from the given event times; it
        pops them in ascending order whatever order they came in. */
    constructor (events: seq<int>)
      ensures Valid() && multiset(this.events) == multiset(events)
      ensures Sorted(events) ==> this.events == events
    {
      this.events := Collect(events);
      new;
      if Sorted(events) {
        SortedUnique(this.events, events);
      }
    }

    /** `MockClockIn::is_empty`. */
    method IsEmpty() returns (empty: bool)
      ensures empty <==> events == []
    {
      empty := events == [];
    }

    /** `MockClockIn::wait`: drop the past events, pop the earliest remaining
        one and sleep until it (`Timer::at`). `None` stands for the
        `pending()` future: with no event left it never returns. */
    method Wait(clock: Clock) returns (edge: Option<int>)
      requires Valid()
      modifies this, clock
      ensures Valid()
      ensures edge == NextEdge(old(events), old(clock.now))
      ensures events == AfterWait(old(events), old(clock.now))
      ensures clock.now == if edge.Some? then edge.value else old(clock.now)
      ensures old(events) != [] && old(events)[0] > old(clock.now) ==>
        edge == Some(old(events)[0]) && events == old(events)[1..]
    {
      var now := clock.now;
      ghost var popped := 0;
      while events != [] && events[0] <= now
        invariant Sorted(events)
        invariant popped + PastCount(events, now) == PastCount(old(events), now)
        invariant popped <= |old(events)| && events == old(events)[popped..]
        invariant clock.now == now
        decreases |events|
      {
        events := events[1..];
        popped := popped + 1;
      }
      if events != [] {
        edge := Some(events[0]);
        events := events[1..];
        clock.now := edge.value;
      } else {
        edge := None;
      }
    }
  }

  /** `MockClockOut` / `MockGateOut`: the vector of recorded pulses. */
  class MockPulseSink {
    var pulses: seq<Pulse>

    constructor ()
      ensures pulses == []
    {
      pulses := [];
    }

    /** `MockClockOut::emit_pulse`: record `(now, duration)`, then sleep
        `duration`. */
    method EmitPulse(clock: Clock, duration: nat)
      modifies this, clock
      ensures pulses == old(pulses) + [Pulse(old(clock.now), duration)]
      ensures clock.now == old(clock.now) + duration
    {
      pulses := pulses + [Pulse(clock.now, duration)];
      clock.Sleep(duration);
    }
  }

  /** `Pulse::assert_shortly_after`: both of its asserts pass, the first
      (the pulse is not before `t`) and the second (it is at most 3 ms
      after `t`). */
  predicate ShortlyAfter(p: Pulse, t: int)
  {
    t <= p.time <= t + 3
  }

  /** A head event after `now` is the one `wait` returns, and only it is
      popped. */
  lemma WaitTakesFutureHead(s: seq<int>, now: int)
    requires s != [] && s[0] > now
    ensures NextEdge(s, now) == Some(s[0]) && AfterWait(s, now) == s[1..]
  {
  }

  /** A head event at or before `now` is dropped without being returned. */
  lemma WaitDropsPastHead(s: seq<int>, now: int)
    requires s != [] && s[0] <= now
    ensures NextEdge(s, now) == NextEdge(s[1..], now)
    ensures AfterWait(s, now) == AfterWait(s[1..], now)
  {
    var k := PastCount(s, now);
    if k < |s| {
      assert s[1..][k - 1] == s[k];
      assert s[1..][k..] == s[k + 1..];
    }
  }

  /** The heap states of `test_mock_clock_in`: built from 10, 20 and 30,
      waited on at 0, 10 and 20. */
  lemma InOrderStates()
    ensures NextEdge([10, 20, 30], 0) == Some(10) && AfterWait([10, 20, 30], 0) == [20, 30]
    ensures NextEdge([20, 30], 10) == Some(20) && AfterWait([20, 30], 10) == [30]
    ensures NextEdge([30], 20) == Some(30) && AfterWait([30], 20) == []
  {
    WaitTakesFutureHead([10, 20, 30], 0);
    WaitTakesFutureHead([20, 30], 10);
    WaitTakesFutureHead([30], 20);
  }

  /** The second wait of `test_mock_clock_in_drops_past_event`: called at
      25 on the heap {20, 30}, it drops 20, returns 30 and empties the heap. */
  lemma LateWaitDropsEdge()
    ensures NextEdge([20, 30], 25) == Some(30) && AfterWait([20, 30], 25) == []
  {
    WaitDropsPastHead([20, 30], 25);
    assert [20, 30][1..] == [30];
    WaitTakesFutureHead([30], 25);
  }

  /** `MockClockIn::new(vec![10, 20, 30])` at time 0: the state both mock
      tests start from. */
  method NewTestSource() returns (source: MockEdgeSource, clock: Clock)
    ensures fresh(source) && fresh(clock)
    ensures source.events == [10, 20, 30] && clock.now == 0
  {
    clock := new Clock(0);
    source := new MockEdgeSource([10, 20, 30]);
    assert Sorted([10, 20, 30]);
  }

  /** `test_mock_clock_in`: the three events come back in order. */
  method MockClockInInOrder() returns (first: Option<int>, second: Option<int>, third: Option<int>)
    ensures first == Some(10) && second == Some(20) && third == Some(30)
  {
    var source, clock := NewTestSource();
    first := source.Wait(clock);
    second := source.Wait(clock);
    third := source.Wait(clock);
  }

  /** `test_mock_clock_in_drops_past_event`: after 10 and a sleep to 25, the
      edge at 20 is lost, 30 comes back and the heap is empty. */
  method MockClockInDropsPastEvent() returns (first: Option<int>, second: Option<int>, empty: bool)
    ensures first == Some(10) && second == Some(30) && empty
  {
    var source, clock := NewTestSource();
    first := source.Wait(clock);
    clock.Sleep(15);
    second := source.Wait(clock);
    assert second == Some(30) && source.events == [] by {
      LateWaitDropsEdge();
    }
    empty := source.IsEmpty();
  }
}
