/** The accelerometer and the magnetometer are ring drivers of the kind the poller relies on. */
module DriverRefinement {
  import opened InputEvents
  import opened Stream
  import opened PollContext
  import A = Acceleration
  import M = Magnetic
  import AccelerationPacket

  // ---- The accelerometer ----

  /** Its reference decoder, started where the history `past` left off. */
  function DecodeFrom(s: A.State, past: seq<A.Item>, clock: nat -> int): seq<InputEvent> -> seq<SensorEvent> {
    (es: seq<InputEvent>) => A.Decode(A.Decode(s, past, clock).state, AccelerationPacket.Inputs(es), clock).out
  }

  lemma {:induction false} DecodeGrows(s: A.State, past: seq<A.Item>, clock: nat -> int)
    ensures Growing(DecodeFrom(s, past, clock))
  {
    var s' := A.Decode(s, past, clock).state;
    forall a, b | a <= b ensures DecodeFrom(s, past, clock)(a) <= DecodeFrom(s, past, clock)(b) {
      var more := AccelerationPacket.Inputs(b[|a|..]);
      assert AccelerationPacket.Inputs(b) == AccelerationPacket.Inputs(a) + more;
      RunConcat(A.Step(clock), s', AccelerationPacket.Inputs(a), more);
    }
  }

  lemma {:induction false} EventsConcat(a: seq<A.Item>, b: seq<A.Item>)
    ensures A.Events(a + b) == A.Events(a) + A.Events(b)
  {
    if b == [] {
      assert a + b == a;
    } else {
      var n := |b| - 1;
      EventsConcat(a, b[..n]);
      assert (a + b)[..|a| + n] == a + b[..n];
      Associate(A.Events(a), A.Events(b[..n]), if b[n].Input? then [b[n].e] else []);
    }
  }

  lemma {:induction false} InputsOfEvents(items: seq<A.Item>)
    requires forall i :: 0 <= i < |items| ==> items[i].Input?
    ensures AccelerationPacket.Inputs(A.Events(items)) == items
  {
    if items != [] {
      var n := |items| - 1;
      InputsOfEvents(items[..n]);
      assert items == items[..n] + [items[n]];
    }
  }

  /** Sensor `s`, watched since its history was `past`, is the driver `d`. */
  ghost predicate IsAcceleration(s: A.AccelerationSensor, past: seq<A.Item>, d: Driver)
    reads s, s.ring, s.ring.buffer
  {
    && s.Valid() && A.OnlyInputSince(past, s.history)
    && d.capacity == s.ring.capacity && d.ring == s.ring.Contents()
    && A.Events(past) + d.arrived == s.ring.arrived
    && A.Decode(s.initial, past, s.clock).out + d.emitted == s.emitted
    && d.decode == DecodeFrom(s.initial, past, s.clock)
  }

  /** Since `past`, the output is the decoder's over the events consumed since. */
  lemma {:induction false} TailDecodes(s: A.State, past: seq<A.Item>, history: seq<A.Item>,
        clock: nat -> int) returns (consumed: seq<InputEvent>)
    requires A.OnlyInputSince(past, history)
    ensures A.Events(history) == A.Events(past) + consumed
    ensures A.Decode(s, history, clock).out == A.Decode(s, past, clock).out + DecodeFrom(s, past, clock)(consumed)
  {
    var tail := history[|past|..];
    consumed := A.Events(tail);
    assert history == past + tail;
    EventsConcat(past, tail);
    InputsOfEvents(tail);
    RunConcat(A.Step(clock), s, past, tail);
  }

  lemma {:induction false} Cancel<T>(a: seq<T>, b: seq<T>, c: seq<T>)
    requires a + b == a + c
    ensures b == c
  {
    assert b == (a + b)[|a|..];
    assert c == (a + c)[|a|..];
  }

  lemma {:induction false} FaithfulSoFar(d: Driver, consumed: seq<InputEvent>)
    requires Growing(d.decode) && |d.ring| <= d.capacity
    requires d.arrived == consumed + d.ring && d.emitted == d.decode(consumed)
    ensures Faithful(d)
  {
    assert consumed <= d.arrived;
    if d.ring == [] {
      assert d.arrived == consumed;
    }
  }

  /** Chunking independence, as the poller sees it. */
  lemma {:induction false} AccelerationIsFaithful(s: A.AccelerationSensor, past: seq<A.Item>, d: Driver)
    requires IsAcceleration(s, past, d)
    ensures Faithful(d)
  {
    var consumed := TailDecodes(s.initial, past, s.history, s.clock);
    Associate(A.Events(past), consumed, d.ring);
    Cancel(A.Events(past), d.arrived, consumed + d.ring);
    Cancel(A.Decode(s.initial, past, s.clock).out, d.emitted, d.decode(consumed));
    DecodeGrows(s.initial, past, s.clock);
    FaithfulSoFar(d, consumed);
  }

  /** Any sensor with an empty ring, whatever happened to it before, can be taken over as a driver that put out nothing yet. */
  lemma {:induction false} TakeOverAcceleration(s: A.AccelerationSensor, kernel: seq<InputEvent>)
    requires s.Valid() && s.ring.Contents() == []
    ensures var decode := DecodeFrom(s.initial, s.history, s.clock);
            IsAcceleration(s, s.history, Driver(s.ring.capacity, kernel, [], [], [], decode))
  {
    assert s.ring.arrived == s.ring.consumed + [] == s.ring.consumed;
    assert A.Events(s.history) + [] == A.Events(s.history);
    assert s.emitted + [] == s.emitted;
  }

  lemma {:induction false} EventsGrow(a: seq<A.Item>, b: seq<A.Item>)
    requires a <= b
    ensures A.Events(a) <= A.Events(b)
  {
    EventsConcat(a, b[|a|..]);
    assert a + b[|a|..] == b;
  }

  /** A driver that consumed more of the same events, and stayed faithful, took a turn. */
  lemma {:induction false} TurnMade(before: Driver, after: Driver, took: nat, consumed: seq<InputEvent>,
        more: seq<InputEvent>,
      count: nat, data: seq<SensorEvent>)
    requires took <= |before.kernel| && after.kernel == before.kernel[took..]
    requires after.capacity == before.capacity && after.decode == before.decode
    requires after.arrived == before.arrived + before.kernel[..took] && after.emitted == before.emitted + data
    requires consumed <= more && consumed + (before.ring + before.kernel[..took]) == more + after.ring
    requires Faithful(after) && SpendsExactly(count, data, after.ring)
    ensures Turn(before, after, count, data)
  {
    var queue, used := before.ring + before.kernel[..took], |more| - |consumed|;
    assert (consumed + queue)[|more|..] == after.ring;
    assert after.ring == queue[used..];
    assert Reads(before, after, took, used, count, data);
  }

  /** A read of the real sensor is a turn of the driver. */
  method ReadAcceleration(s: A.AccelerationSensor, ghost past: seq<A.Item>, ghost before: Driver,
      kernel: seq<InputEvent>, took: nat, count: nat)
    returns (data: seq<SensorEvent>, ghost after: Driver)
    requires IsAcceleration(s, past, before) && before.kernel == kernel && took <= |kernel| && took <= s.ring.free
            && count > 0
    modifies s`pending, s`flag, s`ticks, s`history, s`emitted, s.ring, s.ring.buffer
    ensures IsAcceleration(s, past, after) && after.kernel == kernel[took..] && Turn(before, after, count, data)
  {
    ghost var consumed := s.ring.consumed;
    var r;
    r, data := s.ReadEvents(Delivered(kernel[..took]), count);
    after := Driver(before.capacity, kernel[took..], s.ring.Contents(), before.arrived + kernel[..took],
                    before.emitted + data, before.decode);
    Associate(A.Events(past), before.arrived, kernel[..took]);
    Associate(A.Decode(s.initial, past, s.clock).out, before.emitted, data);
    AccelerationIsFaithful(s, past, after);
    EventsGrow(old(s.history), s.history);
    Associate(consumed, before.ring, kernel[..took]);
    TurnMade(before, after, took, consumed, s.ring.consumed, count, data);
  }

  // ---- The magnetometer ----

  function DecodeMagnetic(origin: M.Slots): seq<InputEvent> -> seq<SensorEvent> {
    (es: seq<InputEvent>) => Run(M.Step(), origin, es).out
  }

  lemma {:induction false} MagneticGrows(origin: M.Slots)
    ensures Growing(DecodeMagnetic(origin))
  {
    forall a, b | a <= b ensures DecodeMagnetic(origin)(a) <= DecodeMagnetic(origin)(b) {
      assert a + b[|a|..] == b;
      RunConcat(M.Step(), origin, a, b[|a|..]);
    }
  }

  /** Driver `d` is sensor `s` since it was last switched. */
  ghost predicate IsMagnetic(s: M.MagneticSensor, d: Driver)
    reads s, s.ring, s.ring.buffer
  {
    && s.Valid()
    && d.capacity == s.ring.capacity && d.ring == s.ring.Contents()
    && s.ring.consumed[..s.base] + d.arrived == s.ring.arrived
    && d.emitted == s.emitted && d.decode == DecodeMagnetic(s.origin)
  }

  /** A sensor just switched, with an empty ring, can be taken over. */
  lemma {:induction false} TakeOverMagnetic(s: M.MagneticSensor, kernel: seq<InputEvent>)
    requires s.Valid() && s.ring.Contents() == [] && s.base == |s.ring.consumed| && s.emitted == []
    ensures IsMagnetic(s, Driver(s.ring.capacity, kernel, [], [], [], DecodeMagnetic(s.origin)))
  {
    assert s.ring.consumed[..s.base] + [] == s.ring.consumed;
    assert s.ring.arrived == s.ring.consumed + [] == s.ring.consumed;
  }

  lemma {:induction false} PrefixNext(past: seq<InputEvent>, q: seq<InputEvent>)
    requires q != []
    ensures past + [q[0]] <= past + q
  {
  }

  lemma {:induction false} FaithfulOnTrack(origin: M.Slots, past: seq<InputEvent>, now: M.Slots, d: Driver)
    requires M.OnTrack(origin, past, d.ring, now, d.emitted) && d.decode == DecodeMagnetic(origin)
    requires |d.ring| <= d.capacity && d.arrived == past + d.ring
    ensures Faithful(d)
  {
    MagneticGrows(origin);
    if M.AtSyn(d.ring) {
      var next := past + [d.ring[0]];
      PrefixNext(past, d.ring);
      assert d.emitted <= d.decode(next) <= d.decode(d.arrived);
    } else {
      FaithfulSoFar(d, past);
    }
  }

  lemma {:induction false} SinceSwitch(consumed: seq<InputEvent>, base: nat, q: seq<InputEvent>,
        arrived: seq<InputEvent>)
    requires base <= |consumed| && consumed[..base] + arrived == consumed + q
    ensures arrived == consumed[base..] + q
  {
    assert consumed == consumed[..base] + consumed[base..];
    Associate(consumed[..base], consumed[base..], q);
    Cancel(consumed[..base], arrived, consumed[base..] + q);
  }

  /** Resumption, as the poller sees it. */
  lemma {:induction false} MagneticIsFaithful(s: M.MagneticSensor, d: Driver)
    requires IsMagnetic(s, d)
    ensures Faithful(d)
  {
    SinceSwitch(s.ring.consumed, s.base, d.ring, d.arrived);
    FaithfulOnTrack(s.origin, s.ring.consumed[s.base..], s.slots, d);
  }

  /** A read of the real sensor is a turn of the driver, even when the budget cuts a report in two. */
  method ReadMagnetic(s: M.MagneticSensor, ghost before: Driver, kernel: seq<InputEvent>, took: nat, count: nat)
    returns (data: seq<SensorEvent>, ghost after: Driver)
    requires IsMagnetic(s, before) && before.kernel == kernel && took <= |kernel| && took <= s.ring.free && count > 0
    modifies s`slots, s`emitted, s.ring, s.ring.buffer
    ensures IsMagnetic(s, after) && after.kernel == kernel[took..] && Turn(before, after, count, data)
  {
    ghost var consumed := s.ring.consumed;
    var r;
    r, data := s.ReadEvents(Delivered(kernel[..took]), count);
    after := Driver(before.capacity, kernel[took..], s.ring.Contents(), before.arrived + kernel[..took],
                    before.emitted + data, before.decode);
    assert s.ring.consumed[..s.base] == consumed[..s.base];
    Associate(consumed[..s.base], before.arrived, kernel[..took]);
    MagneticIsFaithful(s, after);
    Associate(consumed, before.ring, kernel[..took]);
    TurnMade(before, after, took, consumed, s.ring.consumed, count, data);
  }
}
