/** The magnetometer's decoder: two sensors multiplexed over one input device, with SYN reports that may be cut short. */
module Magnetic {
  import opened InputEvents
  import opened EventRing
  import opened PacketTimestamp
  import opened Stream

  const RESTART := 0
  const ALL_COMPLETE := 7

  // Slot numbers double as the HAL's sensor ids, shifted by ID_MAGNETIC.
  const MAGNETIC_FIELD := 0
  const ORIENTATION := 1
  const ID_MAGNETIC := 1
  const ID_ORIENTATION := 2

  /** The slot a handle switches; any handle but the orientation's goes to the field. */
  function SlotOf(handle: int): int { if handle == ID_ORIENTATION then ORIENTATION else MAGNETIC_FIELD }

  /** One multiplexed sensor: its bit of mPendingMask, its pending event, its completeness flag and its settling time. */
  datatype Slot = Slot(due: bool, sample: Sample, flag: int, enabledTime: int, div: int)
  /** The driver's two-element arrays, indexed by slot number. */
  datatype Slots = Slots(field: Slot, orientation: Slot) {
    function At(j: int): Slot { if j == MAGNETIC_FIELD then field else orientation }
    function With(j: int, s: Slot): Slots {
      if j == MAGNETIC_FIELD then this.(field := s) else this.(orientation := s)
    }
    predicate Idle() { !field.due && !orientation.due }
  }

  /** The slots of a driver as it is made, with the two sensors' divisors. */
  function Fresh(divM: int, divO: int): (s: Slots) {
    Slots(Slot(false, Blank(divM), RESTART, 0, divM), Slot(false, Blank(divO), RESTART, 0, divO))
  }

  /** What an event code means: which slot it belongs to and which of its fields it carries. */
  datatype Field = X | Y | Z | Status | Update | Hi | Lo
  datatype Meaning = Unknown | Of(slot: int, field: Field)

  function AbsMeaning(code: int): Meaning {
    if code == ABS_WHEEL then Of(MAGNETIC_FIELD, Status)
    else if code == ABS_X then Of(MAGNETIC_FIELD, X)
    else if code == ABS_Y then Of(MAGNETIC_FIELD, Y)
    else if code == ABS_Z then Of(MAGNETIC_FIELD, Z)
    else if code == ABS_THROTTLE then Of(ORIENTATION, Status)
    else if code == ABS_RX then Of(ORIENTATION, X)
    else if code == ABS_RY then Of(ORIENTATION, Y)
    else if code == ABS_RZ then Of(ORIENTATION, Z)
    else Unknown
  }

  function RelMeaning(code: int): Meaning {
    if code == REL_X then Of(MAGNETIC_FIELD, Update)
    else if code == REL_HWHEEL then Of(MAGNETIC_FIELD, Hi)
    else if code == REL_DIAL then Of(MAGNETIC_FIELD, Lo)
    else if code == REL_RX then Of(ORIENTATION, Update)
    else if code == REL_WHEEL then Of(ORIENTATION, Hi)
    else if code == REL_MISC then Of(ORIENTATION, Lo)
    else Unknown
  }

  /** Only data fields and UPDATE mark a slot due; timestamp halves do not. */
  function Store(s: Slot, f: Field, v: int): Slot {
    var p := s.sample;
    match f
    case X => s.(due := true, sample := p.(x := Quotient(v, s.div)), flag := 1)
    case Y => s.(due := true, sample := p.(y := Quotient(v, s.div)), flag := 2)
    case Z => s.(due := true, sample := p.(z := Quotient(v, s.div)), flag := 3)
    case Status => s.(due := true, sample := p.(status := v), flag := 4)
    case Update => s.(due := true)
    case Hi => s.(sample := p.(timestamp := MergeHi(p.timestamp, v)), flag := 6)
    case Lo => s.(sample := p.(timestamp := MergeLo(p.timestamp, v)), flag := 7)
  }

  function OnField(s: Slots, e: InputEvent): Slots {
    var m := if e.kind == EV_ABS then AbsMeaning(e.code) else RelMeaning(e.code);
    if m.Unknown? then s else s.With(m.slot, Store(s.At(m.slot), m.field, e.value))
  }

  /** A slot's turn in a SYN report. */
  function Turn(s: Slot, j: int): Outcome<Slot, SensorEvent> {
    if !s.due then Outcome(s, [])
    else if s.flag != ALL_COMPLETE then Outcome(s.(due := false), [])
    else if s.sample.timestamp > s.enabledTime then
      Outcome(s.(due := false, flag := RESTART, sample := s.sample.(timestamp := 0)), [Reading(ID_MAGNETIC + j, s.sample)])
    else Outcome(s.(due := false, flag := RESTART), [])
  }

  /** A SYN report with an unlimited budget: both slots take their turn. */
  function OnSyn(s: Slots): Outcome<Slots, SensorEvent> {
    var a, b := Turn(s.field, MAGNETIC_FIELD), Turn(s.orientation, ORIENTATION);
    Outcome(Slots(a.state, b.state), a.out + b.out)
  }

  /** The reference decoder: one event at a time, unlimited budget. */
  function Step(): (Slots, InputEvent) -> Outcome<Slots, SensorEvent> {
    (s: Slots, e: InputEvent) =>
      if e.kind == EV_ABS || e.kind == EV_REL then Outcome(OnField(s, e), [])
      else if e.kind == EV_SYN then OnSyn(s)
      else Outcome(s, [])
  }

  ghost predicate AtSyn(q: seq<InputEvent>) { q != [] && q[0].kind == EV_SYN }

  /** Finishing the SYN at the front of the queue, if there is one, brings `now` and `emitted` to where the reference
      decoder stands after the same events. A report cut short and one not yet begun both satisfy this. */
  ghost predicate OnTrack(origin: Slots, past: seq<InputEvent>, q: seq<InputEvent>, now: Slots,
        emitted: seq<SensorEvent>) {
    if AtSyn(q) then
      Run(Step(), origin, past + [q[0]]) == Outcome(OnSyn(now).state, emitted + OnSyn(now).out)
    else
      Run(Step(), origin, past) == Outcome(now, emitted)
  }

  /** Between reports it does not matter what comes next. */
  lemma {:induction false} Rejoin(origin: Slots, past: seq<InputEvent>, q: seq<InputEvent>, now: Slots,
        emitted: seq<SensorEvent>)
    requires Run(Step(), origin, past) == Outcome(now, emitted)
    ensures OnTrack(origin, past, q, now, emitted)
  {
    if AtSyn(q) {
      RunOne(Step(), origin, past, q[0]);
    }
  }

  /** Stepping over an event that is not a SYN, or over a SYN with no slot left due, keeps the decoder on track. */
  lemma {:induction false} Passed(origin: Slots, past: seq<InputEvent>, q: seq<InputEvent>, now: Slots, next: Slots,
        emitted: seq<SensorEvent>)
    requires q != [] && OnTrack(origin, past, q, now, emitted)
    requires AtSyn(q) ==> now.Idle() && next == now
    requires !AtSyn(q) ==> Step()(now, q[0]) == Outcome(next, [])
    ensures OnTrack(origin, past + [q[0]], q[1..], next, emitted)
  {
    if AtSyn(q) {
      assert OnSyn(now) == Outcome(now, []);
      assert emitted + [] == emitted;
    } else {
      RunOne(Step(), origin, past, q[0]);
      assert emitted + [] == emitted;
    }
    Rejoin(origin, past + [q[0]], q[1..], next, emitted);
  }

  /** Letting the slots take their turns one at a time, in order, is the same report. */
  lemma {:induction false} TurnTaken(origin: Slots, past: seq<InputEvent>, q: seq<InputEvent>, now: Slots, j: int,
        emitted: seq<SensorEvent>)
    requires AtSyn(q) && OnTrack(origin, past, q, now, emitted)
    requires j == 0 || (j == 1 && !now.field.due)
    ensures var t := Turn(now.At(j), j);
            OnTrack(origin, past, q, now.With(j, t.state), emitted + t.out)
  {
    var t := Turn(now.At(j), j);
    var next := now.With(j, t.state);
    assert Turn(next.At(j), j) == Outcome(next.At(j), []);
    assert OnSyn(now) == Outcome(OnSyn(next).state, t.out + OnSyn(next).out);
    assert emitted + (t.out + OnSyn(next).out) == (emitted + t.out) + OnSyn(next).out;
  }

  class MagneticSensor {
    const ring: InputEventCircularReader
    var slots: Slots

    // Since the sensor was last switched: the slots then, the events consumed before, and the output since.
    ghost var origin: Slots
    ghost var base: nat
    ghost var emitted: seq<SensorEvent>

    ghost predicate Valid()
      reads this, ring, ring.buffer
    {
      && ring.Valid()
      && base <= |ring.consumed|
      && OnTrack(origin, ring.consumed[base..], ring.Contents(), slots, emitted)
    }

    constructor (numEvents: nat, divM: int, divO: int)
      ensures Valid() && fresh(ring) && fresh(ring.buffer)
      ensures slots == origin == Fresh(divM, divO)
      ensures ring.arrived == [] && ring.capacity == numEvents && emitted == [] && base == 0
    {
      ring := new InputEventCircularReader(numEvents);
      slots, origin := Fresh(divM, divO), Fresh(divM, divO);
      base, emitted := 0, [];
    }

    method Enable(handle: int, en: int, attrOpens: bool, now: int) returns (r: int)
      requires Valid()
      modifies this
      ensures Valid() && r == if attrOpens then 0 else -1
      ensures var was, index := old(slots), SlotOf(handle);
              slots == if attrOpens && en == 1
                       then was.With(index, was.At(index).(enabledTime := now + IGNORE_EVENT_TIME)) else was
      ensures attrOpens && en == 1 ==>
        slots.At(if handle == 2 then 1 else 0).enabledTime == now + 350000000
        && slots.At(if handle == 2 then 0 else 1) == old(slots).At(if handle == 2 then 0 else 1)
      ensures attrOpens ==> origin == slots && base == |ring.consumed| && emitted == []
      ensures !attrOpens ==> origin == old(origin) && base == old(base) && emitted == old(emitted)
    {
      var index := SlotOf(handle);
      if !attrOpens {
        return -1;
      }
      if en == 1 {
        slots := slots.With(index, slots.At(index).(enabledTime := now + IGNORE_EVENT_TIME));
      }
      origin, base, emitted := slots, |ring.consumed|, [];
      Rejoin(origin, ring.consumed[base..], ring.Contents(), slots, emitted);
      return 0;
    }

    /** Any sequence of budgets gives the output of an unlimited one: whenever a call leaves budget unspent the ring is
        empty, and all output since the last switch is the reference decoder's over all that arrived since. */
    method ReadEvents(k: KernelRead, count: int) returns (r: int, data: seq<SensorEvent>)
      requires Valid()
      requires ReadFits(k, ring.free)
      modifies this`slots, this`emitted, ring, ring.buffer
      ensures Valid()
      ensures count < 1 ==> r == -EINVAL && ring.arrived == old(ring.arrived)
      ensures count >= 1 ==> ring.arrived == old(ring.arrived) + Accepted(k)
      ensures count >= 1 ==> var filled := FillResult(k, old(ring.free)); r == if filled < 0 then filled else |data|
      ensures r < 0 ==> data == [] && slots == old(slots) && ring.Contents() == old(ring.Contents())
      ensures r >= 0 ==> r == |data| && SpendsExactly(count, data, ring.Contents())
      ensures r >= 0 && |data| < count ==> Run(Step(), origin, ring.arrived[base..]) == Outcome(slots, emitted)
      ensures emitted == old(emitted) + data && old(ring.consumed) <= ring.consumed
    {
      data := [];
      if count < 1 {
        return -EINVAL, data;
      }
      var n := Refill(k);
      if n < 0 {
        return n, data;
      }
      data := Drain(count);
      if |data| < count {
        assert ring.arrived == ring.consumed;
      }
      return |data|, data;
    }

    /** New events behind the queue do not matter to a report cut short at its front. */
    method Refill(k: KernelRead) returns (n: int)
      requires Valid() && ReadFits(k, ring.free)
      modifies ring, ring.buffer
      ensures Valid() && n == FillResult(k, old(ring.free)) && ring.consumed == old(ring.consumed)
      ensures ring.arrived == old(ring.arrived) + Accepted(k)
      ensures ring.Contents() == old(ring.Contents()) + Accepted(k)
    {
      ghost var q := ring.Contents();
      n := ring.Fill(k);
      assert q != [] ==> ring.Contents()[0] == q[0];
      if q == [] {
        Rejoin(origin, ring.consumed[base..], ring.Contents(), slots, emitted);
      }
    }

    method Drain(count: nat) returns (data: seq<SensorEvent>)
      requires Valid()
      modifies this`slots, this`emitted, ring`curr, ring`free, ring`consumed
      ensures Valid() && SpendsExactly(count, data, ring.Contents())
      ensures emitted == old(emitted) + data && old(ring.consumed) <= ring.consumed
    {
      data := [];
      var left := count;
      while left != 0
        invariant Valid() && 0 <= left == count - |data|
        invariant emitted == old(emitted) + data && old(ring.consumed) <= ring.consumed
        decreases |ring.Contents()|, left
      {
        var more, e := ring.ReadEvent();
        if !more {
          break;
        }
        if e.kind == EV_SYN {
          var out := Report(left);
          Associate(old(emitted), data, out);
          data := data + out;
          left := left - |out|;
          if slots.Idle() {
            StepOver(slots);
          }
        } else {
          StepOver(if e.kind == EV_ABS || e.kind == EV_REL then OnField(slots, e) else slots);
        }
      }
    }

    /** Runs the SYN at the front as far as the budget goes. */
    method Report(budget: nat) returns (out: seq<SensorEvent>)
      requires Valid() && AtSyn(ring.Contents()) && budget > 0
      modifies this`slots, this`emitted
      ensures Valid() && emitted == old(emitted) + out && |out| <= budget
      ensures |out| < budget ==> slots.Idle()
    {
      out := [];
      var j, left := 0, budget;
      while left != 0 && !slots.Idle() && j < 2
        invariant 0 <= j <= 2 && 0 <= left == budget - |out|
        invariant Valid() && emitted == old(emitted) + out
        invariant (j > 0 ==> !slots.field.due) && (j > 1 ==> slots.Idle())
      {
        var o := TakeTurn(j);
        Associate(old(emitted), out, o);
        out := out + o;
        left := left - |o|;
        j := j + 1;
      }
    }

    method TakeTurn(j: int) returns (out: seq<SensorEvent>)
      requires Valid() && AtSyn(ring.Contents())
      requires j == 0 || (j == 1 && !slots.field.due)
      modifies this`slots, this`emitted
      ensures Valid() && emitted == old(emitted) + out && |out| <= 1
      ensures Turn(old(slots).At(j), j) == Outcome(slots.At(j), out) && slots == old(slots).With(j, slots.At(j))
    {
      TurnTaken(origin, ring.consumed[base..], ring.Contents(), slots, j, emitted);
      out := [];
      if slots.At(j).due {
        slots := slots.With(j, slots.At(j).(due := false));
        if slots.At(j).flag == ALL_COMPLETE {
          slots := slots.With(j, slots.At(j).(flag := RESTART));
          if slots.At(j).sample.timestamp > slots.At(j).enabledTime {
            out := [Reading(ID_MAGNETIC + j, slots.At(j).sample)];
            slots := slots.With(j, slots.At(j).(sample := slots.At(j).sample.(timestamp := 0)));
          }
        }
      }
      emitted := emitted + out;
    }

    method StepOver(next: Slots)
      requires Valid() && ring.Contents() != []
      requires AtSyn(ring.Contents()) ==> slots.Idle() && next == slots
      requires !AtSyn(ring.Contents()) ==> Step()(slots, ring.Contents()[0]) == Outcome(next, [])
      modifies this`slots, ring`curr, ring`free, ring`consumed
      ensures Valid() && slots == next && ring.Contents() == old(ring.Contents())[1..]
      ensures old(ring.consumed) <= ring.consumed
    {
      Passed(origin, ring.consumed[base..], ring.Contents(), slots, next, emitted);
      ghost var e := ring.Contents()[0];
      slots := next;
      ring.Next();
      assert ring.consumed[base..] == old(ring.consumed)[base..] + [e];
    }
  }
}
