/** The accelerometer's packet decoder (the gyroscope's is the same machine). */
module Acceleration {
  import opened InputEvents
  import opened EventRing
  import opened PacketTimestamp
  import opened Stream

  const ID_ACCELEROMETER := 0

  // Values of mAllInputDataCompleteFlag: the field seen last.
  const RESTART := 0
  const FIELD_X := 1
  const FIELD_Y := 2
  const FIELD_Z := 3
  const FIELD_STATUS := 4
  const FIELD_HI := 6
  const FIELD_LO := 7
  const ALL_COMPLETE := 7

  /** Everything the decoder remembers. `ticks` counts the clock readings taken so far, one per SYN. */
  datatype State = State(
    enabled: bool, enabledTime: int, div: int, pending: Sample, flag: int, ticks: nat)

  /** A sensor as it is made: off, cleared, and nothing decoded. */
  function Fresh(div: int): (s: State) {
    State(false, 0, div, Blank(div), RESTART, 0)
  }

  // ---- The reference decoder: one event at a time, no ring, no budget ----

  function ProcessEvent(s: State, kind: int, code: int, v: int): State {
    var p := s.pending;
    if kind == EV_ABS then
      if code == ABS_WHEEL then s.(pending := p.(status := v), flag := FIELD_STATUS)
      else if code == ABS_X then s.(pending := p.(x := Quotient(v, s.div)), flag := FIELD_X)
      else if code == ABS_Y then s.(pending := p.(y := Quotient(v, s.div)), flag := FIELD_Y)
      else if code == ABS_Z then s.(pending := p.(z := Quotient(v, s.div)), flag := FIELD_Z)
      else s
    else if kind == EV_REL then
      if code == REL_HWHEEL then s.(pending := p.(timestamp := MergeHi(p.timestamp, v)), flag := FIELD_HI)
      else if code == REL_DIAL then s.(pending := p.(timestamp := MergeLo(p.timestamp, v)), flag := FIELD_LO)
      else s
    else s
  }

  /** The timestamp a packet counts with: a zero one is replaced by the clock. */
  function Effective(ts: int, time: int): int { if ts == 0 then time else ts }

  function OnSyn(s: State, time: int): Outcome<State, SensorEvent> {
    var s := s.(ticks := s.ticks + 1);
    if s.enabled && time >= s.enabledTime && s.flag == ALL_COMPLETE then
      var ts := Effective(s.pending.timestamp, time);
      if ts > s.enabledTime then
        Outcome(s.(flag := RESTART, pending := s.pending.(timestamp := 0)),
                [Reading(ID_ACCELEROMETER, s.pending.(timestamp := ts))])
      else
        Outcome(s.(flag := RESTART, pending := s.pending.(timestamp := ts)), [])
    else Outcome(s, [])
  }

  function OnEvent(s: State, e: InputEvent, clock: nat -> int): Outcome<State, SensorEvent> {
    if e.kind == EV_ABS || e.kind == EV_REL then Outcome(ProcessEvent(s, e.kind, e.code, e.value), [])
    else if e.kind == EV_SYN then OnSyn(s, clock(s.ticks))
    else Outcome(s, [])
  }

  /** What happens to a sensor over its life: input events are decoded, and callers switch it on and off. */
  datatype Item = Input(e: InputEvent) | Switch(on: bool, now: int)

  function Switched(s: State, on: bool, now: int): State {
    s.(enabled := on, enabledTime := if on then now + IGNORE_EVENT_TIME else s.enabledTime)
  }

  function Step(clock: nat -> int): (State, Item) -> Outcome<State, SensorEvent> {
    (s: State, i: Item) =>
      match i
      case Input(e) => OnEvent(s, e, clock)
      case Switch(on, now) => Outcome(Switched(s, on, now), [])
  }

  /** The reference decoder over a whole history. */
  function Decode(s: State, items: seq<Item>, clock: nat -> int): Outcome<State, SensorEvent> {
    Run(Step(clock), s, items)
  }

  /** The input events of a history, in order. */
  function Events(items: seq<Item>): seq<InputEvent> {
    if items == [] then [] else
    var last := items[|items| - 1];
    Events(items[..|items| - 1]) + (if last.Input? then [last.e] else [])
  }

  /** `b` continues `a` with input events alone. */
  ghost predicate OnlyInputSince(a: seq<Item>, b: seq<Item>) {
    a <= b && forall i :: |a| <= i < |b| ==> b[i].Input?
  }

  // ---- The driver: ring, chunked reads and caller budgets ----

  class AccelerationSensor {
    const ring: InputEventCircularReader
    const clock: nat -> int
    const dataDiv: int
    var enabled: bool
    var enabledTime: int
    var pending: Sample
    var flag: int
    var ticks: nat

    ghost const initial: State
    ghost var history: seq<Item>
    ghost var emitted: seq<SensorEvent>

    ghost function Now(): State
      reads this
    {
      State(enabled, enabledTime, dataDiv, pending, flag, ticks)
    }

    /** Chunking independence as an invariant of every run. However the kernel split its reads and whatever budgets the
        callers gave, state and output are those of the reference decoder over the events consumed; and those, with
        the ring's contents behind them, are everything that arrived. */
    ghost predicate Valid()
      reads this, ring, ring.buffer
    {
      && ring.Valid()
      && Decode(initial, history, clock) == Outcome(Now(), emitted)
      && Events(history) == ring.consumed
    }

    constructor (numEvents: nat, div: int, clock: nat -> int)
      ensures Valid() && fresh(ring) && fresh(ring.buffer)
      ensures Now() == initial == Fresh(div) && this.clock == clock && dataDiv == div
      ensures !enabled && enabledTime == 0 && flag == 0 && ticks == 0
      ensures history == [] && emitted == [] && ring.arrived == [] && ring.capacity == numEvents
    {
      ring := new InputEventCircularReader(numEvents);
      this.clock, dataDiv := clock, div;
      enabled, enabledTime, flag, ticks := false, 0, RESTART, 0;
      pending := Blank(div);
      initial := Fresh(div);
      history, emitted := [], [];
    }

    method Enable(on: bool, attrOpens: bool, now: int) returns (r: int)
      requires Valid()
      modifies this`enabled, this`enabledTime, this`history
      ensures Valid()
      ensures r == if attrOpens then 0 else -1
      ensures history == if attrOpens then old(history) + [Switch(on, now)] else old(history)
      ensures enabled == if attrOpens then on else old(enabled)
      ensures enabledTime == if attrOpens && on then now + 350000000 else old(enabledTime)
    {
      if !attrOpens {
        return -1;
      }
      RunOne(Step(clock), initial, history, Switch(on, now));
      enabled := on;
      if on {
        enabledTime := now + IGNORE_EVENT_TIME;
      }
      history := history + [Switch(on, now)];
      return 0;
    }

    method ReadEvents(k: KernelRead, count: int) returns (r: int, data: seq<SensorEvent>)
      requires Valid()
      requires ReadFits(k, ring.free)
      modifies this`pending, this`flag, this`ticks, this`history, this`emitted
      modifies ring, ring.buffer
      ensures Valid()
      ensures count < 1 ==> r == -EINVAL && ring.arrived == old(ring.arrived)
      ensures count >= 1 ==> ring.arrived == old(ring.arrived) + Accepted(k)
      ensures count >= 1 ==> var filled := FillResult(k, old(ring.free)); r == if filled < 0 then filled else |data|
      ensures r < 0 ==> data == [] && Now() == old(Now()) && ring.Contents() == old(ring.Contents())
      ensures r >= 0 ==> r == |data| && SpendsExactly(count, data, ring.Contents())
      ensures emitted == old(emitted) + data
      ensures OnlyInputSince(old(history), history)
    {
      data := [];
      if count < 1 {
        return -EINVAL, data;
      }
      var n := ring.Fill(k);
      if n < 0 {
        return n, data;
      }
      data := Drain(count);
      return |data|, data;
    }

    /** The read loop: it stops when the budget is spent or the ring is empty, and not before. */
    method Drain(count: nat) returns (data: seq<SensorEvent>)
      requires Valid()
      modifies this`pending, this`flag, this`ticks, this`history, this`emitted
      modifies ring`curr, ring`free, ring`consumed
      ensures Valid() && SpendsExactly(count, data, ring.Contents())
      ensures emitted == old(emitted) + data
      ensures OnlyInputSince(old(history), history)
    {
      data := [];
      var left := count;
      while left != 0
        invariant Valid() && 0 <= left == count - |data|
        invariant emitted == old(emitted) + data
        invariant OnlyInputSince(old(history), history)
        decreases |ring.Contents()|
      {
        var more, e := ring.ReadEvent();
        if !more {
          break;
        }
        var out := Consume(e);
        Associate(old(emitted), data, out);
        data := data + out;
        left := left - |out|;
      }
    }

    /** One turn of the read loop. */
    method Consume(e: InputEvent) returns (out: seq<SensorEvent>)
      requires Valid() && ring.Contents() != [] && e == ring.Contents()[0]
      modifies this`pending, this`flag, this`ticks, this`history, this`emitted
      modifies ring`curr, ring`free, ring`consumed
      ensures Valid() && |out| <= 1
      ensures ring.Contents() == old(ring.Contents())[1..]
      ensures emitted == old(emitted) + out
      ensures history == old(history) + [Input(e)]
    {
      RunOne(Step(clock), initial, history, Input(e));
      assert Step(clock)(Now(), Input(e)) == OnEvent(Now(), e, clock);
      ring.Next();
      out := Handle(e);
      emitted := emitted + out;
      assert (history + [Input(e)])[..|history|] == history;
      history := history + [Input(e)];
    }

    method Handle(e: InputEvent) returns (out: seq<SensorEvent>)
      modifies this`pending, this`flag, this`ticks
      ensures Outcome(Now(), out) == OnEvent(old(Now()), e, clock) && |out| <= 1
    {
      out := [];
      if e.kind == EV_ABS || e.kind == EV_REL {
        HandleEvent(e.kind, e.code, e.value);
      } else if e.kind == EV_SYN {
        out := HandleSyn();
      }
    }

    method HandleSyn() returns (out: seq<SensorEvent>)
      modifies this`pending, this`flag, this`ticks
      ensures Outcome(Now(), out) == OnSyn(old(Now()), clock(old(ticks)))
    {
      out := [];
      var time := clock(ticks);
      ticks := ticks + 1;
      if enabled {
        if time >= enabledTime {
          if flag == ALL_COMPLETE {
            flag := RESTART;
            if pending.timestamp == 0 {
              pending := pending.(timestamp := time);
            }
            if pending.timestamp > enabledTime {
              out := [Reading(ID_ACCELEROMETER, pending)];
              pending := pending.(timestamp := 0);
            }
          }
        }
      }
    }

    method HandleEvent(kind: int, code: int, v: int)
      modifies this`pending, this`flag
      ensures Now() == ProcessEvent(old(Now()), kind, code, v)
    {
      if kind == EV_ABS {
        if code == ABS_WHEEL {
          pending := pending.(status := v);
          flag := FIELD_STATUS;
        } else if code == ABS_X {
          pending := pending.(x := Quotient(v, dataDiv));
          flag := FIELD_X;
        } else if code == ABS_Y {
          pending := pending.(y := Quotient(v, dataDiv));
          flag := FIELD_Y;
        } else if code == ABS_Z {
          pending := pending.(z := Quotient(v, dataDiv));
          flag := FIELD_Z;
        }
      } else if kind == EV_REL {
        if code == REL_HWHEEL {
          pending := pending.(timestamp := MergeHi(pending.timestamp, v));
          flag := FIELD_HI;
        } else if code == REL_DIAL {
          pending := pending.(timestamp := MergeLo(pending.timestamp, v));
          flag := FIELD_LO;
        }
      }
    }
  }
}
