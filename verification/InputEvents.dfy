/** Values shared by every reader of the sensor HAL: the kernel's input events and the HAL's own events. */
module InputEvents {

  /** One record of a Linux input device. The fields are those of `struct input_event` the readers look at. */
  datatype InputEvent = InputEvent(kind: int, code: int, value: int)

  const EV_SYN := 0
  const EV_REL := 2
  const EV_ABS := 3

  const ABS_X := 0
  const ABS_Y := 1
  const ABS_Z := 2
  const ABS_RX := 3
  const ABS_RY := 4
  const ABS_RZ := 5
  const ABS_THROTTLE := 6
  const ABS_WHEEL := 8

  const REL_X := 0
  const REL_RX := 3
  const REL_RY := 4
  const REL_HWHEEL := 6
  const REL_DIAL := 7
  const REL_WHEEL := 8
  const REL_MISC := 9

  const EINVAL := 22

  /** How long a sensor settles after it is switched on; readings inside this window are dropped. */
  const IGNORE_EVENT_TIME := 350000000

  /** What `read(fd, …)` on an input device may answer. `Torn` stands for a byte count that is not a whole
      number of records: the kernel may have scribbled over some slots all the same. */
  datatype KernelRead =
    | Failed(errno: int)
    | Torn(scribbled: seq<InputEvent>)
    | Delivered(events: seq<InputEvent>)

  /** Events a read hands over for good: none at all unless it succeeded. */
  function Accepted(k: KernelRead): (es: seq<InputEvent>) {
    if k.Delivered? then k.events else []
  }

  /** How many of the events are SYNs. */
  function CountSyn(es: seq<InputEvent>): (n: nat) {
    if es == [] then 0 else CountSyn(es[..|es| - 1]) + if es[|es| - 1].kind == EV_SYN then 1 else 0
  }

  lemma {:induction false} CountSynConcat(a: seq<InputEvent>, b: seq<InputEvent>)
    ensures CountSyn(a + b) == CountSyn(a) + CountSyn(b)
  {
    if b == [] {
      assert a + b == a;
    } else {
      var init := b[..|b| - 1];
      CountSynConcat(a, init);
      assert (a + b)[..|a + b| - 1] == a + init;
    }
  }

  /** What a fill of a ring with `free` slots left returns. */
  function FillResult(k: KernelRead, free: nat): (r: int) {
    if free == 0 then 0 else
    match k
    case Failed(errno) => -errno
    case Torn(_) => -EINVAL
    case Delivered(events) => |events|
  }

  /** Error numbers are positive, and a read never exceeds the room it was given. */
  predicate ReadFits(k: KernelRead, free: nat) {
    match k
    case Failed(errno) => errno > 0
    case Torn(scribbled) => |scribbled| <= free
    case Delivered(events) => |events| <= free
  }

  /** The exact value of `(float)num / den`; rounding is not modelled. */
  datatype Quotient = Quotient(num: int, den: int)

  /** The payload of a motion sensor's event. */
  datatype Sample = Sample(x: Quotient, y: Quotient, z: Quotient, status: int, timestamp: int)

  /** A cleared sample of a sensor with divisor `div`. */
  function Blank(div: int): (s: Sample) {
    Sample(Quotient(0, div), Quotient(0, div), Quotient(0, div), 0, 0)
  }

  /** An event as the HAL passes it upwards: a reading of one sensor, or the end of a flush. */
  datatype SensorEvent = Reading(sensor: int, sample: Sample) | FlushComplete(sensor: int, time: int)

  /** The discipline of a driver that spends budget exactly when it emits: it never emits more than asked, and it
      leaves events unread only when the whole budget is spent. */
  predicate SpendsExactly(count: int, data: seq<SensorEvent>, unread: seq<InputEvent>) {
    |data| <= count && (|data| < count ==> unread == [])
  }
}
