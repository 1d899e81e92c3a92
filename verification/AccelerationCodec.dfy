/** The sender's side of the accelerometer protocol, and the round trip through the decoder. */
module AccelerationCodec {
  import opened InputEvents
  import opened PacketTimestamp
  import opened RawSample
  import opened Stream
  import opened Acceleration

  datatype Sent = Sent(raw: Raw, keep: Keep)

  /** One ABS field of a packet. The input core may leave it out when the value is the one sent before. */
  function Field(code: int, was: int, v: int, keep: bool): seq<Item> {
    if keep || v != was then [Input(InputEvent(EV_ABS, code, v))] else []
  }

  function Trailer(ts: int): seq<Item> {
    [Input(InputEvent(EV_REL, REL_HWHEEL, HiWord(ts))), Input(InputEvent(EV_REL, REL_DIAL, LoWord(ts)))]
    + [Input(InputEvent(EV_SYN, 0, 0))]
  }

  function Body(was: Raw, s: Sent): seq<Item> {
    Field(ABS_X, was.x, s.raw.x, s.keep.x) + Field(ABS_Y, was.y, s.raw.y, s.keep.y)
    + Field(ABS_Z, was.z, s.raw.z, s.keep.z) + Field(ABS_WHEEL, was.status, s.raw.status, s.keep.status)
  }

  function Packet(was: Raw, s: Sent): seq<Item> {
    Body(was, s) + Trailer(s.raw.timestamp)
  }

  /** The sender: it remembers the sample sent last. */
  function Send(): (Raw, Sent) -> Outcome<Raw, Item> {
    (was: Raw, x: Sent) => Outcome(x.raw, Packet(was, x))
  }

  function Encode(was: Raw, sent: seq<Sent>): Outcome<Raw, Item> {
    Run(Send(), was, sent)
  }

  /** What one sample must come out as: dropped inside the settling window or when the sensor is off, dropped when its
      timestamp (the clock, if it carries none) is not past the window, and otherwise delivered scaled, once. */
  function Expected(at: Setting, r: Raw, time: int): seq<SensorEvent> {
    var ts := if r.timestamp == 0 then time else r.timestamp;
    if at.on && time >= at.window && ts > at.window then
      [Reading(ID_ACCELEROMETER, Taken(at.div, r.(timestamp := ts)))]
    else []
  }

  /** What of the sensor the output depends on, besides the packets. */
  datatype Setting = Setting(on: bool, window: int, div: int)

  function SettingOf(s: State): Setting { Setting(s.enabled, s.enabledTime, s.div) }

  /** The receiver's due, counting clock readings as it goes. */
  function Expect(at: Setting, clock: nat -> int): (nat, Sent) -> Outcome<nat, SensorEvent> {
    (k: nat, x: Sent) => Outcome(k + 1, Expected(at, x.raw, clock(k)))
  }

  function AllExpected(at: Setting, ticks: nat, sent: seq<Sent>, clock: nat -> int): Outcome<nat, SensorEvent> {
    Run(Expect(at, clock), ticks, sent)
  }

  /** The decoder's pending fields are those of raw sample `r`. */
  ghost predicate Holds(s: State, r: Raw) { Carries(s.pending, s.div, r) }

  /** Every field that `sent` leaves out is pending in the decoder already. */
  ghost predicate Covers(s: State, was: Raw, sent: Sent) { FillsIn(s.pending, s.div, was, sent.raw, sent.keep) }

  function Put(p: Sample, code: int, q: Quotient): (r: Sample) {
    if code == ABS_X then p.(x := q) else if code == ABS_Y then p.(y := q) else if code == ABS_Z then p.(z := q)
    else p.(status := q.num)
  }

  lemma {:induction false} FieldDecodes(s: State, code: int, was: int, v: int, keep: bool,
        clock: nat -> int) returns (t: State)
    requires code in {ABS_X, ABS_Y, ABS_Z, ABS_WHEEL}
    ensures Decode(s, Field(code, was, v, keep), clock) == Outcome(t, [])
    ensures var p := if keep || v != was then Put(s.pending, code, Quotient(v, s.div)) else s.pending;
            t == s.(pending := p, flag := t.flag)
  {
    t := Decode(s, Field(code, was, v, keep), clock).state;
    if keep || v != was {
      RunSingle(Step(clock), s, Field(code, was, v, keep)[0]);
    }
  }

  /** What is pending after the four fields of a packet. */
  function Filled(p: Sample, was: Raw, sent: Sent, div: int): Sample {
    p.(x := if SendsX(was, sent.raw, sent.keep) then Quotient(sent.raw.x, div) else p.x,
       y := if SendsY(was, sent.raw, sent.keep) then Quotient(sent.raw.y, div) else p.y,
       z := if SendsZ(was, sent.raw, sent.keep) then Quotient(sent.raw.z, div) else p.z,
       status := if SendsStatus(was, sent.raw, sent.keep) then sent.raw.status else p.status)
  }

  lemma {:induction false} BodyRuns(s: State, was: Raw, sent: Sent, clock: nat -> int) returns (t: State)
    ensures Decode(s, Body(was, sent), clock) == Outcome(t, [])
    ensures t == s.(pending := Filled(s.pending, was, sent, s.div), flag := t.flag)
  {
    var x, y := Field(ABS_X, was.x, sent.raw.x, sent.keep.x), Field(ABS_Y, was.y, sent.raw.y, sent.keep.y);
    var z := Field(ABS_Z, was.z, sent.raw.z, sent.keep.z);
    var w := Field(ABS_WHEEL, was.status, sent.raw.status, sent.keep.status);
    var s1 := FieldDecodes(s, ABS_X, was.x, sent.raw.x, sent.keep.x, clock);
    var s2 := FieldDecodes(s1, ABS_Y, was.y, sent.raw.y, sent.keep.y, clock);
    RunConcat(Step(clock), s, x, y);
    var s3 := FieldDecodes(s2, ABS_Z, was.z, sent.raw.z, sent.keep.z, clock);
    RunConcat(Step(clock), s, x + y, z);
    t := FieldDecodes(s3, ABS_WHEEL, was.status, sent.raw.status, sent.keep.status, clock);
    RunConcat(Step(clock), s, x + y + z, w);
  }

  /** The four fields end up with the sample's values exactly when those left out were pending before. */
  lemma {:induction false} BodyDecodes(s: State, was: Raw, sent: Sent, clock: nat -> int)
    ensures var r := Decode(s, Body(was, sent), clock);
            r.out == [] && SettingOf(r.state) == SettingOf(s) && r.state.ticks == s.ticks
            && (Holds(r.state, sent.raw) <==> Covers(s, was, sent))
  {
    var t := BodyRuns(s, was, sent, clock);
  }

  lemma {:induction false} TrailerDecodes(s: State, r: Raw, clock: nat -> int)
    requires Holds(s, r) && IsInt64(r.timestamp)
    ensures var t := Decode(s, Trailer(r.timestamp), clock);
            t.out == Expected(SettingOf(s), r, clock(s.ticks)) && SettingOf(t.state) == SettingOf(s) && t.state.ticks == s.ticks + 1
            && Holds(t.state, r)
  {
    var items := Trailer(r.timestamp);
    assert items == ([items[0]] + [items[1]]) + [items[2]];
    RunOne(Step(clock), s, [items[0]] + [items[1]], items[2]);
    RunOne(Step(clock), s, [items[0]], items[1]);
    RunSingle(Step(clock), s, items[0]);
    MergeRebuilds(s.pending.timestamp, r.timestamp);
  }

  lemma {:induction false} PacketDecodes(s: State, was: Raw, sent: Sent, clock: nat -> int)
    requires Covers(s, was, sent) && IsInt64(sent.raw.timestamp)
    ensures var t := Decode(s, Packet(was, sent), clock);
            t.out == Expected(SettingOf(s), sent.raw, clock(s.ticks)) && SettingOf(t.state) == SettingOf(s) && t.state.ticks == s.ticks + 1
            && Holds(t.state, sent.raw)
  {
    RunConcat(Step(clock), s, Body(was, sent), Trailer(sent.raw.timestamp));
    BodyDecodes(s, was, sent, clock);
    TrailerDecodes(Decode(s, Body(was, sent), clock).state, sent.raw, clock);
  }

  /** How far sender, decoder and expectation have come together after `sent`. */
  ghost predicate InStep(s: State, was: Raw, sent: seq<Sent>, clock: nat -> int) {
    var e, a := Encode(was, sent), AllExpected(SettingOf(s), s.ticks, sent, clock);
    var d := Decode(s, e.out, clock);
    && d.out == a.out && d.state.ticks == a.state && SettingOf(d.state) == SettingOf(s)
    && (if sent == [] then d.state == s && e.state == was else Holds(d.state, e.state))
  }

  /** Round trip: whatever was pending before, as long as what the first packet leaves out was pending; whichever unchanged
      fields are left out; and whatever the clock shows: the packets of any list of samples decode to exactly the
      samples that must come out, in order. */
  lemma {:induction false} RoundTrip(s: State, was: Raw, sent: seq<Sent>, clock: nat -> int)
    requires sent != [] ==> Covers(s, was, sent[0])
    requires forall i :: 0 <= i < |sent| ==> IsInt64(sent[i].raw.timestamp)
    ensures Decode(s, Encode(was, sent).out, clock).out == AllExpected(SettingOf(s), s.ticks, sent, clock).out
    ensures InStep(s, was, sent, clock)
  {
    if sent != [] {
      var init, x := sent[..|sent| - 1], sent[|sent| - 1];
      RoundTrip(s, was, init, clock);
      assert sent == init + [x];
      OneMore(s, was, init, x, clock);
    }
  }

  lemma {:induction false} OneMore(s: State, was: Raw, init: seq<Sent>, x: Sent, clock: nat -> int)
    requires IsInt64(x.raw.timestamp) && InStep(s, was, init, clock) && (init == [] ==> Covers(s, was, x))
    ensures InStep(s, was, init + [x], clock)
  {
    var e, a := Encode(was, init), AllExpected(SettingOf(s), s.ticks, init, clock);
    var d := Decode(s, e.out, clock);
    RunOne(Send(), was, init, x);
    RunOne(Expect(SettingOf(s), clock), s.ticks, init, x);
    RunConcat(Step(clock), s, e.out, Packet(e.state, x));
    PacketDecodes(d.state, e.state, x, clock);
  }

  /** In particular from the start: a sensor of any divisor, just made and switched on at `now`, delivers a sample if and
      only if the clock has come to `now` plus 350 ms and its timestamp is later than that, even when its zero fields
      were never sent. */
  lemma {:induction false} FirstSession(div: int, now: int, sent: seq<Sent>, clock: nat -> int)
    requires forall i :: 0 <= i < |sent| ==> IsInt64(sent[i].raw.timestamp)
    ensures Decode(Fresh(div), [Switch(true, now)] + Encode(ZERO, sent).out, clock).out
         == AllExpected(Setting(true, now + 350000000, div), 0, sent, clock).out
  {
    var s := Decode(Fresh(div), [Switch(true, now)], clock).state;
    RunSingle(Step(clock), Fresh(div), Switch(true, now));
    RunConcat(Step(clock), Fresh(div), [Switch(true, now)], Encode(ZERO, sent).out);
    RoundTrip(s, ZERO, sent, clock);
    assert [] + Decode(s, Encode(ZERO, sent).out, clock).out == Decode(s, Encode(ZERO, sent).out, clock).out;
  }
}
