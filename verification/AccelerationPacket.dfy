/** Any packet at all, complete or not: what the decoder makes of the events between two SYNs. */
module AccelerationPacket {
  import opened EventFields
  import opened InputEvents
  import opened PacketTimestamp
  import opened Stream
  import opened Acceleration

  const CODES := Codes(ABS_X, ABS_Y, ABS_Z, ABS_WHEEL, REL_HWHEEL, REL_DIAL)

  function Inputs(es: seq<InputEvent>): (items: seq<Item>)
    ensures |items| == |es| && forall i :: 0 <= i < |es| ==> items[i] == Input(es[i])
  {
    seq(|es|, i requires 0 <= i < |es| => Input(es[i]))
  }

  /** The decoder's state after `es`: every field holds what it was given last, and the flag stands exactly when a low word
      came last. */
  ghost predicate Settled(s: State, es: seq<InputEvent>, t: State) {
    && t == s.(pending := Overlaid(es, CODES, s.pending, s.div), flag := t.flag)
    && (t.flag == COMPLETE <==> LowCameLast(es, CODES, s.flag))
  }

  lemma {:induction false} PendingSettles(s: State, es: seq<InputEvent>, e: InputEvent, t: State)
    requires t.div == s.div && t.pending == Overlaid(es, CODES, s.pending, s.div)
    ensures ProcessEvent(t, e.kind, e.code, e.value).pending == Overlaid(es + [e], CODES, s.pending, s.div)
  {
    assert (es + [e])[..|es|] == es;
  }

  lemma {:induction false} FlagSettles(es: seq<InputEvent>, e: InputEvent, flag: int, t: State)
    requires t.flag == COMPLETE <==> LowCameLast(es, CODES, flag)
    ensures ProcessEvent(t, e.kind, e.code, e.value).flag == COMPLETE <==> LowCameLast(es + [e], CODES, flag)
  {
    LowAfterOne(es, e, CODES, flag);
  }

  lemma {:induction false} OneSettles(s: State, es: seq<InputEvent>, e: InputEvent, t: State, clock: nat -> int)
    requires Settled(s, es, t) && e.kind != EV_SYN
    ensures var r := OnEvent(t, e, clock); r.out == [] && Settled(s, es + [e], r.state)
  {
    PendingSettles(s, es, e, t);
    FlagSettles(es, e, s.flag, t);
    assert OnEvent(t, e, clock).state == ProcessEvent(t, e.kind, e.code, e.value);
  }

  ghost predicate SettlesTo(s: State, es: seq<InputEvent>, clock: nat -> int) {
    var d := Decode(s, Inputs(es), clock);
    d.out == [] && Settled(s, es, d.state)
  }

  lemma {:induction false} OneMoreSettles(s: State, es: seq<InputEvent>, e: InputEvent, clock: nat -> int)
    requires SettlesTo(s, es, clock) && e.kind != EV_SYN
    ensures SettlesTo(s, es + [e], clock)
  {
    assert Inputs(es + [e]) == Inputs(es) + [Input(e)];
    RunOne(Step(clock), s, Inputs(es), Input(e));
    OneSettles(s, es, e, Decode(s, Inputs(es), clock).state, clock);
  }

  /** Before the SYN nothing comes out. */
  lemma {:induction false} FieldsSettle(s: State, es: seq<InputEvent>, clock: nat -> int)
    requires forall i :: 0 <= i < |es| ==> es[i].kind != EV_SYN
    ensures SettlesTo(s, es, clock)
  {
    if es != [] {
      var init, e := es[..|es| - 1], es[|es| - 1];
      FieldsSettle(s, init, clock);
      OneMoreSettles(s, init, e, clock);
      assert es == init + [e];
    }
  }

  /** Exactly what any packet delivers. A sample comes out if and only if the sensor is on, the clock is past the window, a
      low timestamp word came last, and the timestamp (the clock, when it is zero) is past the window; and then every
      field of it is the one given last, in this packet or in any before. Behind it the fields stay pending, the
      timestamp starts from zero if the sample came out, and the completeness flag falls if the SYN was acted on. */
  lemma {:induction false} PacketDelivers(s: State, es: seq<InputEvent>, syn: InputEvent, clock: nat -> int)
    requires (forall i :: 0 <= i < |es| ==> es[i].kind != EV_SYN) && syn.kind == EV_SYN
    ensures var time, p := clock(s.ticks), Overlaid(es, CODES, s.pending, s.div);
            var ts := if p.timestamp == 0 then time else p.timestamp;
            var acts := s.enabled && time >= s.enabledTime && LowCameLast(es, CODES, s.flag);
            var d := Decode(s, Inputs(es) + [Input(syn)], clock);
            && d.out == (if acts && ts > s.enabledTime then [Reading(ID_ACCELEROMETER, p.(timestamp := ts))] else [])
            && d.state == s.(ticks := s.ticks + 1, flag := d.state.flag,
                             pending := if acts then p.(timestamp := if ts > s.enabledTime then 0 else ts) else p)
            && (d.state.flag == COMPLETE <==> !acts && LowCameLast(es, CODES, s.flag))
  {
    FieldsSettle(s, es, clock);
    RunOne(Step(clock), s, Inputs(es), Input(syn));
    assert Step(clock)(Decode(s, Inputs(es), clock).state, Input(syn)) == OnSyn(Decode(s, Inputs(es), clock).state, clock(s.ticks));
  }

  /** So the completeness flag does not guard completeness: a packet of nothing but its low timestamp word is delivered
      too, with every other field left over from before. */
  lemma {:induction false} LoneLowWordIsDelivered(s: State, v: int, clock: nat -> int)
    requires s.enabled && clock(s.ticks) >= s.enabledTime
    requires MergeLo(s.pending.timestamp, v) != 0 && MergeLo(s.pending.timestamp, v) > s.enabledTime
    ensures Decode(s, [Input(InputEvent(EV_REL, REL_DIAL, v)), Input(InputEvent(EV_SYN, 0, 0))], clock).out
         == [Reading(ID_ACCELEROMETER, s.pending.(timestamp := MergeLo(s.pending.timestamp, v)))]
  {
    var lo, syn := Input(InputEvent(EV_REL, REL_DIAL, v)), Input(InputEvent(EV_SYN, 0, 0));
    RunSingle(Step(clock), s, lo);
    RunOne(Step(clock), s, [lo], syn);
    assert [lo] + [syn] == [lo, syn];
  }

  /** And a packet that carries every field, but another one behind the low word, is lost. */
  lemma {:induction false} LateFieldLosesPacket(s: State, es: seq<InputEvent>, v: int, clock: nat -> int)
    requires forall i :: 0 <= i < |es| ==> es[i].kind != EV_SYN
    ensures var all := es + [InputEvent(EV_ABS, ABS_WHEEL, v)];
            Decode(s, Inputs(all) + [Input(InputEvent(EV_SYN, 0, 0))], clock).out == []
  {
    LowAfterOne(es, InputEvent(EV_ABS, ABS_WHEEL, v), CODES, s.flag);
    PacketDelivers(s, es + [InputEvent(EV_ABS, ABS_WHEEL, v)], InputEvent(EV_SYN, 0, 0), clock);
  }

  /** While the sensor is off nothing comes out, whatever arrives. */
  lemma {:induction false} OffIsSilent(s: State, es: seq<InputEvent>, clock: nat -> int)
    requires !s.enabled
    ensures Decode(s, Inputs(es), clock).out == [] && !Decode(s, Inputs(es), clock).state.enabled
  {
    if es != [] {
      var init, e := es[..|es| - 1], es[|es| - 1];
      OffIsSilent(s, init, clock);
      assert Inputs(es) == Inputs(init) + [Input(e)];
      RunOne(Step(clock), s, Inputs(init), Input(e));
    }
  }

  /** It is off when it is made, and after every switch-off. */
  lemma {:induction false} OffWhenMadeOrSwitchedOff(s: State, div: int, now: int, es: seq<InputEvent>, clock: nat -> int)
    ensures Decode(Fresh(div), Inputs(es), clock).out == []
    ensures Decode(s, [Switch(false, now)] + Inputs(es), clock).out == []
  {
    OffIsSilent(Fresh(div), es, clock);
    var off := Decode(s, [Switch(false, now)], clock);
    RunSingle(Step(clock), s, Switch(false, now));
    OffIsSilent(off.state, es, clock);
    RunConcat(Step(clock), s, [Switch(false, now)], Inputs(es));
  }
}
