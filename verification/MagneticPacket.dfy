/** Any report at all, complete or not: what the two-sensor decoder makes of the events between two SYNs. */
module MagneticPacket {
  import opened EventFields
  import opened InputEvents
  import opened Stream
  import opened Magnetic

  /** The codes of the two sensors' fields, and of the UPDATE event that only announces. */
  function CodesOf(j: int): Codes {
    if j == 0 then Codes(ABS_X, ABS_Y, ABS_Z, ABS_WHEEL, REL_HWHEEL, REL_DIAL)
    else Codes(ABS_RX, ABS_RY, ABS_RZ, ABS_THROTTLE, REL_WHEEL, REL_MISC)
  }

  function UpdateOf(j: int): int { if j == 0 then REL_X else REL_RX }

  /** A data field or an UPDATE of sensor `j`; timestamp halves do not announce. */
  predicate Announces(e: InputEvent, j: int) { IsData(e, CodesOf(j)) || (e.kind == EV_REL && e.code == UpdateOf(j)) }

  ghost predicate Announced(es: seq<InputEvent>, j: int) { exists i :: 0 <= i < |es| && Announces(es[i], j) }

  lemma {:induction false} AnnouncedAfterOne(es: seq<InputEvent>, e: InputEvent, j: int)
    ensures Announced(es + [e], j) <==> Announces(e, j) || Announced(es, j)
  {
    var more := es + [e];
    assert more[|es|] == e && forall i :: 0 <= i < |es| ==> more[i] == es[i];
  }

  // ---- Before the SYN ----

  /** Slot `j`, once `slot`, after the events. */
  ghost predicate Settled(slot: Slot, j: int, es: seq<InputEvent>, t: Slot) {
    && t == slot.(due := slot.due || Announced(es, j), flag := t.flag,
                  sample := Overlaid(es, CodesOf(j), slot.sample, slot.div))
    && (t.flag == COMPLETE <==> LowCameLast(es, CodesOf(j), slot.flag))
  }

  lemma {:induction false} SampleSettles(slot: Slot, j: int, es: seq<InputEvent>, e: InputEvent, t: Slots)
    requires 0 <= j < 2 && (e.kind == EV_ABS || e.kind == EV_REL)
    requires t.At(j).div == slot.div && t.At(j).sample == Overlaid(es, CodesOf(j), slot.sample, slot.div)
    ensures OnField(t, e).At(j).sample == Overlaid(es + [e], CodesOf(j), slot.sample, slot.div)
    ensures OnField(t, e).At(j).div == slot.div && OnField(t, e).At(j).enabledTime == t.At(j).enabledTime
  {
    assert (es + [e])[..|es|] == es;
  }

  lemma {:induction false} FlagsSettle(j: int, e: InputEvent, t: Slots)
    requires 0 <= j < 2 && (e.kind == EV_ABS || e.kind == EV_REL)
    ensures OnField(t, e).At(j).due <==> t.At(j).due || Announces(e, j)
    ensures OnField(t, e).At(j).flag == COMPLETE
       <==> IsLow(e, CodesOf(j)) || (!Known(e, CodesOf(j)) && t.At(j).flag == COMPLETE)
  {
  }

  lemma {:induction false} OneSettles(slot: Slot, j: int, es: seq<InputEvent>, e: InputEvent, t: Slots)
    requires 0 <= j < 2 && e.kind != EV_SYN && Settled(slot, j, es, t.At(j))
    ensures var r := Step()(t, e); r.out == [] && Settled(slot, j, es + [e], r.state.At(j))
  {
    AnnouncedAfterOne(es, e, j);
    LowAfterOne(es, e, CodesOf(j), slot.flag);
    if e.kind == EV_ABS || e.kind == EV_REL {
      SampleSettles(slot, j, es, e, t);
      FlagsSettle(j, e, t);
    } else {
      assert (es + [e])[..|es|] == es;
    }
  }

  ghost predicate BothSettled(s: Slots, es: seq<InputEvent>, t: Slots) {
    Settled(s.field, 0, es, t.field) && Settled(s.orientation, 1, es, t.orientation)
  }

  lemma {:induction false} BothSettle(s: Slots, es: seq<InputEvent>, e: InputEvent, t: Slots)
    requires e.kind != EV_SYN && BothSettled(s, es, t)
    ensures var r := Step()(t, e); r.out == [] && BothSettled(s, es + [e], r.state)
  {
    OneSettles(s.field, 0, es, e, t);
    OneSettles(s.orientation, 1, es, e, t);
  }

  /** Nothing comes out, and each slot's fields hold what they were given last. */
  lemma {:induction false} FieldsSettle(s: Slots, es: seq<InputEvent>)
    requires forall i :: 0 <= i < |es| ==> es[i].kind != EV_SYN
    ensures Run(Step(), s, es).out == [] && BothSettled(s, es, Run(Step(), s, es).state)
  {
    if es != [] {
      var init, e := es[..|es| - 1], es[|es| - 1];
      FieldsSettle(s, init);
      BothSettle(s, init, e, Run(Step(), s, init).state);
      RunOne(Step(), s, init, e);
      assert es == init + [e];
    }
  }

  // ---- The report ----

  /** What sensor `j` delivers: the fields given last, if one was announced, a low timestamp word came last, and the
      timestamp is past the sensor's window. */
  ghost function Due(slot: Slot, j: int, es: seq<InputEvent>): seq<SensorEvent> {
    var p := Overlaid(es, CodesOf(j), slot.sample, slot.div);
    if Announced(es, j) && LowCameLast(es, CodesOf(j), slot.flag) && p.timestamp > slot.enabledTime
    then [Reading(1 + j, p)] else []
  }

  /** What it leaves behind: no bit pending, the fields given last, a timestamp from zero if the sample came out, and a
      completeness flag that stands only if it was not looked at. */
  ghost predicate Left(slot: Slot, j: int, es: seq<InputEvent>, t: Slot) {
    var p := Overlaid(es, CodesOf(j), slot.sample, slot.div);
    && t == slot.(due := false, flag := t.flag, sample := if Due(slot, j, es) != [] then p.(timestamp := 0) else p)
    && (t.flag == COMPLETE <==> !Announced(es, j) && LowCameLast(es, CodesOf(j), slot.flag))
  }

  lemma {:induction false} TurnDelivers(slot: Slot, j: int, es: seq<InputEvent>, t: Slot)
    requires !slot.due && Settled(slot, j, es, t)
    ensures Turn(t, j).out == Due(slot, j, es) && Left(slot, j, es, Turn(t, j).state)
  {
  }

  /** Exactly what any report delivers, said of the events alone: the magnetic field first, then the orientation, each under
      its own condition; and exactly what it leaves pending. */
  lemma {:induction false} ReportDelivers(s: Slots, es: seq<InputEvent>, syn: InputEvent)
    requires s.Idle() && (forall i :: 0 <= i < |es| ==> es[i].kind != EV_SYN) && syn.kind == EV_SYN
    ensures var d := Run(Step(), s, es + [syn]);
            && d.out == Due(s.field, 0, es) + Due(s.orientation, 1, es)
            && Left(s.field, 0, es, d.state.field) && Left(s.orientation, 1, es, d.state.orientation)
  {
    FieldsSettle(s, es);
    var t := Run(Step(), s, es).state;
    RunOne(Step(), s, es, syn);
    TurnDelivers(s.field, 0, es, t.field);
    TurnDelivers(s.orientation, 1, es, t.orientation);
    assert [] + OnSyn(t).out == OnSyn(t).out;
  }

  /** So half a sample is never delivered: when the last field or timestamp event of sensor `j` is not its low word, nothing
      of `j` comes out. */
  lemma {:induction false} IncompleteIsDropped(s: Slots, j: int, es: seq<InputEvent>, e: InputEvent, syn: InputEvent)
    requires s.Idle() && (forall i :: 0 <= i < |es| ==> es[i].kind != EV_SYN) && e.kind != EV_SYN && syn.kind == EV_SYN
    requires 0 <= j < 2 && Known(e, CodesOf(j)) && !IsLow(e, CodesOf(j))
    ensures var out := Run(Step(), s, (es + [e]) + [syn]).out;
            forall k :: 0 <= k < |out| ==> out[k].sensor != 1 + j
  {
    ReportDelivers(s, es + [e], syn);
    LowAfterOne(es, e, CodesOf(j), s.At(j).flag);
  }
}
